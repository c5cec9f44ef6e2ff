/** b64urlToBuffer and bufferToB64url. btoa is specified by section 4 of RFC 4648 and atob as its inverse that
    forgives missing padding; both work on binary strings. The encoding is the unpadded form of section 5. */
module Base64Url {
  import opened Options

  type Byte = b: int | 0 <= b < 256

  type Sextet = v: int | 0 <= v < 64

  // ---------------------------------------------------------------- RFC 4648, section 4

  function Symbol(v: Sextet): char {
    if v < 26 then 'A' + v as char
    else if v < 52 then 'a' + (v - 26) as char
    else if v < 62 then '0' + (v - 52) as char
    else if v == 62 then '+' else '/'
  }

  function ValueOf(c: char): Option<Sextet> {
    if 'A' <= c <= 'Z' then Some(c as int - 'A' as int)
    else if 'a' <= c <= 'z' then Some(c as int - 'a' as int + 26)
    else if '0' <= c <= '9' then Some(c as int - '0' as int + 52)
    else if c == '+' then Some(62)
    else if c == '/' then Some(63) else None
  }

  /** The four sextets of the bytes x, y, z; a missing byte counts as zero. */
  function First(x: Byte): Sextet { x / 4 }

  function Second(x: Byte, y: Byte): Sextet { x % 4 * 16 + y / 16 }

  function Third(y: Byte, z: Byte): Sextet { y % 16 * 4 + z / 64 }

  function Fourth(z: Byte): Sextet { z % 64 }

  function Sextets(b: seq<Byte>): seq<Sextet> {
    if b == [] then []
    else if |b| == 1 then [First(b[0]), Second(b[0], 0)]
    else if |b| == 2 then [First(b[0]), Second(b[0], b[1]), Third(b[1], 0)]
    else [First(b[0]), Second(b[0], b[1]), Third(b[1], b[2]), Fourth(b[2])] + Sextets(b[3..])
  }

  /** The three bytes of the sextets w, x, y, z. */
  function Front(w: Sextet, x: Sextet): Byte { w * 4 + x / 16 }

  function Middle(x: Sextet, y: Sextet): Byte { x % 16 * 16 + y / 4 }

  function Back(y: Sextet, z: Sextet): Byte { y % 4 * 64 + z }

  /** Bits left over in a short last group are dropped. */
  function Bytes(v: seq<Sextet>): seq<Byte> {
    if |v| < 2 then []
    else if |v| == 2 then [Front(v[0], v[1])]
    else if |v| == 3 then [Front(v[0], v[1]), Middle(v[1], v[2])]
    else [Front(v[0], v[1]), Middle(v[1], v[2]), Back(v[2], v[3])] + Bytes(v[4..])
  }

  function Symbols(v: seq<Sextet>): (s: string)
    ensures |s| == |v| && forall i :: 0 <= i < |v| ==> s[i] == Symbol(v[i])
  {
    seq(|v|, i requires 0 <= i < |v| => Symbol(v[i]))
  }

  function Equals(n: nat): (s: string)
    ensures |s| == n && forall i :: 0 <= i < n ==> s[i] == '='
  {
    seq(n, _ => '=')
  }

  function Btoa(b: seq<Byte>): string {
    Symbols(Sextets(b)) + Equals((2 * |b|) % 3)
  }

  predicate InAlphabet(s: string) {
    forall i :: 0 <= i < |s| ==> ValueOf(s[i]).Some?
  }

  function Values(s: string): (v: seq<Sextet>)
    requires InAlphabet(s)
    ensures |v| == |s| && forall i :: 0 <= i < |s| ==> v[i] == ValueOf(s[i]).value
  {
    seq(|s|, i requires 0 <= i < |s| => ValueOf(s[i]).value)
  }

  predicate EndsInEquals(s: string) {
    s != "" && s[|s| - 1] == '='
  }

  /** Full groups may end in one or two '='. */
  function Unpad(s: string): string {
    if |s| % 4 != 0 || !EndsInEquals(s) then s
    else if EndsInEquals(s[..|s| - 1]) then s[..|s| - 2]
    else s[..|s| - 1]
  }

  function Atob(s: string): Option<seq<Byte>> {
    var t := Unpad(s);
    if |t| % 4 != 1 && InAlphabet(t) then Some(Bytes(Values(t))) else None
  }

  // ---------------------------------------------------------------- the two functions

  /** s.replace(/from/g, to) */
  function Replace(s: string, from: char, to: char): (r: string)
    ensures |r| == |s| && forall i :: 0 <= i < |s| ==> r[i] == if s[i] == from then to else s[i]
  {
    seq(|s|, i requires 0 <= i < |s| => if s[i] == from then to else s[i])
  }

  /** s.replace(/=+$/, '') */
  function TrimPadding(s: string): string {
    if s != "" && s[|s| - 1] == '=' then TrimPadding(s[..|s| - 1]) else s
  }

  /** '==='.slice((n + 3) % 4) */
  function Padding(n: nat): string {
    "==="[(n + 3) % 4..]
  }

  function Encode(b: seq<Byte>): string {
    TrimPadding(Replace(Replace(Btoa(b), '+', '-'), '/', '_'))
  }

  function Decode(value: string): Option<seq<Byte>> {
    var base64 := Replace(Replace(value, '-', '+'), '_', '/');
    Atob(base64 + Padding(|base64|))
  }

  /** String.fromCharCode and charCodeAt on a binary string. */
  function FromCharCodes(b: seq<Byte>): (s: string)
    ensures |s| == |b| && forall i :: 0 <= i < |b| ==> s[i] as int == b[i]
  {
    seq(|b|, i requires 0 <= i < |b| => b[i] as char)
  }

  function CharCodes(s: string): (b: seq<Byte>)
    requires forall i :: 0 <= i < |s| ==> s[i] as int < 256
    ensures |b| == |s| && forall i :: 0 <= i < |s| ==> b[i] == s[i] as int
  {
    seq(|s|, i requires 0 <= i < |s| => s[i] as int)
  }

  method BufferToB64url(bytes: array<Byte>) returns (r: string)
    ensures r == Encode(bytes[..])
  {
    var binary := "";
    var i := 0;
    while i < bytes.Length
      invariant 0 <= i <= bytes.Length && binary == FromCharCodes(bytes[..i])
    {
      binary := binary + [bytes[i] as char];
      i := i + 1;
    }
    assert CharCodes(binary) == bytes[..];
    r := TrimPadding(Replace(Replace(Btoa(CharCodes(binary)), '+', '-'), '/', '_'));
  }

  /** None where atob throws. */
  method B64urlToBuffer(value: string) returns (r: Option<array<Byte>>)
    ensures r.Some? <==> Decode(value).Some?
    ensures r.Some? ==> fresh(r.value) && r.value[..] == Decode(value).value
  {
    var base64 := Replace(Replace(value, '-', '+'), '_', '/');
    var decoded := Atob(base64 + Padding(|base64|));
    assert decoded == Decode(value);
    if decoded == None {
      return None;
    }
    var bytes := Uint8Array(FromCharCodes(decoded.value));
    assert bytes[..] == decoded.value;
    return Some(bytes);
  }

  /** The character codes of a binary string. */
  method Uint8Array(binary: string) returns (bytes: array<Byte>)
    requires forall i :: 0 <= i < |binary| ==> binary[i] as int < 256
    ensures fresh(bytes) && bytes[..] == CharCodes(binary)
  {
    bytes := new Byte[|binary|];
    var i := 0;
    while i < |binary|
      invariant 0 <= i <= |binary|
      invariant forall k :: 0 <= k < i ==> bytes[k] == binary[k] as int
    {
      bytes[i] := binary[i] as int;
      i := i + 1;
    }
  }

  // ---------------------------------------------------------------- the alphabet

  predicate UrlSafe(c: char) {
    'A' <= c <= 'Z' || 'a' <= c <= 'z' || '0' <= c <= '9' || c == '-' || c == '_'
  }

  function UrlSymbol(v: Sextet): (c: char)
    ensures UrlSafe(c)
  {
    if v == 62 then '-' else if v == 63 then '_' else Symbol(v)
  }

  function UrlSymbols(v: seq<Sextet>): (s: string)
    ensures |s| == |v| && forall i :: 0 <= i < |v| ==> s[i] == UrlSymbol(v[i])
  {
    seq(|v|, i requires 0 <= i < |v| => UrlSymbol(v[i]))
  }

  lemma SymbolReadsBack(v: Sextet)
    ensures ValueOf(Symbol(v)) == Some(v) && Symbol(v) != '='
    ensures UrlSymbol(v) == (if Symbol(v) == '+' then '-' else if Symbol(v) == '/' then '_' else Symbol(v))
    ensures Symbol(v) == (if UrlSymbol(v) == '-' then '+' else if UrlSymbol(v) == '_' then '/' else UrlSymbol(v))
    ensures UrlSymbol(v) != '='
  {
  }

  lemma ToUrlAlphabet(v: seq<Sextet>, n: nat)
    ensures Replace(Replace(Symbols(v) + Equals(n), '+', '-'), '/', '_') == UrlSymbols(v) + Equals(n)
  {
    forall i | 0 <= i < |v| ensures UrlSymbols(v)[i] == Replace(Replace(Symbols(v) + Equals(n), '+', '-'), '/', '_')[i] {
      SymbolReadsBack(v[i]);
    }
  }

  lemma FromUrlAlphabet(v: seq<Sextet>)
    ensures Replace(Replace(UrlSymbols(v), '-', '+'), '_', '/') == Symbols(v)
  {
    forall i | 0 <= i < |v| ensures Replace(Replace(UrlSymbols(v), '-', '+'), '_', '/')[i] == Symbols(v)[i] {
      SymbolReadsBack(v[i]);
    }
  }

  lemma {:induction false} TrimmingEquals(s: string, n: nat)
    requires !EndsInEquals(s)
    ensures TrimPadding(s + Equals(n)) == s
  {
    if n > 0 {
      TrimmingEquals(s, n - 1);
      assert (s + Equals(n))[..|s| + n - 1] == s + Equals(n - 1);
    } else {
      assert s + Equals(0) == s;
    }
  }

  lemma EncodeIsUrlSymbols(b: seq<Byte>)
    ensures Encode(b) == UrlSymbols(Sextets(b))
  {
    var v := Sextets(b);
    ToUrlAlphabet(v, (2 * |b|) % 3);
    if v != [] {
      SymbolReadsBack(v[|v| - 1]);
    }
    TrimmingEquals(UrlSymbols(v), (2 * |b|) % 3);
  }

  // ---------------------------------------------------------------- decoding url symbols

  /** A length that leaves one symbol over has no decoding; every other gets exactly the padding it lacks. */
  lemma PaddingCompletes(n: nat)
    ensures n % 4 == 0 ==> Padding(n) == ""
    ensures n % 4 == 1 ==> Padding(n) == "==="
    ensures n % 4 == 2 ==> Padding(n) == "=="
    ensures n % 4 == 3 ==> Padding(n) == "="
  {
    assert (n + 3) % 4 == if n % 4 == 0 then 3 else n % 4 - 1;
    assert "==="[3..] == "" && "==="[2..] == "=" && "==="[1..] == "==" && "==="[0..] == "===";
  }

  lemma UnpadOne(s: string)
    requires !EndsInEquals(s) && |s| % 4 == 3
    ensures Unpad(s + "=") == s
  {
    var t := s + "=";
    DivideByFour(|t|, |s| / 4 + 1, 0);
    assert t[..|t| - 1] == s;
  }

  lemma UnpadTwo(s: string)
    requires !EndsInEquals(s) && |s| % 4 == 2
    ensures Unpad(s + "==") == s
  {
    var t := s + "==";
    DivideByFour(|t|, |s| / 4 + 1, 0);
    assert t[..|t| - 1] == s + "=";
    assert t[..|t| - 2] == s;
  }

  lemma UnpadUndoesPadding(s: string)
    requires !EndsInEquals(s) && |s| % 4 != 1
    ensures Unpad(s + Padding(|s|)) == s
  {
    PaddingCompletes(|s|);
    if |s| % 4 == 3 {
      UnpadOne(s);
    } else if |s| % 4 == 2 {
      UnpadTwo(s);
    } else {
      assert s + "" == s;
    }
  }

  lemma SymbolsReadBack(v: seq<Sextet>)
    ensures InAlphabet(Symbols(v)) && Values(Symbols(v)) == v && !EndsInEquals(Symbols(v))
  {
    forall i | 0 <= i < |v| ensures ValueOf(Symbols(v)[i]) == Some(v[i]) && Symbols(v)[i] != '=' {
      SymbolReadsBack(v[i]);
    }
  }

  lemma DecodeOfUrlSymbols(v: seq<Sextet>)
    requires |v| % 4 != 1
    ensures Decode(UrlSymbols(v)) == Some(Bytes(v))
  {
    FromUrlAlphabet(v);
    SymbolsReadBack(v);
    UnpadUndoesPadding(Symbols(v));
  }

  // ---------------------------------------------------------------- bytes and sextets

  lemma SplitThenJoin(x: Byte, y: Byte, z: Byte)
    ensures Front(First(x), Second(x, y)) == x
    ensures Middle(Second(x, y), Third(y, z)) == y
    ensures Back(Third(y, z), Fourth(z)) == z
  {
  }

  lemma JoinThenSplit(w: Sextet, x: Sextet, y: Sextet, z: Sextet)
    ensures First(Front(w, x)) == w
    ensures Second(Front(w, x), Middle(x, y)) == x && (x % 16 == 0 ==> Second(Front(w, x), 0) == x)
    ensures Third(Middle(x, y), Back(y, z)) == y && (y % 4 == 0 ==> Third(Middle(x, y), 0) == y)
    ensures Fourth(Back(y, z)) == z
  {
  }

  /** Two, three or four sextets for each group, so a length of 4k + 1 never arises. */
  lemma {:induction false} SextetsLength(b: seq<Byte>)
    ensures |Sextets(b)| == (4 * |b| + 2) / 3 && |Sextets(b)| % 4 != 1
  {
    if |b| >= 3 {
      SextetsLength(b[3..]);
    }
  }

  lemma BytesOfFour(w: Sextet, x: Sextet, y: Sextet, z: Sextet, rest: seq<Sextet>)
    ensures Bytes([w, x, y, z] + rest) == [Front(w, x), Middle(x, y), Back(y, z)] + Bytes(rest)
  {
    var v := [w, x, y, z] + rest;
    assert v[4..] == rest;
    assert v[0] == w && v[1] == x && v[2] == y && v[3] == z;
  }

  lemma FullGroupReadsBack(x: Byte, y: Byte, z: Byte, rest: seq<Sextet>)
    ensures Bytes([First(x), Second(x, y), Third(y, z), Fourth(z)] + rest) == [x, y, z] + Bytes(rest)
  {
    BytesOfFour(First(x), Second(x, y), Third(y, z), Fourth(z), rest);
    SplitThenJoin(x, y, z);
  }

  lemma OneByteReadsBack(x: Byte)
    ensures Bytes([First(x), Second(x, 0)]) == [x]
  {
    SplitThenJoin(x, 0, 0);
  }

  lemma TwoBytesReadBack(x: Byte, y: Byte)
    ensures Bytes([First(x), Second(x, y), Third(y, 0)]) == [x, y]
  {
    SplitThenJoin(x, y, 0);
  }

  lemma {:induction false} BytesReadBack(b: seq<Byte>)
    ensures Bytes(Sextets(b)) == b
  {
    if |b| >= 3 {
      BytesReadBack(b[3..]);
      FullGroupReadsBack(b[0], b[1], b[2], Sextets(b[3..]));
      assert b == [b[0], b[1], b[2]] + b[3..];
    } else if |b| == 2 {
      TwoBytesReadBack(b[0], b[1]);
      assert b == [b[0], b[1]];
    } else if |b| == 1 {
      OneByteReadsBack(b[0]);
      assert b == [b[0]];
    }
  }

  /** No group of one sextet, and no stray bits in a short last group. */
  predicate Whole(v: seq<Sextet>) {
    && |v| % 4 != 1
    && (|v| % 4 == 2 ==> v[|v| - 1] % 16 == 0)
    && (|v| % 4 == 3 ==> v[|v| - 1] % 4 == 0)
  }

  lemma FourMore(n: nat)
    ensures (n + 4) % 4 == n % 4
  {
  }

  lemma GroupBeforeWhole(group: seq<Sextet>, rest: seq<Sextet>)
    requires |group| == 4
    ensures Whole(group + rest) <==> Whole(rest)
  {
    FourMore(|rest|);
    assert rest != [] ==> (group + rest)[|group + rest| - 1] == rest[|rest| - 1];
  }

  lemma {:induction false} SextetsAreWhole(b: seq<Byte>)
    ensures Whole(Sextets(b))
  {
    if |b| >= 3 {
      SextetsAreWhole(b[3..]);
      GroupBeforeWhole([First(b[0]), Second(b[0], b[1]), Third(b[1], b[2]), Fourth(b[2])], Sextets(b[3..]));
    } else if |b| == 2 {
      assert Third(b[1], 0) % 4 == 0;
    } else if |b| == 1 {
      assert Second(b[0], 0) % 16 == 0;
    }
  }

  lemma FullGroupRejoins(w: Sextet, x: Sextet, y: Sextet, z: Sextet, rest: seq<Sextet>)
    ensures Sextets(Bytes([w, x, y, z] + rest)) == [w, x, y, z] + Sextets(Bytes(rest))
  {
    var b := [Front(w, x), Middle(x, y), Back(y, z)] + Bytes(rest);
    BytesOfFour(w, x, y, z, rest);
    assert b[3..] == Bytes(rest);
    JoinThenSplit(w, x, y, z);
  }

  lemma TwoSextetsRejoin(w: Sextet, x: Sextet)
    requires x % 16 == 0
    ensures Sextets(Bytes([w, x])) == [w, x]
  {
    JoinThenSplit(w, x, 0, 0);
  }

  lemma ThreeSextetsRejoin(w: Sextet, x: Sextet, y: Sextet)
    requires y % 4 == 0
    ensures Sextets(Bytes([w, x, y])) == [w, x, y]
  {
    JoinThenSplit(w, x, y, 0);
  }

  lemma {:induction false} SextetsReadBack(v: seq<Sextet>)
    requires Whole(v)
    ensures Sextets(Bytes(v)) == v
  {
    if |v| >= 4 {
      assert v == [v[0], v[1], v[2], v[3]] + v[4..];
      GroupBeforeWhole([v[0], v[1], v[2], v[3]], v[4..]);
      SextetsReadBack(v[4..]);
      FullGroupRejoins(v[0], v[1], v[2], v[3], v[4..]);
    } else if |v| == 3 {
      assert v == [v[0], v[1], v[2]];
      ThreeSextetsRejoin(v[0], v[1], v[2]);
    } else if |v| == 2 {
      assert v == [v[0], v[1]];
      TwoSextetsRejoin(v[0], v[1]);
    }
  }

  // ---------------------------------------------------------------- the round trips

  lemma PaddedLength(n: nat)
    requires n % 4 != 1
    ensures (n + |Padding(n)|) % 4 == 0
  {
    PaddingCompletes(n);
    DivideByFour(n + |Padding(n)|, if n % 4 == 0 then n / 4 else n / 4 + 1, 0);
  }

  /** btoa pads by exactly what the slice would supply. */
  lemma BtoaIsPadded(b: seq<Byte>)
    ensures Btoa(b) == Symbols(Sextets(b)) + Padding(|Sextets(b)|) && |Sextets(b)| % 4 != 1
  {
    SextetsLength(b);
    PadCount(|b|);
    PadMatches(|Sextets(b)|, (2 * |b|) % 3);
  }

  /** The two reference functions: whole groups of four, and each undoes the other's padding. */
  lemma AtobUndoesBtoa(b: seq<Byte>)
    ensures |Btoa(b)| % 4 == 0 && Atob(Btoa(b)) == Some(b)
  {
    var s := Symbols(Sextets(b));
    BtoaIsPadded(b);
    PaddedLength(|s|);
    SymbolsReadBack(Sextets(b));
    UnpadUndoesPadding(s);
    BytesReadBack(b);
  }

  lemma DivideByThree(n: nat, q: nat, r: nat)
    requires n == 3 * q + r && r < 3
    ensures n / 3 == q && n % 3 == r
  {
  }

  /** The only number of '=' below three that completes a length is the slice's. */
  lemma PadMatches(n: nat, pad: nat)
    requires pad < 3 && (n + pad) % 4 == 0
    ensures Equals(pad) == Padding(n)
  {
    PaddingCompletes(n);
    var q := (n + pad) / 4;
    if pad == 0 {
      DivideByFour(n, q, 0);
      assert Equals(0) == "";
    } else if pad == 1 {
      DivideByFour(n, q - 1, 3);
      assert Equals(1) == "=";
    } else {
      DivideByFour(n, q - 1, 2);
      assert Equals(2) == "==";
    }
  }

  lemma PadCount(n: nat)
    ensures ((4 * n + 2) / 3 + (2 * n) % 3) % 4 == 0
  {
    var q, r := n / 3, n % 3;
    if r == 0 {
      DivideByThree(4 * n + 2, 4 * q, 2);
      DivideByThree(2 * n, 2 * q, 0);
      DivideByFour(4 * q, q, 0);
    } else if r == 1 {
      DivideByThree(4 * n + 2, 4 * q + 2, 0);
      DivideByThree(2 * n, 2 * q, 2);
      DivideByFour(4 * q + 4, q + 1, 0);
    } else {
      DivideByThree(4 * n + 2, 4 * q + 3, 1);
      DivideByThree(2 * n, 2 * q + 1, 1);
      DivideByFour(4 * q + 4, q + 1, 0);
    }
  }

  lemma DivideByFour(n: nat, q: nat, r: nat)
    requires n == 4 * q + r && r < 4
    ensures n / 4 == q && n % 4 == r
  {
  }

  /** For every byte sequence, decoding its encoding gives it back; the encoding uses only the URL-safe
      alphabet and has no padding. */
  lemma RoundTrip(b: seq<Byte>)
    ensures Decode(Encode(b)) == Some(b)
    ensures forall i :: 0 <= i < |Encode(b)| ==> UrlSafe(Encode(b)[i])
    ensures |Encode(b)| == (4 * |b| + 2) / 3
  {
    EncodeIsUrlSymbols(b);
    SextetsLength(b);
    DecodeOfUrlSymbols(Sextets(b));
    BytesReadBack(b);
  }

  function UrlValue(c: char): Sextet {
    if c == '-' then 62 else if c == '_' then 63
    else match ValueOf(c) case Some(v) => v case None => 0
  }

  function UrlValues(s: string): (v: seq<Sextet>)
    ensures |v| == |s| && forall i :: 0 <= i < |s| ==> v[i] == UrlValue(s[i])
  {
    seq(|s|, i requires 0 <= i < |s| => UrlValue(s[i]))
  }

  lemma UrlValueReadsBack(c: char)
    requires UrlSafe(c)
    ensures UrlSymbol(UrlValue(c)) == c
  {
  }

  lemma UrlSymbolReadsBack(v: Sextet)
    ensures UrlValue(UrlSymbol(v)) == v
  {
  }

  /** URL-safe symbols only, no group of one symbol, and no stray bits in a short last group. */
  predicate Canonical(s: string) {
    (forall i :: 0 <= i < |s| ==> UrlSafe(s[i])) && Whole(UrlValues(s))
  }

  /** Encoding undoes decoding on exactly the canonical strings. */
  lemma ReEncodesExactlyCanonical(s: string)
    ensures (Decode(s).Some? && Encode(Decode(s).value) == s) <==> Canonical(s)
  {
    if Canonical(s) {
      var v := UrlValues(s);
      forall i | 0 <= i < |s| ensures UrlSymbols(v)[i] == s[i] {
        UrlValueReadsBack(s[i]);
      }
      assert UrlSymbols(v) == s;
      DecodeOfUrlSymbols(v);
      SextetsReadBack(v);
      EncodeIsUrlSymbols(Bytes(v));
    }
    if Decode(s).Some? && Encode(Decode(s).value) == s {
      var v := Sextets(Decode(s).value);
      EncodeIsUrlSymbols(Decode(s).value);
      SextetsAreWhole(Decode(s).value);
      forall i | 0 <= i < |v| ensures UrlValues(s)[i] == v[i] {
        UrlSymbolReadsBack(v[i]);
      }
      assert UrlValues(s) == v;
    }
  }
}
