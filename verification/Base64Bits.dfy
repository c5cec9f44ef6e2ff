/** The codec bit by bit: every symbol is the alphabet's letter for its six bits, and every byte is its eight. */
module Base64Bits {
  import opened Options
  import opened Base64Url

  const UPPER := "ABCDEFGHIJKLMNOPQRSTUVWXYZ"
  const LOWER := "abcdefghijklmnopqrstuvwxyz"
  const URL_ALPHABET := UPPER + LOWER + "0123456789-_"

  lemma Letters(k: nat)
    requires k < 26
    ensures UPPER[k] == 'A' + k as char && LOWER[k] == 'a' + k as char
  {
  }

  lemma Digits(k: nat)
    requires k < 10
    ensures "0123456789-_"[k] == '0' + k as char
  {
  }

  lemma SymbolIsLetter(v: Sextet)
    ensures |URL_ALPHABET| == 64 && UrlSymbol(v) == URL_ALPHABET[v]
  {
    if v < 26 {
      Letters(v);
    } else if v < 52 {
      Letters(v - 26);
    } else if v < 62 {
      Digits(v - 52);
    }
  }

  // ---------------------------------------------------------------- bit strings

  function OctetBits(x: Byte): seq<nat> {
    [x / 128 % 2, x / 64 % 2, x / 32 % 2, x / 16 % 2, x / 8 % 2, x / 4 % 2, x / 2 % 2, x % 2]
  }

  function SextetBits(v: Sextet): seq<nat> {
    [v / 32 % 2, v / 16 % 2, v / 8 % 2, v / 4 % 2, v / 2 % 2, v % 2]
  }

  /** The bits of the bytes, most significant first. */
  function ByteString(b: seq<Byte>): seq<nat> {
    if b == [] then [] else OctetBits(b[0]) + ByteString(b[1..])
  }

  function SextetString(v: seq<Sextet>): seq<nat> {
    if v == [] then [] else SextetBits(v[0]) + SextetString(v[1..])
  }

  predicate Bit(n: nat) {
    n == 0 || n == 1
  }

  lemma Halve(n: nat, a: nat, q: nat)
    requires n == 2 * q + a && Bit(a)
    ensures n / 2 == q && n % 2 == a
  {
  }

  lemma HalveTwice(n: nat)
    ensures n / 2 / 2 == n / 4 && n / 4 / 2 == n / 8 && n / 8 / 2 == n / 16
  {
  }

  lemma HalveMore(n: nat)
    ensures n / 16 / 2 == n / 32 && n / 32 / 2 == n / 64 && n / 64 / 2 == n / 128
  {
  }

  /** A number below 64 has only one way to be written with six bits. */
  lemma SixBits(n: Sextet, a: nat, b: nat, c: nat, d: nat, e: nat, f: nat)
    requires Bit(a) && Bit(b) && Bit(c) && Bit(d) && Bit(e) && Bit(f)
    requires n == 32 * a + 16 * b + 8 * c + 4 * d + 2 * e + f
    ensures SextetBits(n) == [a, b, c, d, e, f]
  {
    HalveTwice(n);
    HalveMore(n);
    Halve(n, f, 16 * a + 8 * b + 4 * c + 2 * d + e);
    Halve(n / 2, e, 8 * a + 4 * b + 2 * c + d);
    Halve(n / 4, d, 4 * a + 2 * b + c);
    Halve(n / 8, c, 2 * a + b);
    Halve(n / 16, b, a);
    Halve(n / 32, a, 0);
  }

  /** The bits of a byte, and its parts written with them. */
  lemma TwoDigits(n: nat)
    ensures n == 4 * (n / 4) + 2 * (n / 2 % 2) + n % 2 && Bit(n / 2 % 2) && Bit(n % 2)
  {
    var q, r := n / 4, n % 4;
    var g, h := if r >= 2 then 1 else 0, if r == 1 || r == 3 then 1 else 0;
    Halve(n, h, 2 * q + g);
    Halve(2 * q + g, g, q);
  }

  lemma Quarters(n: nat)
    ensures n / 4 / 4 == n / 16 && n / 16 / 4 == n / 64
    ensures n / 4 / 2 == n / 8 && n / 16 / 2 == n / 32 && n / 64 / 2 == n / 128
  {
  }

  lemma OctetDigits(x: nat)
    requires x < 256
    ensures x / 64 == 2 * (x / 128 % 2) + x / 64 % 2
    ensures x / 16 == 4 * (x / 64) + 2 * (x / 32 % 2) + x / 16 % 2
    ensures x / 4 == 4 * (x / 16) + 2 * (x / 8 % 2) + x / 4 % 2
  {
    Quarters(x);
    TwoDigits(x / 4);
    TwoDigits(x / 16);
    TwoDigits(x / 64);
  }

  lemma OctetSplits(x: Byte)
    ensures var s := OctetBits(x);
            && (forall i :: 0 <= i < 8 ==> Bit(s[i]))
            && x / 4 == 32 * s[0] + 16 * s[1] + 8 * s[2] + 4 * s[3] + 2 * s[4] + s[5]
            && x / 16 == 8 * s[0] + 4 * s[1] + 2 * s[2] + s[3]
            && x / 64 == 2 * s[0] + s[1]
  {
    OctetDigits(x);
  }

  lemma OctetLow(x: Byte)
    ensures var s := OctetBits(x);
            && x % 4 == 2 * s[6] + s[7]
            && x % 16 == 8 * s[4] + 4 * s[5] + 2 * s[6] + s[7]
            && x % 64 == 32 * s[2] + 16 * s[3] + 8 * s[4] + 4 * s[5] + 2 * s[6] + s[7]
  {
    OctetSplits(x);
    HalveTwice(x);
    assert x == 4 * (x / 4) + 2 * (x / 2 % 2) + x % 2;
    assert x % 4 == x - 4 * (x / 4) && x % 16 == x - 16 * (x / 16) && x % 64 == x - 64 * (x / 64);
  }

  // ---------------------------------------------------------------- encoding keeps the bits

  lemma FirstBits(x: Byte)
    ensures SextetBits(First(x)) == OctetBits(x)[..6]
  {
    var s := OctetBits(x);
    OctetSplits(x);
    SixBits(First(x), s[0], s[1], s[2], s[3], s[4], s[5]);
  }

  lemma SecondBits(x: Byte, y: Byte)
    ensures SextetBits(Second(x, y)) == OctetBits(x)[6..] + OctetBits(y)[..4]
  {
    var s, u := OctetBits(x), OctetBits(y);
    OctetSplits(x);
    OctetLow(x);
    OctetSplits(y);
    SixBits(Second(x, y), s[6], s[7], u[0], u[1], u[2], u[3]);
  }

  lemma ThirdBits(y: Byte, z: Byte)
    ensures SextetBits(Third(y, z)) == OctetBits(y)[4..] + OctetBits(z)[..2]
  {
    var s, u := OctetBits(y), OctetBits(z);
    OctetSplits(y);
    OctetLow(y);
    OctetSplits(z);
    SixBits(Third(y, z), s[4], s[5], s[6], s[7], u[0], u[1]);
  }

  lemma FourthBits(z: Byte)
    ensures SextetBits(Fourth(z)) == OctetBits(z)[2..]
  {
    var s := OctetBits(z);
    OctetSplits(z);
    OctetLow(z);
    SixBits(Fourth(z), s[2], s[3], s[4], s[5], s[6], s[7]);
  }

  lemma UnfoldSextets(v: Sextet, rest: seq<Sextet>)
    ensures SextetString([v] + rest) == SextetBits(v) + SextetString(rest)
  {
    assert ([v] + rest)[1..] == rest;
  }

  lemma UnfoldBytes(x: Byte, rest: seq<Byte>)
    ensures ByteString([x] + rest) == OctetBits(x) + ByteString(rest)
  {
    assert ([x] + rest)[1..] == rest;
  }

  lemma Regrouped<T>(a: seq<T>, b: seq<T>, c: seq<T>, d: seq<T>)
    ensures a + (b + (c + d)) == a + b + c + d
  {
  }

  lemma FourSextets(w: Sextet, x: Sextet, y: Sextet, z: Sextet, rest: seq<Sextet>)
    ensures SextetString([w, x, y, z] + rest) == SextetBits(w) + SextetBits(x) + SextetBits(y) + (SextetBits(z) + SextetString(rest))
  {
    var r3, r2, r1 := [z] + rest, [y] + ([z] + rest), [x] + ([y] + ([z] + rest));
    UnfoldSextets(z, rest);
    UnfoldSextets(y, r3);
    UnfoldSextets(x, r2);
    UnfoldSextets(w, r1);
    assert [w, x, y, z] + rest == [w] + r1;
    Regrouped(SextetBits(w), SextetBits(x), SextetBits(y), SextetString(r3));
  }

  lemma ThreeBytes(x: Byte, y: Byte, z: Byte, rest: seq<Byte>)
    ensures ByteString([x, y, z] + rest) == OctetBits(x) + OctetBits(y) + OctetBits(z) + ByteString(rest)
  {
    var r2, r1 := [z] + rest, [y] + ([z] + rest);
    UnfoldBytes(z, rest);
    UnfoldBytes(y, r2);
    UnfoldBytes(x, r1);
    assert [x, y, z] + rest == [x] + r1;
    Regrouped(OctetBits(x), OctetBits(y), OctetBits(z), ByteString(rest));
  }

  lemma GroupBits(x: Byte, y: Byte, z: Byte)
    ensures SextetBits(First(x)) + SextetBits(Second(x, y)) + SextetBits(Third(y, z)) + SextetBits(Fourth(z))
            == OctetBits(x) + OctetBits(y) + OctetBits(z)
  {
    FirstBits(x);
    SecondBits(x, y);
    ThirdBits(y, z);
    FourthBits(z);
  }

  lemma OneByteBits(x: Byte)
    ensures SextetString([First(x), Second(x, 0)]) == OctetBits(x) + [0, 0, 0, 0]
  {
    FirstBits(x);
    SecondBits(x, 0);
    UnfoldSextets(Second(x, 0), []);
    UnfoldSextets(First(x), [Second(x, 0)]);
    assert [First(x), Second(x, 0)] == [First(x)] + [Second(x, 0)] && [Second(x, 0)] == [Second(x, 0)] + [];
    assert OctetBits(0)[..4] == [0, 0, 0, 0];
    SplitAt(OctetBits(x), 6, [0, 0, 0, 0]);
  }

  lemma SplitAt<T>(a: seq<T>, n: nat, b: seq<T>)
    requires n <= |a|
    ensures a[..n] + (a[n..] + b + []) == a + b
  {
  }

  lemma TwoByteBits(x: Byte, y: Byte)
    ensures SextetString([First(x), Second(x, y), Third(y, 0)]) == OctetBits(x) + OctetBits(y) + [0, 0]
  {
    FirstBits(x);
    SecondBits(x, y);
    ThirdBits(y, 0);
    UnfoldSextets(Third(y, 0), []);
    UnfoldSextets(Second(x, y), [Third(y, 0)]);
    UnfoldSextets(First(x), [Second(x, y)] + [Third(y, 0)]);
    assert [First(x), Second(x, y), Third(y, 0)] == [First(x)] + ([Second(x, y)] + [Third(y, 0)]);
    assert [Third(y, 0)] == [Third(y, 0)] + [];
    assert OctetBits(0)[..2] == [0, 0];
    SplitTwice(OctetBits(x), OctetBits(y), [0, 0]);
  }

  lemma SplitTwice<T>(a: seq<T>, b: seq<T>, c: seq<T>)
    requires |a| >= 6 && |b| >= 4
    ensures a[..6] + (a[6..] + b[..4] + (b[4..] + c + [])) == a + b + c
  {
  }

  /** What fills up the last symbol of n bytes. */
  function Fill(n: nat): seq<nat> {
    if n % 3 == 1 then [0, 0, 0, 0] else if n % 3 == 2 then [0, 0] else []
  }

  lemma FillRepeats(n: nat)
    ensures Fill(n + 3) == Fill(n)
  {
  }

  /** The sextets of an encoding carry the bits of the bytes, in order, filled up with zeros. */
  lemma {:induction false} SextetsKeepBits(b: seq<Byte>)
    ensures SextetString(Sextets(b)) == ByteString(b) + Fill(|b|)
  {
    if |b| >= 3 {
      var x, y, z, rest := b[0], b[1], b[2], b[3..];
      assert b == [x, y, z] + rest;
      SextetsKeepBits(rest);
      FillRepeats(|rest|);
      FourSextets(First(x), Second(x, y), Third(y, z), Fourth(z), Sextets(rest));
      GroupBits(x, y, z);
      ThreeBytes(x, y, z, rest);
      TwoGroups(SextetBits(First(x)) + SextetBits(Second(x, y)) + SextetBits(Third(y, z)), SextetBits(Fourth(z)), SextetString(Sextets(rest)));
      TwoGroups(OctetBits(x) + OctetBits(y) + OctetBits(z), ByteString(rest), Fill(|rest|));
    } else if |b| == 2 {
      TwoByteBits(b[0], b[1]);
      UnfoldBytes(b[1], []);
      UnfoldBytes(b[0], [b[1]]);
      assert b == [b[0]] + [b[1]] && [b[1]] == [b[1]] + [];
      assert OctetBits(b[0]) + (OctetBits(b[1]) + []) == OctetBits(b[0]) + OctetBits(b[1]);
    } else if |b| == 1 {
      OneByteBits(b[0]);
      UnfoldBytes(b[0], []);
      assert b == [b[0]] + [];
    }
  }

  lemma TwoGroups<T>(a: seq<T>, b: seq<T>, c: seq<T>)
    ensures a + (b + c) == a + b + c
  {
  }

  /** Symbol i of an encoding is the alphabet's letter for the i-th six bits. */
  lemma EncodeIsBits(b: seq<Byte>) returns (v: seq<Sextet>)
    ensures |Encode(b)| == |v| && |URL_ALPHABET| == 64 && forall i :: 0 <= i < |v| ==> Encode(b)[i] == URL_ALPHABET[v[i]]
    ensures SextetString(v) ==
            ByteString(b) + if |b| % 3 == 1 then [0, 0, 0, 0] else if |b| % 3 == 2 then [0, 0] else []
  {
    v := Sextets(b);
    EncodeIsUrlSymbols(b);
    SextetsKeepBits(b);
    forall i | 0 <= i < |v| ensures |URL_ALPHABET| == 64 && Encode(b)[i] == URL_ALPHABET[v[i]] {
      SymbolIsLetter(v[i]);
    }
    SymbolIsLetter(0);
  }

  // ---------------------------------------------------------------- decoding keeps the bits

  lemma LowDigits(n: nat, q: nat, g: nat, h: nat)
    requires Bit(g) && Bit(h) && n == 4 * q + 2 * g + h
    ensures n / 4 == q && n / 2 % 2 == g && n % 2 == h
  {
    Halve(n, h, 2 * q + g);
  }

  lemma EightBits(n: Byte, a: nat, b: nat, c: nat, d: nat, e: nat, f: nat, g: nat, h: nat)
    requires Bit(a) && Bit(b) && Bit(c) && Bit(d) && Bit(e) && Bit(f) && Bit(g) && Bit(h)
    requires n == 128 * a + 64 * b + 32 * c + 16 * d + 8 * e + 4 * f + 2 * g + h
    ensures OctetBits(n) == [a, b, c, d, e, f, g, h]
  {
    LowDigits(n, 32 * a + 16 * b + 8 * c + 4 * d + 2 * e + f, g, h);
    SixBits(First(n), a, b, c, d, e, f);
    FirstThenTwo(n);
  }

  lemma FirstThenTwo(n: Byte)
    ensures OctetBits(n) == SextetBits(First(n)) + [n / 2 % 2, n % 2]
  {
    FirstBits(n);
  }

  lemma SextetSplits(v: Sextet)
    ensures var s := SextetBits(v);
            && (forall i :: 0 <= i < 6 ==> Bit(s[i]))
            && v == 32 * s[0] + 16 * s[1] + 8 * s[2] + 4 * s[3] + 2 * s[4] + s[5]
            && v / 4 == 8 * s[0] + 4 * s[1] + 2 * s[2] + s[3] && v / 16 == 2 * s[0] + s[1]
  {
    HalveTwice(v);
    HalveMore(v);
  }

  lemma SextetLow(v: Sextet)
    ensures var s := SextetBits(v);
            && v % 4 == 2 * s[4] + s[5] && v % 16 == 8 * s[2] + 4 * s[3] + 2 * s[4] + s[5]
  {
    SextetSplits(v);
    assert v % 4 == v - 4 * (v / 4) && v % 16 == v - 16 * (v / 16);
  }

  lemma FrontBits(w: Sextet, x: Sextet)
    ensures OctetBits(Front(w, x)) == SextetBits(w) + SextetBits(x)[..2]
  {
    var s, u := SextetBits(w), SextetBits(x);
    SextetSplits(w);
    SextetSplits(x);
    EightBits(Front(w, x), s[0], s[1], s[2], s[3], s[4], s[5], u[0], u[1]);
  }

  lemma MiddleBits(x: Sextet, y: Sextet)
    ensures OctetBits(Middle(x, y)) == SextetBits(x)[2..] + SextetBits(y)[..4]
  {
    var s, u := SextetBits(x), SextetBits(y);
    SextetSplits(x);
    SextetLow(x);
    SextetSplits(y);
    EightBits(Middle(x, y), s[2], s[3], s[4], s[5], u[0], u[1], u[2], u[3]);
  }

  lemma BackBits(y: Sextet, z: Sextet)
    ensures OctetBits(Back(y, z)) == SextetBits(y)[4..] + SextetBits(z)
  {
    var s, u := SextetBits(y), SextetBits(z);
    SextetSplits(y);
    SextetLow(y);
    SextetSplits(z);
    EightBits(Back(y, z), s[4], s[5], u[0], u[1], u[2], u[3], u[4], u[5]);
  }

  lemma QuadBits(w: Sextet, x: Sextet, y: Sextet, z: Sextet)
    ensures OctetBits(Front(w, x)) + OctetBits(Middle(x, y)) + OctetBits(Back(y, z))
            == SextetBits(w) + SextetBits(x) + SextetBits(y) + SextetBits(z)
  {
    FrontBits(w, x);
    MiddleBits(x, y);
    BackBits(y, z);
  }

  lemma TwoSextetBits(w: Sextet, x: Sextet)
    ensures ByteString([Front(w, x)]) <= SextetString([w, x])
  {
    FrontBits(w, x);
    UnfoldBytes(Front(w, x), []);
    UnfoldSextets(x, []);
    UnfoldSextets(w, [x]);
    assert [w, x] == [w] + [x] && [x] == [x] + [] && [Front(w, x)] == [Front(w, x)] + [];
    DropsRest(SextetBits(w), SextetBits(x));
  }

  lemma DropsRest<T>(a: seq<T>, b: seq<T>)
    requires |b| >= 2
    ensures a + b[..2] + [] <= a + (b + [])
  {
  }

  lemma ThreeSextetBits(w: Sextet, x: Sextet, y: Sextet)
    ensures ByteString([Front(w, x), Middle(x, y)]) <= SextetString([w, x, y])
  {
    FrontBits(w, x);
    MiddleBits(x, y);
    UnfoldBytes(Middle(x, y), []);
    UnfoldBytes(Front(w, x), [Middle(x, y)]);
    UnfoldSextets(y, []);
    UnfoldSextets(x, [y]);
    UnfoldSextets(w, [x] + [y]);
    assert [w, x, y] == [w] + ([x] + [y]) && [y] == [y] + [];
    assert [Front(w, x), Middle(x, y)] == [Front(w, x)] + [Middle(x, y)] && [Middle(x, y)] == [Middle(x, y)] + [];
    DropsRestOfLast(SextetBits(w), SextetBits(x), SextetBits(y));
  }

  lemma DropsRestOfLast<T>(a: seq<T>, b: seq<T>, c: seq<T>)
    requires |b| >= 2 && |c| >= 4
    ensures a + b[..2] + (b[2..] + c[..4] + []) <= a + (b + (c + []))
  {
  }

  lemma QuadKeepsBits(w: Sextet, x: Sextet, y: Sextet, z: Sextet, rest: seq<Sextet>, b: seq<Byte>)
    requires ByteString(b) <= SextetString(rest)
    ensures ByteString([Front(w, x), Middle(x, y), Back(y, z)] + b) <= SextetString([w, x, y, z] + rest)
  {
    FourSextets(w, x, y, z, rest);
    QuadBits(w, x, y, z);
    ThreeBytes(Front(w, x), Middle(x, y), Back(y, z), b);
    TwoGroups(SextetBits(w) + SextetBits(x) + SextetBits(y), SextetBits(z), SextetString(rest));
    PrefixAfter(SextetBits(w) + SextetBits(x) + SextetBits(y) + SextetBits(z), ByteString(b), SextetString(rest));
  }

  /** The bytes of a decoding carry the bits of the sextets, in order; what does not fill a byte is dropped. */
  lemma {:induction false} BytesKeepBits(v: seq<Sextet>)
    requires |v| % 4 != 1
    ensures ByteString(Bytes(v)) <= SextetString(v)
  {
    if |v| >= 4 {
      var rest := v[4..];
      BytesKeepBits(rest);
      QuadKeepsBits(v[0], v[1], v[2], v[3], rest, Bytes(rest));
      assert v == [v[0], v[1], v[2], v[3]] + rest;
    } else {
      ShortKeepsBits(v);
    }
  }

  lemma ShortKeepsBits(v: seq<Sextet>)
    requires |v| < 4 && |v| != 1
    ensures ByteString(Bytes(v)) <= SextetString(v)
  {
    if |v| == 3 {
      assert v == [v[0], v[1], v[2]];
      ThreeSextetBits(v[0], v[1], v[2]);
    } else if |v| == 2 {
      assert v == [v[0], v[1]];
      TwoSextetBits(v[0], v[1]);
    }
  }

  lemma ThreeQuarters(n: nat)
    ensures 3 * (n + 4) / 4 == 3 * n / 4 + 3
  {
  }

  lemma {:induction false} BytesAreThreeQuarters(v: seq<Sextet>)
    requires |v| % 4 != 1
    ensures |Bytes(v)| == 3 * |v| / 4
  {
    if |v| >= 4 {
      BytesAreThreeQuarters(v[4..]);
      ThreeQuarters(|v[4..]|);
    }
  }

  lemma PrefixAfter(a: seq<nat>, b: seq<nat>, c: seq<nat>)
    requires b <= c
    ensures a + b <= a + c
  {
  }

  // ---------------------------------------------------------------- which strings decode, and to what

  /** A symbol of either alphabet. */
  predicate AnySymbol(c: char) {
    UrlSafe(c) || c == '+' || c == '/'
  }

  function ToStandard(s: string): string {
    Replace(Replace(s, '-', '+'), '_', '/')
  }

  lemma StandardSymbol(c: char)
    ensures var d := if c == '-' then '+' else if c == '_' then '/' else c;
            && (d == '=' <==> c == '=') && (AnySymbol(c) <==> ValueOf(d).Some?)
            && (AnySymbol(c) ==> ValueOf(d) == Some(UrlValue(c)))
  {
  }

  lemma StandardAt(s: string, i: nat)
    requires i < |s|
    ensures |ToStandard(s)| == |s|
    ensures ToStandard(s)[i] == '=' <==> s[i] == '='
    ensures AnySymbol(s[i]) <==> ValueOf(ToStandard(s)[i]).Some?
    ensures AnySymbol(s[i]) ==> ValueOf(ToStandard(s)[i]) == Some(UrlValue(s[i]))
  {
    StandardSymbol(s[i]);
  }

  predicate AllSymbols(s: string) {
    forall i :: 0 <= i < |s| ==> AnySymbol(s[i])
  }

  predicate AllEquals(s: string) {
    forall i :: 0 <= i < |s| ==> s[i] == '='
  }

  /** k is none of the padding of n symbols, all of it, or one of two. */
  predicate TailFits(n: nat, k: nat) {
    k <= 2 && (k == 0 ==> n % 4 != 1) && (k == 1 ==> n % 4 == 2 || n % 4 == 3) && (k == 2 ==> n % 4 == 2)
  }

  /** Symbols, then as much of their padding as there is: none of it, all of it, or one of two. */
  predicate PaddedBody(body: string, tail: string) {
    AllSymbols(body) && AllEquals(tail) && TailFits(|body|, |tail|)
  }

  lemma StandardBody(body: string)
    requires AllSymbols(body)
    ensures InAlphabet(ToStandard(body)) && Values(ToStandard(body)) == UrlValues(body) && !EndsInEquals(ToStandard(body))
  {
    forall i | 0 <= i < |body|
      ensures ValueOf(ToStandard(body)[i]) == Some(UrlValue(body[i])) && ToStandard(body)[i] != '='
    {
      StandardAt(body, i);
    }
  }

  lemma StandardConcat(a: string, b: string)
    ensures ToStandard(a + b) == ToStandard(a) + ToStandard(b)
  {
  }

  lemma EqualsAreOneString(s: string)
    requires AllEquals(s)
    ensures s == Equals(|s|)
  {
  }

  lemma EqualsAreStandard(s: string)
    requires AllEquals(s)
    ensures ToStandard(s) == s
  {
  }

  /** What a length lacks to a multiple of four. */
  function Lacking(n: nat): nat {
    if n % 4 == 0 then 0 else 4 - n % 4
  }

  lemma PaddingIsEquals(n: nat)
    ensures Padding(n) == Equals(Lacking(n))
  {
    PaddingCompletes(n);
  }

  /** The same over the standard alphabet. */
  predicate StandardPadded(a: string, tail: string) {
    InAlphabet(a) && !EndsInEquals(a) && AllEquals(tail) && TailFits(|a|, |tail|)
  }

  lemma StandardForm(body: string, tail: string) returns (a: string)
    requires PaddedBody(body, tail)
    ensures StandardPadded(a, tail) && ToStandard(body + tail) == a + tail && |a| == |body| && Values(a) == UrlValues(body)
  {
    a := ToStandard(body);
    StandardConcat(body, tail);
    EqualsAreStandard(tail);
    StandardBody(body);
  }

  /** What such a string decodes to. */
  lemma DecodeOfBody(body: string, tail: string)
    requires PaddedBody(body, tail)
    ensures Decode(body + tail) == Some(Bytes(UrlValues(body)))
  {
    var a := StandardForm(body, tail);
    AtobOfPadded(a, tail, |body + tail|);
    DecodeUnfolds(body + tail, a + tail, |body + tail|);
  }

  lemma FitsNotAlone(n: nat, k: nat)
    requires TailFits(n, k)
    ensures n % 4 != 1
  {
  }

  lemma AtobOfPadded(a: string, tail: string, n: nat)
    requires StandardPadded(a, tail) && n == |a| + |tail|
    ensures Atob(a + tail + Padding(n)) == Some(Bytes(Values(a)))
  {
    EqualsAreOneString(tail);
    FitsNotAlone(|a|, |tail|);
    UnpadOfTail(a, tail, |tail|, |a|);
    AtobOfUnpadded(a + tail + Padding(n), a);
  }

  lemma UnpadOfTail(a: string, tail: string, k: nat, n: nat)
    requires !EndsInEquals(a) && n == |a| && TailFits(n, k) && tail == Equals(k)
    ensures Unpad(a + tail + Padding(n + k)) == a
  {
    FitsNotAlone(n, k);
    PaddedTail(a, tail, k, n);
    UnpadUndoesPadding(a);
  }

  lemma PaddedTail(a: string, tail: string, k: nat, n: nat)
    requires TailFits(n, k) && tail == Equals(k)
    ensures a + tail + Padding(n + k) == a + Padding(n)
  {
    TailCompletes(n, k);
    JoinTail(a, tail, Padding(n + k), Padding(n));
  }

  lemma JoinTail(a: string, tail: string, p: string, q: string)
    requires tail + p == q
    ensures a + tail + p == a + q
  {
    Regroup(a, tail, p);
  }

  lemma DecodeUnfolds(value: string, a: string, n: nat)
    requires ToStandard(value) == a && n == |value|
    ensures Decode(value) == Atob(a + Padding(n))
  {
  }

  lemma AtobOfUnpadded(t: string, a: string)
    requires Unpad(t) == a && InAlphabet(a) && |a| % 4 != 1
    ensures Atob(t) == Some(Bytes(Values(a)))
  {
  }

  lemma SliceMoves(n: nat, k: nat)
    requires TailFits(n, k)
    ensures (n + k + 3) % 4 == (n + 3) % 4 + k
  {
  }

  lemma SliceSplits(i: nat, k: nat)
    requires i + k <= 3
    ensures Equals(k) + "==="[i + k..] == "==="[i..]
  {
  }

  lemma TailCompletes(n: nat, k: nat)
    requires TailFits(n, k)
    ensures Equals(k) + Padding(n + k) == Padding(n)
  {
    SliceMoves(n, k);
    SliceSplits((n + 3) % 4, k);
  }

  lemma Regroup(a: string, b: string, c: string)
    ensures a + b + c == a + (b + c)
  {
  }

  lemma UnpadLeaves(t: string)
    ensures Unpad(t) <= t && |t| - |Unpad(t)| <= 2 && AllEquals(t[|Unpad(t)|..])
    ensures Unpad(t) != t ==> |t| % 4 == 0
  {
  }

  /** A string decodes exactly when it is symbols and a part of their padding. */
  lemma DecodesExactly(value: string)
    ensures Decode(value).Some? <==> exists n :: 0 <= n <= |value| && PaddedBody(value[..n], value[n..])
  {
    if n :| 0 <= n <= |value| && PaddedBody(value[..n], value[n..]) {
      DecodeOfBody(value[..n], value[n..]);
      assert value == value[..n] + value[n..];
    }
    if Decode(value).Some? {
      DecodedIsPadded(value);
    }
  }

  lemma NoEqualsInAlphabet(s: string)
    requires InAlphabet(s)
    ensures forall i :: 0 <= i < |s| ==> s[i] != '='
  {
    forall i | 0 <= i < |s| ensures s[i] != '=' {
      assert ValueOf(s[i]).Some?;
    }
  }

  lemma PrefixReachesPadding(u: string, s: string, p: string)
    requires u <= s + p && AllEquals(p)
    ensures |u| <= |s| || u[|s|] == '='
  {
    assert |u| > |s| ==> u[|s|] == (s + p)[|s|] == p[0];
  }

  /** What is left of a padded text after unpadding lies within the text, and the rest of the text is '='. */
  lemma UnpaddedWithin(s: string, p: string)
    requires AllEquals(p) && InAlphabet(Unpad(s + p))
    ensures |Unpad(s + p)| <= |s| && Unpad(s + p) == s[..|Unpad(s + p)|] && AllEquals(s[|Unpad(s + p)|..])
    ensures |s + p| - |Unpad(s + p)| <= 2 && (Unpad(s + p) != s + p ==> |s + p| % 4 == 0)
  {
    var t := s + p;
    var n := |Unpad(t)|;
    UnpadLeaves(t);
    PrefixReachesPadding(Unpad(t), s, p);
    NoEqualsInAlphabet(Unpad(t));
    forall i | n <= i < |s| ensures s[i] == '=' {
      assert t[n..][i - n] == t[i];
    }
  }

  lemma DecodedIsPadded(value: string)
    requires Decode(value).Some?
    ensures exists n :: 0 <= n <= |value| && PaddedBody(value[..n], value[n..])
  {
    var base64 := ToStandard(value);
    PaddingIsEquals(|value|);
    UnpaddedWithin(base64, Padding(|value|));
    var n := |Unpad(base64 + Padding(|value|))|;
    forall i | 0 <= i < n ensures AnySymbol(value[i]) {
      StandardAt(value, i);
      assert ValueOf(base64[..n][i]).Some?;
    }
    forall i | n <= i < |value| ensures value[i] == '=' {
      StandardAt(value, i);
      assert base64[n..][i - n] == '=';
    }
    LengthsFit(n, |value|);
    assert PaddedBody(value[..n], value[n..]);
  }

  lemma LengthsFit(n: nat, m: nat)
    requires n <= m <= m + Lacking(m) <= n + 2 && n % 4 != 1
    requires n < m + Lacking(m) ==> (m + Lacking(m)) % 4 == 0
    ensures m - n <= 2 && (m == n + 1 ==> n % 4 == 2 || n % 4 == 3) && (m == n + 2 ==> n % 4 == 2)
  {
    var q, r := n / 4, n % 4;
    if m == n + 1 && r == 0 {
      DivideByFour(m, q, 1);
    } else if m == n + 2 && r == 0 {
      DivideByFour(m, q, 2);
    } else if m == n + 2 && r == 3 {
      DivideByFour(m, q + 1, 1);
    }
  }

  lemma ValueReadsBack(c: char)
    requires AnySymbol(c)
    ensures UrlSymbol(UrlValue(c)) == if c == '+' then '-' else if c == '/' then '_' else c
  {
  }

  lemma ValueIsLetter(c: char)
    requires AnySymbol(c)
    ensures |URL_ALPHABET| == 64 && URL_ALPHABET[UrlValue(c)] == if c == '+' then '-' else if c == '/' then '_' else c
  {
    SymbolIsLetter(UrlValue(c));
    ValueReadsBack(c);
  }

  /** The bytes are the whole octets of the symbols' bits, each symbol being the alphabet's letter for its six. */
  lemma DecodeIsBits(body: string, tail: string) returns (v: seq<Sextet>)
    requires PaddedBody(body, tail)
    ensures |v| == |body| && |URL_ALPHABET| == 64 && forall i :: 0 <= i < |v| ==>
              URL_ALPHABET[v[i]] == if body[i] == '+' then '-' else if body[i] == '/' then '_' else body[i]
    ensures Decode(body + tail).Some? && |Decode(body + tail).value| == 3 * |body| / 4
    ensures ByteString(Decode(body + tail).value) <= SextetString(v)
  {
    v := UrlValues(body);
    DecodeOfBody(body, tail);
    FitsNotAlone(|body|, |tail|);
    BytesKeepBits(v);
    BytesAreThreeQuarters(v);
    forall i | 0 <= i < |v|
      ensures |URL_ALPHABET| == 64 && URL_ALPHABET[v[i]] == if body[i] == '+' then '-' else if body[i] == '/' then '_' else body[i]
    {
      ValueIsLetter(body[i]);
    }
    SymbolIsLetter(0);
  }
}
