/** clean_name: the sanitiser for user-supplied passkey names, over arbitrary code point sequences. */
module PasskeyNames {
  import opened Options

  type CodePoint = c: int | 0 <= c < 0x110000

  type Text = seq<CodePoint>

  const SPACE: CodePoint := 0x20
  const ZWJ: CodePoint := 0x200D
  const MAX_NAME: nat := 100

  /** The Unicode tables: str.split()'s whitespace, and the general categories stripped from names. */
  datatype Unicode = Unicode(space: CodePoint -> bool, stripped: CodePoint -> bool) {
    predicate Valid() {
      space(SPACE) && !stripped(SPACE) && !space(ZWJ)
    }

    predicate Kept(c: CodePoint) {
      c == ZWJ || !stripped(c)
    }
  }

  // ---------------------------------------------------------------- Python's string operations

  /** Length of the run of non-whitespace at the front. */
  function WordLength(u: Unicode, s: Text): (n: nat)
    ensures n <= |s| && (n < |s| ==> u.space(s[n])) && forall k :: 0 <= k < n ==> !u.space(s[k])
  {
    if s == [] || u.space(s[0]) then 0 else 1 + WordLength(u, s[1..])
  }

  /** s.split() */
  function Split(u: Unicode, s: Text): (words: seq<Text>)
    decreases |s|
  {
    if s == [] then []
    else if u.space(s[0]) then Split(u, s[1..])
    else
      var n := WordLength(u, s);
      [s[..n]] + Split(u, s[n..])
  }

  /** ' '.join(words) */
  function Join(words: seq<Text>): Text {
    if words == [] then []
    else if |words| == 1 then words[0]
    else words[0] + [SPACE] + Join(words[1..])
  }

  function Collapse(u: Unicode, s: Text): Text {
    Join(Split(u, s))
  }

  function Filter(keep: CodePoint -> bool, s: Text): Text {
    if s == [] then [] else (if keep(s[0]) then [s[0]] else []) + Filter(keep, s[1..])
  }

  function StripLeft(u: Unicode, s: Text): Text {
    if s != [] && u.space(s[0]) then StripLeft(u, s[1..]) else s
  }

  function StripRight(u: Unicode, s: Text): Text {
    if s != [] && u.space(s[|s| - 1]) then StripRight(u, s[..|s| - 1]) else s
  }

  /** s.strip() */
  function Strip(u: Unicode, s: Text): Text {
    StripRight(u, StripLeft(u, s))
  }

  function Truncate(s: Text): Text {
    if |s| <= MAX_NAME then s else s[..MAX_NAME]
  }

  /** The name before the visibility check. */
  function Cleaned(u: Unicode, name: Text): Text {
    Strip(u, Truncate(Collapse(u, Filter((c: CodePoint) => u.Kept(c), Collapse(u, name)))))
  }

  /** None is a value that is not a string. */
  function CleanName(u: Unicode, name: Option<Text>): Text {
    match name
    case None => []
    case Some(text) =>
      var cleaned := Cleaned(u, text);
      if Strip(u, Filter((c: CodePoint) => c != ZWJ, cleaned)) == [] then [] else cleaned
  }

  // ---------------------------------------------------------------- tidy text

  /** Only plain single spaces, and none at either end. */
  predicate Tidy(u: Unicode, s: Text) {
    && (forall k :: 0 <= k < |s| && u.space(s[k]) ==> s[k] == SPACE && 0 < k < |s| - 1 && !u.space(s[k + 1]))
  }

  predicate Word(u: Unicode, w: Text) {
    w != [] && forall k :: 0 <= k < |w| ==> !u.space(w[k])
  }

  lemma {:induction false} SplitGivesWords(u: Unicode, s: Text)
    ensures forall k :: 0 <= k < |Split(u, s)| ==> Word(u, Split(u, s)[k])
    decreases |s|
  {
    if s != [] {
      if u.space(s[0]) {
        SplitGivesWords(u, s[1..]);
      } else {
        SplitGivesWords(u, s[WordLength(u, s)..]);
      }
    }
  }

  lemma {:induction false} JoinIsTidy(u: Unicode, words: seq<Text>)
    requires u.Valid() && forall k :: 0 <= k < |words| ==> Word(u, words[k])
    ensures Tidy(u, Join(words)) && (words != [] ==> Join(words) != [] && !u.space(Join(words)[0]))
  {
    if |words| > 1 {
      JoinIsTidy(u, words[1..]);
      var w, rest := words[0], Join(words[1..]);
      var joined := w + [SPACE] + rest;
      forall k | 0 <= k < |joined| && u.space(joined[k])
        ensures joined[k] == SPACE && 0 < k < |joined| - 1 && !u.space(joined[k + 1])
      {
        if k > |w| {
          assert joined[k] == rest[k - |w| - 1];
          assert joined[k + 1] == rest[k - |w|];
        } else {
          assert joined[|w| + 1] == rest[0];
        }
      }
    }
  }

  lemma OneWordSplits(u: Unicode, s: Text)
    requires s != [] && WordLength(u, s) == |s|
    ensures Split(u, s) == [s]
  {
    assert s[..|s|] == s && s[|s|..] == [];
  }

  /** Past the first word and its space, tidy text is tidy and starts with a word. */
  lemma TidyRest(u: Unicode, s: Text, n: nat)
    requires u.Valid() && Tidy(u, s) && n < |s| && u.space(s[n])
    ensures s[n] == SPACE && n + 1 < |s| && Tidy(u, s[n + 1..]) && !u.space(s[n + 1])
  {
    var rest := s[n + 1..];
    forall k | 0 <= k < |rest| && u.space(rest[k])
      ensures rest[k] == SPACE && 0 < k < |rest| - 1 && !u.space(rest[k + 1])
    {
      assert rest[k] == s[n + 1 + k];
      assert rest[k + 1] == s[n + 2 + k];
    }
  }

  lemma FirstWordSplits(u: Unicode, s: Text, n: nat)
    requires 0 < n < |s| && n == WordLength(u, s)
    ensures Split(u, s) == [s[..n]] + Split(u, s[n + 1..])
  {
    assert s[n..][1..] == s[n + 1..];
  }

  lemma JoinAfterFirst(word: Text, words: seq<Text>)
    requires words != []
    ensures Join([word] + words) == word + [SPACE] + Join(words)
  {
    assert ([word] + words)[1..] == words;
  }

  lemma WordBeforeCollapsed(u: Unicode, s: Text, n: nat)
    requires 0 < n < |s| - 1 && n == WordLength(u, s) && s[n] == SPACE && !u.space(s[n + 1])
    requires Collapse(u, s[n + 1..]) == s[n + 1..]
    ensures Collapse(u, s) == s
  {
    FirstWordSplits(u, s, n);
    assert s[n + 1..][0] == s[n + 1];
    JoinAfterFirst(s[..n], Split(u, s[n + 1..]));
    assert s == s[..n] + [SPACE] + s[n + 1..];
  }

  /** Tidy text is what its own words join to. */
  lemma {:induction false} TidyIsCollapsed(u: Unicode, s: Text)
    requires u.Valid() && Tidy(u, s)
    ensures Collapse(u, s) == s
  {
    if s != [] {
      var n := WordLength(u, s);
      assert n > 0;
      if n < |s| {
        TidyRest(u, s, n);
        TidyIsCollapsed(u, s[n + 1..]);
        WordBeforeCollapsed(u, s, n);
      } else {
        OneWordSplits(u, s);
      }
    }
  }

  lemma CollapseIsTidy(u: Unicode, s: Text)
    requires u.Valid()
    ensures Tidy(u, Collapse(u, s))
  {
    SplitGivesWords(u, s);
    JoinIsTidy(u, Split(u, s));
  }

  // ---------------------------------------------------------------- what each pass does to the text

  /** The text without its whitespace. */
  function Ink(u: Unicode, s: Text): Text {
    Filter((c: CodePoint) => !u.space(c), s)
  }

  lemma {:induction false} FilterConcat(keep: CodePoint -> bool, a: Text, b: Text)
    ensures Filter(keep, a + b) == Filter(keep, a) + Filter(keep, b)
  {
    if a == [] {
      assert a + b == b;
    } else {
      var one: Text := if keep(a[0]) then [a[0]] else [];
      FilterConcat(keep, a[1..], b);
      assert (a + b)[0] == a[0] && (a + b)[1..] == a[1..] + b;
      assert one + (Filter(keep, a[1..]) + Filter(keep, b)) == one + Filter(keep, a[1..]) + Filter(keep, b);
    }
  }

  lemma {:induction false} FilterAll(keep: CodePoint -> bool, s: Text)
    requires forall k :: 0 <= k < |s| ==> keep(s[k])
    ensures Filter(keep, s) == s
  {
    if s != [] {
      FilterAll(keep, s[1..]);
    }
  }

  lemma {:induction false} FilterKeeps(keep: CodePoint -> bool, s: Text)
    ensures forall c :: c in Filter(keep, s) <==> c in s && keep(c)
    ensures |Filter(keep, s)| <= |s|
  {
    if s != [] {
      FilterKeeps(keep, s[1..]);
    }
  }

  lemma {:induction false} FiltersCommute(f: CodePoint -> bool, g: CodePoint -> bool, s: Text)
    ensures Filter(f, Filter(g, s)) == Filter(g, Filter(f, s))
  {
    if s != [] {
      FiltersCommute(f, g, s[1..]);
      var one: Text := if g(s[0]) then [s[0]] else [];
      var other: Text := if f(s[0]) then [s[0]] else [];
      FilterConcat(f, one, Filter(g, s[1..]));
      FilterConcat(g, other, Filter(f, s[1..]));
    }
  }

  /** A word put before others, with a space between if there are any, adds its own ink. */
  lemma JoiningKeepsInk(u: Unicode, word: Text, words: seq<Text>)
    requires u.Valid()
    ensures Ink(u, Join([word] + words)) == Ink(u, word) + Ink(u, Join(words))
  {
    var ink := (c: CodePoint) => !u.space(c);
    assert ([word] + words)[1..] == words;
    if words == [] {
      assert Ink(u, word) + [] == Ink(u, word);
    } else {
      FilterConcat(ink, word + [SPACE], Join(words));
      FilterConcat(ink, word, [SPACE]);
      assert Filter(ink, [SPACE]) == [];
      assert Ink(u, word) + [] == Ink(u, word);
    }
  }

  lemma FirstWordLeaves(u: Unicode, s: Text, n: nat)
    requires 0 < n <= |s| && n == WordLength(u, s)
    ensures Split(u, s) == [s[..n]] + Split(u, s[n..])
  {
  }

  lemma {:induction false} SplitKeepsInk(u: Unicode, s: Text)
    requires u.Valid()
    ensures Ink(u, Collapse(u, s)) == Ink(u, s)
    decreases |s|
  {
    if s != [] && u.space(s[0]) {
      SplitKeepsInk(u, s[1..]);
    } else if s != [] {
      var n := WordLength(u, s);
      SplitKeepsInk(u, s[n..]);
      FirstWordLeaves(u, s, n);
      JoiningKeepsInk(u, s[..n], Split(u, s[n..]));
      FilterConcat((c: CodePoint) => !u.space(c), s[..n], s[n..]);
      assert s == s[..n] + s[n..];
    }
  }

  lemma {:induction false} StripRightKeepsInk(u: Unicode, s: Text)
    ensures Ink(u, StripRight(u, s)) == Ink(u, s)
    ensures StripRight(u, s) <= s && (StripRight(u, s) != [] ==> !u.space(StripRight(u, s)[|StripRight(u, s)| - 1]))
    decreases |s|
  {
    if s != [] && u.space(s[|s| - 1]) {
      var front := s[..|s| - 1];
      StripRightKeepsInk(u, front);
      FilterConcat((c: CodePoint) => !u.space(c), front, [s[|s| - 1]]);
      assert s == front + [s[|s| - 1]];
      assert Ink(u, [s[|s| - 1]]) == [];
    }
  }

  /** Cutting tidy text short and stripping it leaves tidy text. */
  lemma CutIsTidy(u: Unicode, s: Text)
    requires u.Valid() && Tidy(u, s)
    ensures Tidy(u, Strip(u, Truncate(s))) && |Strip(u, Truncate(s))| <= MAX_NAME
    ensures Strip(u, Truncate(s)) <= s && Ink(u, Strip(u, Truncate(s))) == Ink(u, Truncate(s))
  {
    var cut := Truncate(s);
    assert cut == [] || !u.space(cut[0]);
    assert StripLeft(u, cut) == cut;
    StripRightKeepsInk(u, cut);
    var r := StripRight(u, cut);
    forall k | 0 <= k < |r| && u.space(r[k])
      ensures r[k] == SPACE && 0 < k < |r| - 1 && !u.space(r[k + 1])
    {
      assert r[k] == s[k] && (k + 1 < |r| ==> r[k + 1] == s[k + 1]);
    }
  }

  // ---------------------------------------------------------------- the results

  predicate Presentable(u: Unicode, s: Text) {
    && |s| <= MAX_NAME && Tidy(u, s)
    && (forall c :: c in s ==> u.Kept(c))
    && (s != [] ==> exists c :: c in s && c != ZWJ && !u.space(c))
  }

  lemma CollapsedCharacters(u: Unicode, s: Text)
    requires u.Valid() && forall c :: c in s ==> u.Kept(c)
    ensures forall c :: c in Collapse(u, s) ==> u.Kept(c)
  {
    CollapseIsTidy(u, s);
    SplitKeepsInk(u, s);
    var ink := (c: CodePoint) => !u.space(c);
    FilterKeeps(ink, Collapse(u, s));
    FilterKeeps(ink, s);
    forall c | c in Collapse(u, s) ensures u.Kept(c) {
      if !u.space(c) {
        assert c in Ink(u, Collapse(u, s));
      }
    }
  }

  /** Whether a tidy cleaned text shows anything. */
  lemma VisibleExactly(u: Unicode, s: Text)
    ensures Strip(u, Filter((c: CodePoint) => c != ZWJ, s)) == [] <==> forall c :: c in s ==> c == ZWJ || u.space(c)
  {
    var seen := Filter((c: CodePoint) => c != ZWJ, s);
    FilterKeeps((c: CodePoint) => c != ZWJ, s);
    StripEmptiesBlanks(u, seen);
    assert forall c :: c in seen <==> c in s && c != ZWJ;
  }

  lemma StripEmptiesBlanks(u: Unicode, s: Text)
    ensures Strip(u, s) == [] <==> forall c :: c in s ==> u.space(c)
  {
    StripLeftEmptiesBlanks(u, s);
    StripRightKeepsInk(u, StripLeft(u, s));
    FilterKeeps((c: CodePoint) => !u.space(c), StripLeft(u, s));
    FilterKeeps((c: CodePoint) => !u.space(c), Strip(u, s));
    if StripLeft(u, s) != [] {
      assert StripLeft(u, s)[0] in Ink(u, StripLeft(u, s));
    }
  }

  lemma {:induction false} StripLeftEmptiesBlanks(u: Unicode, s: Text)
    ensures StripLeft(u, s) == [] <==> forall c :: c in s ==> u.space(c)
    ensures StripLeft(u, s) != [] ==> !u.space(StripLeft(u, s)[0])
    ensures forall c :: c in StripLeft(u, s) ==> c in s
  {
    if s != [] && u.space(s[0]) {
      StripLeftEmptiesBlanks(u, s[1..]);
    }
  }

  lemma CleanedIsTidy(u: Unicode, text: Text)
    requires u.Valid()
    ensures var filtered := Filter((c: CodePoint) => u.Kept(c), Collapse(u, text));
            && Tidy(u, Cleaned(u, text)) && |Cleaned(u, text)| <= MAX_NAME
            && (forall c :: c in Cleaned(u, text) ==> u.Kept(c))
            && Ink(u, Cleaned(u, text)) == Ink(u, Truncate(Collapse(u, filtered)))
  {
    var filtered := Filter((c: CodePoint) => u.Kept(c), Collapse(u, text));
    FilterKeeps((c: CodePoint) => u.Kept(c), Collapse(u, text));
    CollapseIsTidy(u, filtered);
    CollapsedCharacters(u, filtered);
    CutIsTidy(u, Collapse(u, filtered));
  }

  /** A cleaned name is at most 100 code points, has no stripped character, single interior spaces and
      none at the ends, and is empty or shows something. */
  lemma CleanNameIsPresentable(u: Unicode, name: Option<Text>)
    requires u.Valid()
    ensures Presentable(u, CleanName(u, name))
  {
    if name.Some? {
      CleanedIsTidy(u, name.value);
      VisibleExactly(u, Cleaned(u, name.value));
    }
  }

  /** Text that is already presentable is left exactly as it is, and nothing else is. */
  lemma CleanNameFixesExactlyPresentable(u: Unicode, s: Text)
    requires u.Valid()
    ensures CleanName(u, Some(s)) == s <==> Presentable(u, s)
  {
    CleanNameIsPresentable(u, Some(s));
    if Presentable(u, s) {
      TidyIsCollapsed(u, s);
      FilterAll((c: CodePoint) => u.Kept(c), s);
      assert StripLeft(u, s) == s && StripRight(u, s) == s;
      VisibleExactly(u, s);
    }
  }

  /** Cleaning twice is cleaning once, on every string. */
  lemma CleanNameIsIdempotent(u: Unicode, name: Option<Text>)
    requires u.Valid()
    ensures CleanName(u, Some(CleanName(u, name))) == CleanName(u, name)
  {
    CleanNameIsPresentable(u, name);
    CleanNameFixesExactlyPresentable(u, CleanName(u, name));
  }

  /** The allowed characters, collapsed, need no cut. */
  predicate Fits(u: Unicode, text: Text) {
    |Collapse(u, Filter((c: CodePoint) => u.Kept(c), Collapse(u, text)))| <= MAX_NAME
  }

  lemma CollapsedInk(u: Unicode, text: Text)
    requires u.Valid()
    ensures var kept := (c: CodePoint) => u.Kept(c);
            Ink(u, Collapse(u, Filter(kept, Collapse(u, text)))) == Filter(kept, Ink(u, text))
  {
    var kept, ink := (c: CodePoint) => u.Kept(c), (c: CodePoint) => !u.space(c);
    SplitKeepsInk(u, Filter(kept, Collapse(u, text)));
    FiltersCommute(ink, kept, Collapse(u, text));
    SplitKeepsInk(u, text);
  }

  /** Cutting tidy text loses ink, exactly if it cuts. */
  lemma CutLosesInk(u: Unicode, s: Text)
    requires u.Valid() && Tidy(u, s)
    ensures Ink(u, Truncate(s)) <= Ink(u, s)
    ensures Ink(u, Truncate(s)) == Ink(u, s) <==> |s| <= MAX_NAME
  {
    var ink := (c: CodePoint) => !u.space(c);
    var tail := s[|Truncate(s)|..];
    FilterConcat(ink, Truncate(s), tail);
    assert s == Truncate(s) + tail;
    if |s| > MAX_NAME {
      FilterKeeps(ink, tail);
      assert tail[|tail| - 1] == s[|s| - 1] && !u.space(s[|s| - 1]);
      assert tail[|tail| - 1] in Filter(ink, tail);
    } else {
      assert Truncate(s) == s;
    }
  }

  /** Apart from spaces, a non-empty cleaned name is a prefix of the name's allowed characters, in order, and
      all of them exactly if the collapsed text fits. */
  lemma CleanNameKeepsInk(u: Unicode, text: Text)
    requires u.Valid() && CleanName(u, Some(text)) != []
    ensures var allowed := Filter((c: CodePoint) => u.Kept(c), Ink(u, text));
            && Ink(u, CleanName(u, Some(text))) <= allowed
            && (Ink(u, CleanName(u, Some(text))) == allowed <==> Fits(u, text))
  {
    var whole := Collapse(u, Filter((c: CodePoint) => u.Kept(c), Collapse(u, text)));
    CollapsedInk(u, text);
    CollapseIsTidy(u, Filter((c: CodePoint) => u.Kept(c), Collapse(u, text)));
    CutIsTidy(u, whole);
    CutLosesInk(u, whole);
  }

  lemma ShortTextFits(u: Unicode, text: Text)
    requires |text| <= MAX_NAME
    ensures Fits(u, text)
  {
    var kept := (c: CodePoint) => u.Kept(c);
    FilterKeeps(kept, Collapse(u, text));
    CollapseShortens(u, Filter(kept, Collapse(u, text)));
    CollapseShortens(u, text);
  }

  lemma {:induction false} CollapseShortens(u: Unicode, s: Text)
    ensures |Collapse(u, s)| <= |s|
    decreases |s|
  {
    if s != [] && u.space(s[0]) {
      CollapseShortens(u, s[1..]);
    } else if s != [] {
      var n := WordLength(u, s);
      CollapseShortens(u, s[n..]);
      if n < |s| {
        assert Split(u, s[n..]) == Split(u, s[n..][1..]);
        CollapseShortens(u, s[n..][1..]);
      }
      assert Split(u, s)[1..] == Split(u, s[n..]);
    }
  }

  // ---------------------------------------------------------------- the name in one pass

  /** One pass over the text: each character that is not whitespace, and when `dropping` is allowed in a name,
      with a space before it if one was emitted earlier and whitespace has been seen since. */
  function OnePass(u: Unicode, dropping: bool, s: Text, started: bool, gap: bool): Text {
    if s == [] then []
    else if u.space(s[0]) then OnePass(u, dropping, s[1..], started, true)
    else if dropping && s[0] != ZWJ && u.stripped(s[0]) then OnePass(u, dropping, s[1..], started, gap)
    else (if started && gap then [SPACE, s[0]] else [s[0]]) + OnePass(u, dropping, s[1..], true, false)
  }

  lemma {:induction false} WordPasses(u: Unicode, s: Text, n: nat)
    requires n <= |s| && forall k :: 0 <= k < n ==> !u.space(s[k])
    ensures OnePass(u, false, s, true, false) == s[..n] + OnePass(u, false, s[n..], true, false)
  {
    if n == 0 {
      assert s[..0] == [] && s[0..] == s;
    } else {
      WordPasses(u, s[1..], n - 1);
      assert s[1..][n - 1..] == s[n..] && s[..n] == [s[0]] + s[1..][..n - 1];
      assert [s[0]] + (s[1..][..n - 1] + OnePass(u, false, s[n..], true, false)) == s[..n] + OnePass(u, false, s[n..], true, false);
    }
  }

  lemma AfterWord(u: Unicode, s: Text)
    requires s == [] || u.space(s[0])
    ensures OnePass(u, false, s, true, false) == OnePass(u, false, s, true, true)
  {
  }

  lemma EmittedWord(spaced: bool, c: CodePoint, word: Text, rest: Text)
    ensures (if spaced then [SPACE, c] else [c]) + (word + rest) == (if spaced then [SPACE] else []) + ([c] + word) + rest
  {
  }

  lemma WordThenPass(u: Unicode, s: Text, started: bool, gap: bool)
    requires s != [] && !u.space(s[0])
    ensures var n := WordLength(u, s);
            OnePass(u, false, s, started, gap) ==
              (if started && gap then [SPACE] else []) + s[..n] + OnePass(u, false, s[n..], true, true)
  {
    var n := WordLength(u, s);
    var word := s[1..][..n - 1];
    WordPasses(u, s[1..], n - 1);
    assert s[1..][n - 1..] == s[n..] && s[..n] == [s[0]] + word;
    AfterWord(u, s[n..]);
    EmittedWord(started && gap, s[0], word, OnePass(u, false, s[n..], true, true));
  }

  lemma FirstWordIsOnePass(u: Unicode, s: Text, gap: bool)
    requires s != [] && !u.space(s[0])
    requires var rest := s[WordLength(u, s)..];
             OnePass(u, false, rest, true, true) == if Split(u, rest) == [] then [] else [SPACE] + Collapse(u, rest)
    ensures OnePass(u, false, s, false, gap) == Collapse(u, s)
    ensures OnePass(u, false, s, true, true) == [SPACE] + Collapse(u, s) && Split(u, s) != []
  {
    var n := WordLength(u, s);
    var words := Split(u, s[n..]);
    FirstWordLeaves(u, s, n);
    JoinFirst(s[..n], words);
    WordThenPass(u, s, false, gap);
    WordThenPass(u, s, true, true);
    EmptyFirst(s[..n], OnePass(u, false, s[n..], true, true));
  }

  lemma EmptyFirst(a: Text, b: Text)
    ensures [] + a + b == a + b && [SPACE] + a + b == [SPACE] + (a + b)
  {
  }

  /** Splitting at whitespace and joining with spaces is one pass that drops nothing. */
  lemma {:induction false} CollapseIsOnePass(u: Unicode, s: Text, gap: bool)
    ensures OnePass(u, false, s, false, gap) == Collapse(u, s)
    ensures OnePass(u, false, s, true, true) == if Split(u, s) == [] then [] else [SPACE] + Collapse(u, s)
    decreases |s|
  {
    if s != [] && u.space(s[0]) {
      CollapseIsOnePass(u, s[1..], true);
    } else if s != [] {
      CollapseIsOnePass(u, s[WordLength(u, s)..], true);
      FirstWordIsOnePass(u, s, gap);
    }
  }

  lemma JoinFirst(word: Text, words: seq<Text>)
    ensures Join([word] + words) == word + if words == [] then [] else [SPACE] + Join(words)
  {
    assert ([word] + words)[1..] == words;
  }

  lemma PassSpace(u: Unicode, s: Text, started: bool, gap: bool)
    requires u.space(SPACE)
    ensures OnePass(u, false, [SPACE] + s, started, gap) == OnePass(u, false, s, started, true)
  {
    assert ([SPACE] + s)[1..] == s;
  }

  lemma PassInk(u: Unicode, c: CodePoint, s: Text, started: bool, gap: bool)
    requires !u.space(c)
    ensures OnePass(u, false, [c] + s, started, gap) ==
              (if started && gap then [SPACE, c] else [c]) + OnePass(u, false, s, true, false)
  {
    assert ([c] + s)[1..] == s;
  }

  lemma FilterFirst(keep: CodePoint -> bool, c: CodePoint, s: Text)
    ensures Filter(keep, [c] + s) == if keep(c) then [c] + Filter(keep, s) else Filter(keep, s)
  {
    assert ([c] + s)[1..] == s;
    assert [] + Filter(keep, s) == Filter(keep, s);
  }

  lemma FilterEmitted(keep: CodePoint -> bool, c: CodePoint, s: Text, spaced: bool)
    requires keep(SPACE)
    ensures var kept: Text := if keep(c) then [c] + Filter(keep, s) else Filter(keep, s);
            Filter(keep, (if spaced then [SPACE, c] else [c]) + s) == if spaced then [SPACE] + kept else kept
  {
    FilterFirst(keep, c, s);
    if spaced {
      FilterFirst(keep, SPACE, [c] + s);
      assert [SPACE, c] + s == [SPACE] + ([c] + s);
    }
  }

  /** Filtering a pass that drops nothing and passing over that again is one pass that drops. */
  lemma {:induction false} TwoPassesAreOne(
      u: Unicode, keep: CodePoint -> bool, s: Text, started: bool, gap: bool, kept: bool, inner: bool, outer: bool)
    requires u.Valid() && (forall c :: keep(c) <==> u.Kept(c)) && (kept ==> started && (outer <==> inner || gap))
    ensures OnePass(u, false, Filter(keep, OnePass(u, false, s, started, gap)), kept, inner) == OnePass(u, true, s, kept, outer)
  {
    if s != [] && u.space(s[0]) {
      TwoPassesAreOne(u, keep, s[1..], started, true, kept, inner, true);
    } else if s != [] {
      var c, spaced, rest := s[0], started && gap, OnePass(u, false, s[1..], true, false);
      FilterEmitted(keep, c, rest, spaced);
      if keep(c) {
        TwoPassesAreOne(u, keep, s[1..], true, false, true, false, false);
        PassInk(u, c, Filter(keep, rest), kept, inner || spaced);
      } else {
        TwoPassesAreOne(u, keep, s[1..], true, false, kept, inner || spaced, outer);
      }
      PassSpace(u, if keep(c) then [c] + Filter(keep, rest) else Filter(keep, rest), kept, inner);
    }
  }

  /** Tidy text cut at 100 characters and stripped loses at most a space at the cut. */
  lemma CutExactly(u: Unicode, s: Text)
    requires u.Valid() && Tidy(u, s)
    ensures Strip(u, Truncate(s)) == if |s| <= 100 then s else if s[99] == SPACE then s[..99] else s[..100]
  {
    var cut := Truncate(s);
    assert StripLeft(u, cut) == cut;
    if |s| > 100 && u.space(s[99]) {
      assert !u.space(s[98]);
      assert cut[..99] == s[..99];
      assert StripRight(u, cut) == StripRight(u, cut[..99]) == cut[..99];
    }
  }

  /** A text's name: one pass over it, cut at 100 characters, and empty exactly if that shows nothing. */
  lemma CleanNameIsOnePass(u: Unicode, text: Text)
    requires u.Valid()
    ensures var whole := OnePass(u, true, text, false, false);
            var cut := if |whole| <= 100 then whole else if whole[99] == SPACE then whole[..99] else whole[..100];
            CleanName(u, Some(text)) == if exists c :: c in cut && c != ZWJ && !u.space(c) then cut else []
  {
    var keep := (c: CodePoint) => u.Kept(c);
    var filtered := Filter(keep, Collapse(u, text));
    CollapseIsOnePass(u, text, false);
    CollapseIsOnePass(u, filtered, false);
    TwoPassesAreOne(u, keep, text, false, false, false, false, false);
    CollapseIsTidy(u, filtered);
    CutExactly(u, Collapse(u, filtered));
    VisibleExactly(u, Cleaned(u, text));
  }
}
