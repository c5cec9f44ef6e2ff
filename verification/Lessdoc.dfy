/** The parser for docstrings in Less files: what it accepts, and what becomes of every token. Lines
    reach the model already matched against the token patterns. */
module Lessdoc {
  import opened Options

  /** Headings and names as the patterns capture them, headings trimmed. */
  datatype Token =
    | SectionHead(heading: string, customizable: bool)
    | SectionDoc(text: string)
    | SubSectionHead(heading: string)
    | VarDoc(text: string)
    | Assignment(name: string, value: string)

  datatype Variable = Variable(name: string, value: string, docstring: Option<string>)

  datatype SubSection = SubSection(heading: string, variables: seq<Variable>)

  datatype Section = Section(heading: string, customizable: bool, docstring: Option<string>, subsections: seq<SubSection>)

  // ---------------------------------------------------------------- the grammar, without pushback

  function VarSpec(ts: seq<Token>): (r: (Option<Variable>, seq<Token>))
    ensures |r.1| <= |ts| && (r.0.Some? ==> |r.1| < |ts|)
  {
    if ts != [] && ts[0].VarDoc? then
      if |ts| > 1 && ts[1].Assignment? then (Some(Variable(ts[1].name, ts[1].value, Some(ts[0].text))), ts[2..])
      else (None, ts[1..])
    else if ts != [] && ts[0].Assignment? then (Some(Variable(ts[0].name, ts[0].value, None)), ts[1..])
    else (None, ts)
  }

  function VarsSpec(ts: seq<Token>): (r: (seq<Variable>, seq<Token>))
    ensures |r.1| <= |ts|
    decreases |ts|
  {
    var (v, rest) := VarSpec(ts);
    match v
    case None => ([], rest)
    case Some(first) =>
      var (more, rest') := VarsSpec(rest);
      ([first] + more, rest')
  }

  /** The remaining subsections of a section; the first one may be implicit. */
  function SubSectionsSpec(ts: seq<Token>, first: bool): (r: (seq<SubSection>, seq<Token>))
    ensures |r.1| <= |ts|
    decreases |ts|, first
  {
    if ts != [] && ts[0].SubSectionHead? then
      var (vars, rest) := VarsSpec(ts[1..]);
      var (more, rest') := SubSectionsSpec(rest, false);
      ([SubSection(ts[0].heading, vars)] + more, rest')
    else if first then
      var (vars, rest) := VarsSpec(ts);
      var (more, rest') := SubSectionsSpec(rest, false);
      ([SubSection("", vars)] + more, rest')
    else ([], ts)
  }

  function DropLoneEmpty(subs: seq<SubSection>): seq<SubSection> {
    if |subs| == 1 && subs[0].heading == "" && subs[0].variables == [] then [] else subs
  }

  function BodySpec(ts: seq<Token>): (r: (seq<SubSection>, seq<Token>))
    ensures |r.1| <= |ts|
  {
    var (subs, rest) := SubSectionsSpec(ts, true);
    (DropLoneEmpty(subs), rest)
  }

  function DocSpec(ts: seq<Token>): (r: (Option<string>, seq<Token>))
    ensures |r.1| <= |ts|
  {
    if ts != [] && ts[0].SectionDoc? then (Some(ts[0].text), ts[1..]) else (None, ts)
  }

  /** The sections, or the token found where a section heading was expected. */
  function FileSpec(ts: seq<Token>): Result<seq<Section>, Token>
    decreases |ts|
  {
    if ts == [] then Ok([])
    else if !ts[0].SectionHead? then Err(ts[0])
    else
      var (doc, body) := DocSpec(ts[1..]);
      var (subs, rest) := BodySpec(body);
      match FileSpec(rest)
      case Err(t) => Err(t)
      case Ok(more) => Ok([Section(ts[0].heading, ts[0].customizable, doc, subs)] + more)
  }

  // ---------------------------------------------------------------- the tokenizer and parser

  /** A line that matches no pattern is None. */
  function Tokens(lines: seq<Option<Token>>): seq<Token> {
    if lines == [] then []
    else if lines[0].Some? then [lines[0].value] + Tokens(lines[1..]) else Tokens(lines[1..])
  }

  class Tokenizer {
    var lines: seq<Option<Token>>
    var next: Option<Option<Token>>    // Some(None) is a pushed-back end of file

    ghost predicate Valid()
      reads this
    {
      next == Some(None) ==> Tokens(lines) == []
    }

    /** The tokens still to come. */
    ghost function Rest(): seq<Token>
      reads this
    {
      if next.Some? && next.value.Some? then [next.value.value] + Tokens(lines) else Tokens(lines)
    }

    constructor (lines: seq<Option<Token>>)
      ensures Valid() && Rest() == Tokens(lines) && next == None
    {
      this.lines := lines;
      next := None;
    }

    /** True if it throws, for a second token pushed back. */
    method Unshift(token: Option<Token>) returns (threw: bool)
      requires Valid() && (token == None && next == None ==> Rest() == [])
      modifies this`next
      ensures threw == old(next).Some?
      ensures Valid() && (if threw then next == old(next) else Rest() == (if token.Some? then [token.value] else []) + old(Rest()))
    {
      if next.Some? {
        return true;
      }
      next := Some(token);
      return false;
    }

    /** Always leaves room to push one token back. */
    method Shift() returns (token: Option<Token>)
      requires Valid()
      modifies this
      ensures Valid() && next == None
      ensures token == None <==> old(Rest()) == []
      ensures old(Rest()) == (if token.Some? then [token.value] else []) + Rest()
    {
      if next.Some? {
        token := next.value;
        next := None;
        return;
      }
      while lines != []
        invariant next == None && Tokens(lines) == old(Rest())
        decreases |lines|
      {
        var line := lines[0];
        lines := lines[1..];
        if line.Some? {
          return line;
        }
      }
      return None;
    }
  }

  class Parser {
    const tokenizer: Tokenizer

    constructor (lines: seq<Option<Token>>)
      ensures fresh(tokenizer) && tokenizer.Valid() && tokenizer.Rest() == Tokens(lines)
    {
      tokenizer := new Tokenizer(lines);
    }

    method ParseVar() returns (v: Option<Variable>)
      requires tokenizer.Valid()
      modifies tokenizer
      ensures tokenizer.Valid() && (v, tokenizer.Rest()) == VarSpec(old(tokenizer.Rest()))
    {
      ghost var ts := tokenizer.Rest();
      var docstring := tokenizer.Shift();
      var text: Option<string> := None;
      if docstring.Some? && docstring.value.VarDoc? {
        text := Some(docstring.value.text);
        assert tokenizer.Rest() == ts[1..];
      } else {
        var twice := tokenizer.Unshift(docstring);
        assert !twice;
        assert tokenizer.Rest() == ts;
      }
      var variable := tokenizer.Shift();
      if variable.Some? && variable.value.Assignment? {
        assert tokenizer.Rest() == if text.Some? then ts[2..] else ts[1..];
        return Some(Variable(variable.value.name, variable.value.value, text));
      }
      var twice := tokenizer.Unshift(variable);
      assert !twice;
      return None;
    }

    method ParseVars() returns (variables: seq<Variable>)
      requires tokenizer.Valid()
      modifies tokenizer
      ensures tokenizer.Valid() && (variables, tokenizer.Rest()) == VarsSpec(old(tokenizer.Rest()))
    {
      ghost var ts := tokenizer.Rest();
      variables := [];
      while true
        invariant tokenizer.Valid()
        invariant VarsSpec(ts).0 == variables + VarsSpec(tokenizer.Rest()).0
        invariant VarsSpec(ts).1 == VarsSpec(tokenizer.Rest()).1
        decreases |tokenizer.Rest()|
      {
        ghost var left := tokenizer.Rest();
        var v := ParseVar();
        if v == None {
          assert VarsSpec(left) == ([], tokenizer.Rest());
          assert variables + [] == variables;
          return;
        }
        assert VarsSpec(left).0 == [v.value] + VarsSpec(tokenizer.Rest()).0;
        variables := variables + [v.value];
      }
    }

    method ParseSubSection() returns (sub: Option<SubSection>)
      requires tokenizer.Valid()
      modifies tokenizer
      ensures tokenizer.Valid()
      ensures var ts := old(tokenizer.Rest());
              if ts != [] && ts[0].SubSectionHead? then
                var (vars, rest) := VarsSpec(ts[1..]);
                sub == Some(SubSection(ts[0].heading, vars)) && tokenizer.Rest() == rest
              else sub == None && tokenizer.Rest() == ts
    {
      ghost var ts := tokenizer.Rest();
      var head := tokenizer.Shift();
      if head.Some? && head.value.SubSectionHead? {
        assert tokenizer.Rest() == ts[1..];
        var variables := ParseVars();
        return Some(SubSection(head.value.heading, variables));
      }
      var twice := tokenizer.Unshift(head);
      assert !twice;
      return None;
    }

    method ParseSubSections() returns (subs: seq<SubSection>)
      requires tokenizer.Valid()
      modifies tokenizer
      ensures tokenizer.Valid() && (subs, tokenizer.Rest()) == BodySpec(old(tokenizer.Rest()))
    {
      ghost var ts := tokenizer.Rest();
      subs := [];
      NoneYet(SubSectionsSpec(ts, true));
      while true
        invariant tokenizer.Valid()
        invariant SubSectionsSpec(ts, true) == Following(subs, SubSectionsSpec(tokenizer.Rest(), subs == []))
        decreases |tokenizer.Rest()|, subs == []
      {
        ghost var left := tokenizer.Rest();
        var sub := ParseSubSection();
        if sub == None {
          if |subs| == 0 {
            var variables := ParseVars();
            sub := Some(SubSection("", variables));
          } else {
            AllRead(subs, left);
            break;
          }
        }
        FollowTwice(subs, sub.value, SubSectionsSpec(tokenizer.Rest(), false));
        subs := subs + [sub.value];
      }
      if |subs| == 1 && subs[0].heading == "" && |subs[0].variables| == 0 {
        subs := [];
      }
    }

    /** A section, the end of the file (Ok(None)), or the token that is not a section heading. */
    method ParseSection() returns (r: Result<Option<Section>, Token>)
      requires tokenizer.Valid()
      modifies tokenizer
      ensures tokenizer.Valid()
      ensures var ts := old(tokenizer.Rest());
              if ts == [] then r == Ok(None) && tokenizer.Rest() == []
              else if !ts[0].SectionHead? then r == Err(ts[0])
              else
                var (doc, body) := DocSpec(ts[1..]);
                var (subs, rest) := BodySpec(body);
                r == Ok(Some(Section(ts[0].heading, ts[0].customizable, doc, subs))) && tokenizer.Rest() == rest
    {
      ghost var ts := tokenizer.Rest();
      var head := tokenizer.Shift();
      if head == None {
        return Ok(None);
      }
      if !head.value.SectionHead? {
        return Err(head.value);
      }
      assert tokenizer.Rest() == ts[1..];
      var docstring := tokenizer.Shift();
      var doc: Option<string> := None;
      if docstring.Some? && docstring.value.SectionDoc? {
        doc := Some(docstring.value.text);
        assert tokenizer.Rest() == ts[1..][1..];
      } else {
        var twice := tokenizer.Unshift(docstring);
        assert !twice;
        assert tokenizer.Rest() == ts[1..];
      }
      var subs := ParseSubSections();
      return Ok(Some(Section(head.value.heading, head.value.customizable, doc, subs)));
    }

    /** Terminates on every input. The second shift at the end of the file finds nothing, so the
        "unparsed section" exception is never thrown, and neither is the pushback one. */
    method ParseFile() returns (r: Result<seq<Section>, Token>)
      requires tokenizer.Valid()
      modifies tokenizer
      ensures r == FileSpec(old(tokenizer.Rest()))
    {
      ghost var ts := tokenizer.Rest();
      var sections: seq<Section> := [];
      PrependNothing(FileSpec(ts));
      while true
        invariant tokenizer.Valid()
        invariant FileSpec(ts) == Prepended(sections, FileSpec(tokenizer.Rest()))
        decreases |tokenizer.Rest()|
      {
        ghost var left := tokenizer.Rest();
        var section := ParseSection();
        if section.Err? {
          return Err(section.error);
        }
        if section.value == None {
          var remains := tokenizer.Shift();
          assert remains == None;
          assert FileSpec(left) == Ok([]) && sections + [] == sections;
          return Ok(sections);
        }
        SectionFirst(left, tokenizer.Rest(), section.value.value);
        PrependTwice(sections, section.value.value, FileSpec(tokenizer.Rest()));
        sections := sections + [section.value.value];
      }
    }
  }

  function Following(subs: seq<SubSection>, r: (seq<SubSection>, seq<Token>)): (seq<SubSection>, seq<Token>) {
    (subs + r.0, r.1)
  }

  lemma NoneYet(r: (seq<SubSection>, seq<Token>))
    ensures Following([], r) == r
  {
    assert [] + r.0 == r.0;
  }

  lemma AllRead(subs: seq<SubSection>, ts: seq<Token>)
    ensures Following(subs, ([], ts)) == (subs, ts)
  {
    assert subs + [] == subs;
  }

  lemma FollowTwice(subs: seq<SubSection>, sub: SubSection, r: (seq<SubSection>, seq<Token>))
    ensures Following(subs, ([sub] + r.0, r.1)) == Following(subs + [sub], r)
  {
    assert subs + ([sub] + r.0) == subs + [sub] + r.0;
  }

  function Prepended(sections: seq<Section>, r: Result<seq<Section>, Token>): Result<seq<Section>, Token> {
    match r
    case Ok(more) => Ok(sections + more)
    case Err(t) => Err(t)
  }

  lemma PrependNothing(r: Result<seq<Section>, Token>)
    ensures Prepended([], r) == r
  {
    if r.Ok? {
      assert [] + r.value == r.value;
    }
  }

  lemma PrependTwice(sections: seq<Section>, section: Section, r: Result<seq<Section>, Token>)
    ensures Prepended(sections, Prepended([section], r)) == Prepended(sections + [section], r)
  {
    if r.Ok? {
      assert sections + ([section] + r.value) == sections + [section] + r.value;
    }
  }

  lemma SectionFirst(ts: seq<Token>, rest: seq<Token>, section: Section)
    requires ts != [] && ts[0].SectionHead?
    requires var (doc, body) := DocSpec(ts[1..]);
             (section, rest) == (Section(ts[0].heading, ts[0].customizable, doc, BodySpec(body).0), BodySpec(body).1)
    ensures FileSpec(ts) == Prepended([section], FileSpec(rest))
  {
  }

  // ---------------------------------------------------------------- what is accepted

  /** Whether t may come right after prev; None is the start of the file. */
  predicate MayFollow(prev: Option<Token>, t: Token) {
    match t
    case SectionHead(_, _) => true
    case SectionDoc(_) => prev.Some? && prev.value.SectionHead?
    case VarDoc(_) => prev.Some? && !prev.value.VarDoc?
    case SubSectionHead(_) => prev.Some?
    case Assignment(_, _) => prev.Some?
  }

  function FirstMisplaced(prev: Option<Token>, ts: seq<Token>): Option<Token>
    decreases |ts|
  {
    if ts == [] then None
    else if !MayFollow(prev, ts[0]) then Some(ts[0])
    else FirstMisplaced(Some(ts[0]), ts[1..])
  }

  /** The token just before rest, when rest is a suffix of ts and prev comes before ts. */
  function Before(prev: Token, ts: seq<Token>, rest: seq<Token>): Token
    requires |rest| <= |ts|
  {
    if |rest| == |ts| then prev else ts[|ts| - |rest| - 1]
  }

  /** Where a run of variables stops: rest is a suffix, its placement decides the whole's, and it
      starts neither with an assignment nor, unless a docstring was just dropped, with a docstring. */
  predicate StopsAt(prev: Token, ts: seq<Token>, rest: seq<Token>) {
    && |rest| <= |ts| && rest == ts[|ts| - |rest|..]
    && FirstMisplaced(Some(prev), ts) == FirstMisplaced(Some(Before(prev, ts, rest)), rest)
  }

  predicate NoVariableNext(prev: Token, rest: seq<Token>) {
    rest != [] ==> !rest[0].Assignment? && (rest[0].VarDoc? ==> prev.VarDoc?)
  }

  lemma SuffixChain(prev: Token, ts: seq<Token>, mid: seq<Token>, rest: seq<Token>)
    requires StopsAt(prev, ts, mid) && StopsAt(Before(prev, ts, mid), mid, rest)
    ensures StopsAt(prev, ts, rest) && Before(prev, ts, rest) == Before(Before(prev, ts, mid), mid, rest)
  {
  }

  lemma TakeOne(prev: Token, ts: seq<Token>)
    requires ts != [] && MayFollow(Some(prev), ts[0])
    ensures StopsAt(prev, ts, ts[1..]) && Before(prev, ts, ts[1..]) == ts[0]
  {
  }

  lemma {:induction false} VarsPlacement(prev: Token, ts: seq<Token>)
    requires !prev.VarDoc?
    ensures StopsAt(prev, ts, VarsSpec(ts).1)
    ensures NoVariableNext(Before(prev, ts, VarsSpec(ts).1), VarsSpec(ts).1)
    ensures VarsSpec(ts).1 == ts || Before(prev, ts, VarsSpec(ts).1).VarDoc? || Before(prev, ts, VarsSpec(ts).1).Assignment?
    decreases |ts|
  {
    if ts != [] && (ts[0].VarDoc? || ts[0].Assignment?) {
      TakeOne(prev, ts);
      if ts[0].VarDoc? && |ts| > 1 && ts[1].Assignment? {
        TakeOne(ts[0], ts[1..]);
        assert ts[1..][1..] == ts[2..];
        SuffixChain(prev, ts, ts[1..], ts[2..]);
        VarsPlacement(ts[1], ts[2..]);
        SuffixChain(prev, ts, ts[2..], VarsSpec(ts[2..]).1);
      } else if ts[0].Assignment? {
        VarsPlacement(ts[0], ts[1..]);
        SuffixChain(prev, ts, ts[1..], VarsSpec(ts[1..]).1);
      }
    } else {
      assert ts == ts[0..];
    }
  }

  /** A section docstring here does not follow its heading. */
  predicate DocMisplaced(prev: Token, ts: seq<Token>) {
    ts != [] && ts[0].SectionDoc? ==> !prev.SectionHead?
  }

  /** A section's subsections stop at the end, at a section heading, or at a misplaced token. */
  lemma {:induction false} SubSectionsPlacement(prev: Token, ts: seq<Token>, first: bool)
    requires DocMisplaced(prev, ts) && (if first then !prev.VarDoc? else NoVariableNext(prev, ts))
    ensures var rest := SubSectionsSpec(ts, first).1;
            && StopsAt(prev, ts, rest)
            && (rest != [] && !rest[0].SectionHead? ==> !MayFollow(Some(Before(prev, ts, rest)), rest[0]))
    decreases |ts|, first
  {
    if ts != [] && ts[0].SubSectionHead? {
      var body := VarsSpec(ts[1..]).1;
      TakeOne(prev, ts);
      VarsPlacement(ts[0], ts[1..]);
      SuffixChain(prev, ts, ts[1..], body);
      SubSectionsPlacement(Before(prev, ts, body), body, false);
      SuffixChain(prev, ts, body, SubSectionsSpec(body, false).1);
    } else if first {
      var body := VarsSpec(ts).1;
      VarsPlacement(prev, ts);
      SubSectionsPlacement(Before(prev, ts, body), body, false);
      SuffixChain(prev, ts, body, SubSectionsSpec(body, false).1);
    } else {
      assert ts == ts[0..];
    }
  }

  /** The parser accepts a token sequence exactly when it starts with a section heading, if it is not
      empty, every section docstring directly follows its heading, and no variable docstring directly
      follows another; otherwise it reports the first token that breaks this. */
  lemma {:induction false} AcceptedExactlyWellPlaced(prev: Option<Token>, ts: seq<Token>)
    requires prev == None || ts == [] || ts[0].SectionHead?
    ensures match FirstMisplaced(prev, ts)
            case None => FileSpec(ts).Ok?
            case Some(t) => FileSpec(ts) == Err(t)
    decreases |ts|
  {
    if ts != [] && ts[0].SectionHead? {
      var body := DocSpec(ts[1..]).1;
      var rest := BodySpec(body).1;
      var last := if |body| < |ts| - 1 then ts[1] else ts[0];
      assert |body| < |ts| - 1 ==> FirstMisplaced(Some(ts[0]), ts[1..]) == FirstMisplaced(Some(ts[1]), ts[1..][1..]);
      SubSectionsPlacement(last, body, true);
      assert FirstMisplaced(prev, ts) == FirstMisplaced(Some(Before(last, body, rest)), rest);
      if rest == [] || rest[0].SectionHead? {
        AcceptedExactlyWellPlaced(Some(Before(last, body, rest)), rest);
      }
    }
  }

  // ---------------------------------------------------------------- what becomes of each token

  /** The tokens with no trace in the result: a variable docstring not followed by its variable, and an
      unnamed subsection heading directly after a section heading or its docstring. */
  predicate Traceless(prev: Option<Token>, ts: seq<Token>)
    requires ts != []
  {
    || (ts[0].VarDoc? && !(|ts| > 1 && ts[1].Assignment?))
    || (ts[0] == SubSectionHead("") && prev.Some? && (prev.value.SectionHead? || prev.value.SectionDoc?))
  }

  function Traced(prev: Option<Token>, ts: seq<Token>): seq<Token>
    decreases |ts|
  {
    if ts == [] then [] else (if Traceless(prev, ts) then [] else [ts[0]]) + Traced(Some(ts[0]), ts[1..])
  }

  function FlatVars(vars: seq<Variable>): seq<Token> {
    if vars == [] then []
    else
      (if vars[0].docstring.Some? then [VarDoc(vars[0].docstring.value)] else [])
      + [Assignment(vars[0].name, vars[0].value)] + FlatVars(vars[1..])
  }

  function FlatSubSections(subs: seq<SubSection>, first: bool): seq<Token> {
    if subs == [] then []
    else
      (if first && subs[0].heading == "" then [] else [SubSectionHead(subs[0].heading)])
      + FlatVars(subs[0].variables) + FlatSubSections(subs[1..], false)
  }

  function FlatSections(sections: seq<Section>): seq<Token> {
    if sections == [] then []
    else
      [SectionHead(sections[0].heading, sections[0].customizable)]
      + (if sections[0].docstring.Some? then [SectionDoc(sections[0].docstring.value)] else [])
      + FlatSubSections(sections[0].subsections, true) + FlatSections(sections[1..])
  }

  lemma Assoc(a: seq<Token>, b: seq<Token>, c: seq<Token>)
    ensures a + (b + c) == a + b + c
  {
  }

  function FlatVar(v: Variable): seq<Token> {
    (if v.docstring.Some? then [VarDoc(v.docstring.value)] else []) + [Assignment(v.name, v.value)]
  }

  lemma FlatVarsCons(v: Variable, more: seq<Variable>)
    ensures FlatVars([v] + more) == FlatVar(v) + FlatVars(more)
  {
    assert ([v] + more)[1..] == more;
  }

  /** The last token a variable takes up. */
  function LastOfVar(ts: seq<Token>): Token
    requires VarSpec(ts).0.Some?
  {
    if ts[0].VarDoc? then ts[1] else ts[0]
  }

  lemma AssignmentIsTraced(prev: Token, ts: seq<Token>)
    requires ts != [] && ts[0].Assignment?
    ensures Traced(Some(prev), ts) == [ts[0]] + Traced(Some(ts[0]), ts[1..])
  {
  }

  lemma DocumentedIsTraced(prev: Token, ts: seq<Token>)
    requires |ts| > 1 && ts[0].VarDoc? && ts[1].Assignment?
    ensures Traced(Some(prev), ts) == [ts[0], ts[1]] + Traced(Some(ts[1]), ts[2..])
  {
    var rest := Traced(Some(ts[1]), ts[2..]);
    AssignmentIsTraced(ts[0], ts[1..]);
    assert ts[1..][1..] == ts[2..];
    assert [ts[0]] + ([ts[1]] + rest) == [ts[0], ts[1]] + rest;
  }

  lemma VarIsTraced(prev: Token, ts: seq<Token>)
    requires VarSpec(ts).0.Some?
    ensures Traced(Some(prev), ts) == FlatVar(VarSpec(ts).0.value) + Traced(Some(LastOfVar(ts)), VarSpec(ts).1)
  {
    if ts[0].VarDoc? {
      DocumentedIsTraced(prev, ts);
      assert FlatVar(VarSpec(ts).0.value) == [ts[0], ts[1]];
    } else {
      AssignmentIsTraced(prev, ts);
      assert FlatVar(VarSpec(ts).0.value) == [ts[0]];
    }
  }

  lemma BeforeSkips(prev: Token, ts: seq<Token>, last: Token, mid: seq<Token>, rest: seq<Token>)
    requires |rest| <= |mid| < |ts| && mid == ts[|ts| - |mid|..] && last == ts[|ts| - |mid| - 1]
    ensures Before(last, mid, rest) == Before(prev, ts, rest)
  {
  }

  lemma {:induction false} VarsAreTraced(prev: Token, ts: seq<Token>)
    ensures var (vars, rest) := VarsSpec(ts);
            Traced(Some(prev), ts) == FlatVars(vars) + Traced(Some(Before(prev, ts, rest)), rest)
    decreases |ts|
  {
    var (v, mid) := VarSpec(ts);
    if v.Some? {
      var last := LastOfVar(ts);
      var (more, rest) := VarsSpec(mid);
      VarIsTraced(prev, ts);
      VarsAreTraced(last, mid);
      BeforeSkips(prev, ts, last, mid, rest);
      FlatVarsCons(v.value, more);
      Assoc(FlatVar(v.value), FlatVars(more), Traced(Some(Before(prev, ts, rest)), rest));
    }
  }

  lemma FlatSubSectionsCons(sub: SubSection, more: seq<SubSection>, first: bool)
    ensures FlatSubSections([sub] + more, first) ==
            (if first && sub.heading == "" then [] else [SubSectionHead(sub.heading)])
            + (FlatVars(sub.variables) + FlatSubSections(more, false))
  {
    assert ([sub] + more)[1..] == more;
  }

  lemma {:induction false} SubSectionsAreTraced(prev: Token, ts: seq<Token>, first: bool)
    requires first ==> prev.SectionHead? || prev.SectionDoc?
    requires !first && ts != [] && ts[0].SubSectionHead? ==> !prev.SectionHead? && !prev.SectionDoc?
    ensures var (subs, rest) := SubSectionsSpec(ts, first);
            Traced(Some(prev), ts) == FlatSubSections(subs, first) + Traced(Some(Before(prev, ts, rest)), rest)
    decreases |ts|, first, 1
  {
    if ts != [] && ts[0].SubSectionHead? {
      NamedIsTraced(prev, ts, first);
    } else if first {
      ImplicitIsTraced(prev, ts);
    }
  }

  lemma {:induction false} VarsThenSubSections(prev: Token, ts: seq<Token>)
    requires ts != [] && ts[0].SubSectionHead? ==> !prev.SectionHead? && !prev.SectionDoc?
    requires !prev.VarDoc?
    ensures var (vars, body) := VarsSpec(ts);
            var (more, rest) := SubSectionsSpec(body, false);
            Traced(Some(prev), ts) == FlatVars(vars) + FlatSubSections(more, false) + Traced(Some(Before(prev, ts, rest)), rest)
    decreases |ts|, false, 2
  {
    var (vars, body) := VarsSpec(ts);
    var (more, rest) := SubSectionsSpec(body, false);
    VarsAreTraced(prev, ts);
    VarsPlacement(prev, ts);
    var last := Before(prev, ts, body);
    SubSectionsAreTraced(last, body, false);
    if |body| < |ts| {
      BeforeSkips(prev, ts, last, body, rest);
    }
    Assoc(FlatVars(vars), FlatSubSections(more, false), Traced(Some(Before(prev, ts, rest)), rest));
  }

  lemma {:induction false} NamedIsTraced(prev: Token, ts: seq<Token>, first: bool)
    requires ts != [] && ts[0].SubSectionHead?
    requires if first then prev.SectionHead? || prev.SectionDoc? else !prev.SectionHead? && !prev.SectionDoc?
    ensures var (subs, rest) := SubSectionsSpec(ts, first);
            Traced(Some(prev), ts) == FlatSubSections(subs, first) + Traced(Some(Before(prev, ts, rest)), rest)
    decreases |ts|, first, 0
  {
    var (vars, body) := VarsSpec(ts[1..]);
    var (more, rest) := SubSectionsSpec(body, false);
    VarsThenSubSections(ts[0], ts[1..]);
    BeforeSkips(prev, ts, ts[0], ts[1..], rest);
    FlatSubSectionsCons(SubSection(ts[0].heading, vars), more, first);
    var own: seq<Token> := if first && ts[0].heading == "" then [] else [ts[0]];
    assert Traced(Some(prev), ts) == own + Traced(Some(ts[0]), ts[1..]);
    Assoc(own, FlatVars(vars) + FlatSubSections(more, false), Traced(Some(Before(prev, ts, rest)), rest));
  }

  lemma {:induction false} ImplicitIsTraced(prev: Token, ts: seq<Token>)
    requires ts == [] || !ts[0].SubSectionHead?
    requires prev.SectionHead? || prev.SectionDoc?
    ensures var (subs, rest) := SubSectionsSpec(ts, true);
            Traced(Some(prev), ts) == FlatSubSections(subs, true) + Traced(Some(Before(prev, ts, rest)), rest)
    decreases |ts|, true, 0
  {
    var (vars, body) := VarsSpec(ts);
    var (more, rest) := SubSectionsSpec(body, false);
    VarsThenSubSections(prev, ts);
    FlatSubSectionsCons(SubSection("", vars), more, true);
    assert [] + (FlatVars(vars) + FlatSubSections(more, false)) == FlatVars(vars) + FlatSubSections(more, false);
  }

  lemma LoneEmptyWritesNothing(subs: seq<SubSection>)
    ensures FlatSubSections(DropLoneEmpty(subs), true) == FlatSubSections(subs, true)
  {
    if |subs| == 1 {
      assert subs[1..] == [];
    }
  }

  lemma FlatSectionsCons(section: Section, more: seq<Section>)
    ensures FlatSections([section] + more) ==
            [SectionHead(section.heading, section.customizable)]
            + (if section.docstring.Some? then [SectionDoc(section.docstring.value)] else [])
            + FlatSubSections(section.subsections, true) + FlatSections(more)
  {
    assert ([section] + more)[1..] == more;
  }

  lemma HeadIsTraced(prev: Option<Token>, ts: seq<Token>)
    requires ts != [] && ts[0].SectionHead?
    ensures var (doc, body) := DocSpec(ts[1..]);
            Traced(prev, ts) ==
            [ts[0]] + (if doc.Some? then [SectionDoc(doc.value)] else []) + Traced(Some(if doc.Some? then ts[1] else ts[0]), body)
  {
    if DocSpec(ts[1..]).0.Some? {
      assert Traced(Some(ts[0]), ts[1..]) == [ts[1]] + Traced(Some(ts[1]), ts[1..][1..]);
    }
  }

  /** One section takes up its heading, docstring and body, and leaves the rest. */
  lemma SectionIsTraced(prev: Option<Token>, ts: seq<Token>, rest: seq<Token>, section: Section) returns (before: Token)
    requires ts != [] && ts[0].SectionHead?
    requires var (doc, body) := DocSpec(ts[1..]);
             (section, rest) == (Section(ts[0].heading, ts[0].customizable, doc, BodySpec(body).0), BodySpec(body).1)
    ensures Traced(prev, ts) == FlatSections([section]) + Traced(Some(before), rest)
  {
    var (doc, body) := DocSpec(ts[1..]);
    var (subs, _) := SubSectionsSpec(body, true);
    var last := if doc.Some? then ts[1] else ts[0];
    before := Before(last, body, rest);
    HeadIsTraced(prev, ts);
    SubSectionsAreTraced(last, body, true);
    LoneEmptyWritesNothing(subs);
    FlatSectionsCons(section, []);
    var own: seq<Token> := [ts[0]] + if doc.Some? then [SectionDoc(doc.value)] else [];
    assert FlatSections([section]) == own + FlatSubSections(subs, true) by {
      assert [section] + [] == [section];
      assert own + FlatSubSections(subs, true) + [] == own + FlatSubSections(subs, true);
    }
    Assoc(own, FlatSubSections(subs, true), Traced(Some(before), rest));
  }

  lemma FlatSectionsSplit(section: Section, more: seq<Section>)
    ensures FlatSections([section] + more) == FlatSections([section]) + FlatSections(more)
  {
    FlatSectionsCons(section, more);
    FlatSectionsCons(section, []);
    assert [section] + [] == [section];
  }

  /** When the parser returns, writing its sections back out gives every input token, in order, except
      those without a trace: nothing else is lost, moved, merged or invented. */
  lemma {:induction false} ResultKeepsEveryTracedToken(prev: Option<Token>, ts: seq<Token>)
    requires FileSpec(ts).Ok?
    ensures FlatSections(FileSpec(ts).value) == Traced(prev, ts)
    decreases |ts|
  {
    if ts != [] {
      var (doc, body) := DocSpec(ts[1..]);
      var (subs, rest) := BodySpec(body);
      var section := Section(ts[0].heading, ts[0].customizable, doc, subs);
      SectionFirst(ts, rest, section);
      var before := SectionIsTraced(prev, ts, rest, section);
      ResultKeepsEveryTracedToken(Some(before), rest);
      FlatSectionsSplit(section, FileSpec(rest).value);
    }
  }

  // ---------------------------------------------------------------- what the written-out text does not show

  /** The tokens are those of the matched lines, in order: one for each matched line, none for any other. */
  lemma {:induction false} TokensOfLines(a: seq<Option<Token>>, b: seq<Option<Token>>, t: Token)
    ensures Tokens(a + b) == Tokens(a) + Tokens(b)
    ensures Tokens([None]) == [] && Tokens([Some(t)]) == [t]
  {
    if a == [] {
      assert a + b == b;
    } else {
      assert (a + b)[0] == a[0] && (a + b)[1..] == a[1..] + b;
      TokensOfLines(a[1..], b, t);
      assert a[0].Some? ==> [a[0].value] + (Tokens(a[1..]) + Tokens(b)) == [a[0].value] + Tokens(a[1..]) + Tokens(b);
    }
  }

  /** A body that starts with a subsection heading has no other first subsection, any other body has an unnamed
      one; and a section is never left with nothing but an empty unnamed subsection. */
  lemma BodyShape(ts: seq<Token>)
    ensures var subs := BodySpec(ts).0;
            && subs != [SubSection("", [])]
            && (subs != [] ==> subs[0].heading == if ts != [] && ts[0].SubSectionHead? then ts[0].heading else "")
  {
  }

  lemma {:induction false} NoLoneEmptySubSection(ts: seq<Token>, k: nat)
    requires FileSpec(ts).Ok? && k < |FileSpec(ts).value|
    ensures FileSpec(ts).value[k].subsections != [SubSection("", [])]
    decreases |ts|
  {
    var (doc, body) := DocSpec(ts[1..]);
    var (subs, rest) := BodySpec(body);
    BodyShape(body);
    if k > 0 {
      NoLoneEmptySubSection(rest, k - 1);
    }
  }
}
