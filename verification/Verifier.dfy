/** DjangoTokenVerifier: a bearer-token check cached for a minute, with calls interleaved at the await
    in the middle of verify_token. */
module Verifier {
  import opened Options

  const CACHE_TTL_SECONDS: int := 60
  const CACHE_MAX_ENTRIES: nat := 512

  /** What the server reported about a token; every field is copied from its answer. */
  datatype Access = Access(token: string, clientId: string, scopes: seq<string>, expiresAt: Option<int>, subject: Option<string>)

  datatype Entry = Entry(expires: int, access: Access)

  function Hit(cache: map<nat, Entry>, key: nat, now: int): Option<Access> {
    if key in cache && cache[key].expires > now then Some(cache[key].access) else None
  }

  function Remembered(cache: map<nat, Entry>, key: nat, asked: int, access: Access): map<nat, Entry> {
    var room := if |cache| >= CACHE_MAX_ENTRIES then map[] else cache;
    room[key := Entry(asked + CACHE_TTL_SECONDS, access)]
  }

  /** The server's answer for the token with this digest, asked at this time. */
  datatype Report = Report(key: nat, asked: int, access: Access)

  /** The two halves of verify_token, before and after it awaits the server. */
  class DjangoTokenVerifier {
    var cache: map<nat, Entry>
    ghost var reports: set<Report>

    /** Every entry is what the server reported for its digest, kept for a minute from the question. */
    ghost predicate Valid()
      reads this
    {
      && |cache| <= CACHE_MAX_ENTRIES
      && forall k :: k in cache ==> Report(k, cache[k].expires - CACHE_TTL_SECONDS, cache[k].access) in reports
    }

    constructor ()
      ensures Valid() && cache == map[] && reports == {}
    {
      cache, reports := map[], {};
    }

    method LookUp(key: nat, now: int) returns (hit: Option<Access>)
      requires Valid()
      ensures hit.Some? ==> exists asked :: now < asked + 60 && Report(key, asked, hit.value) in reports
      ensures hit == if key in cache && now < cache[key].expires then Some(cache[key].access) else None
    {
      hit := None;
      if key in cache {
        var entry := cache[key];
        if entry.expires > now {
          hit := Some(entry.access);
          assert Report(key, entry.expires - CACHE_TTL_SECONDS, entry.access) in reports;
        }
      }
    }

    /** `asked` is the clock reading from before the await; a rejected token is not remembered. */
    method Finish(key: nat, asked: int, answer: Option<Access>) returns (result: Option<Access>)
      requires Valid()
      modifies this
      ensures Valid() && result == answer
      ensures answer.None? ==> cache == old(cache)
      ensures answer.Some? ==>
                cache == (if |old(cache)| < 512 then old(cache) else map[])[key := Entry(asked + 60, answer.value)]
      ensures reports == old(reports) + if answer.Some? then {Report(key, asked, answer.value)} else {}
    {
      if answer.None? {
        return None;
      }
      if |cache| >= CACHE_MAX_ENTRIES {
        cache := map[];
      }
      AddingOne(cache, key, Entry(asked + CACHE_TTL_SECONDS, answer.value));
      cache := cache[key := Entry(asked + CACHE_TTL_SECONDS, answer.value)];
      reports := reports + {Report(key, asked, answer.value)};
      return answer;
    }
  }

  lemma AddingOne(m: map<nat, Entry>, key: nat, e: Entry)
    ensures |m[key := e]| <= |m| + 1
  {
    assert m[key := e].Keys == m.Keys + {key};
  }

  // ---------------------------------------------------------------- interleaved calls

  datatype Call =
    | Asking(token: string, began: int)
    | Answered(token: string, began: int, answer: Option<Access>)

  /** A finished call. */
  datatype Outcome = Outcome(token: string, began: int, result: Option<Access>)

  datatype State = State(
    digest: string -> nat,
    now: int,
    revoked: map<string, int>,       // when the server stopped accepting a token
    reports: set<Access>,            // every active answer the server gave
    cache: map<nat, Entry>,
    calls: map<nat, Call>,
    outcomes: seq<Outcome>)

  datatype Action =
    | Tick(seconds: nat)
    | Revoke(token: string)
    | Begin(call: nat, token: string)
    | Serve(call: nat, answer: Option<Access>)
    | Return(call: nat)

  predicate Enabled(s: State, a: Action) {
    match a
    case Tick(_) => true
    case Revoke(t) => t !in s.revoked
    case Begin(c, _) => c !in s.calls
    case Serve(c, answer) =>
      && c in s.calls && s.calls[c].Asking?
      && (answer.Some? ==> answer.value.token == s.calls[c].token && s.calls[c].token !in s.revoked)
    case Return(c) => c in s.calls && s.calls[c].Answered?
  }

  function Do(s: State, a: Action): State
    requires Enabled(s, a)
  {
    match a
    case Tick(seconds) => s.(now := s.now + seconds)
    case Revoke(t) => s.(revoked := s.revoked[t := s.now])
    case Begin(c, t) =>
      var hit := Hit(s.cache, s.digest(t), s.now);
      if hit.Some? then s.(outcomes := s.outcomes + [Outcome(t, s.now, hit)])
      else s.(calls := s.calls[c := Asking(t, s.now)])
    case Serve(c, answer) =>
      s.(calls := s.calls[c := Answered(s.calls[c].token, s.calls[c].began, answer)],
         reports := if answer.Some? then s.reports + {answer.value} else s.reports)
    case Return(c) =>
      var q := s.calls[c];
      s.(calls := s.calls - {c}, outcomes := s.outcomes + [Outcome(q.token, q.began, q.answer)],
         cache := if q.answer.Some? then Remembered(s.cache, s.digest(q.token), q.began, q.answer.value) else s.cache)
  }

  ghost predicate IsRun(states: seq<State>, actions: seq<Action>) {
    && |states| == |actions| + 1
    && forall i {:trigger actions[i]} :: 0 <= i < |actions| ==> Enabled(states[i], actions[i]) && states[i + 1] == Do(states[i], actions[i])
  }

  predicate Quiet(s: State) {
    s.cache == map[] && s.calls == map[] && s.outcomes == [] && s.reports == {}
  }

  predicate EntrySound(s: State, key: nat, e: Entry) {
    && s.digest(e.access.token) == key && e.access in s.reports
    && (e.access.token in s.revoked ==> e.expires <= s.revoked[e.access.token] + CACHE_TTL_SECONDS)
    && e.expires <= s.now + CACHE_TTL_SECONDS
  }

  predicate CallSound(s: State, c: Call) {
    && c.began <= s.now
    && (c.Answered? && c.answer.Some? ==>
          && c.answer.value.token == c.token && c.answer.value in s.reports
          && (c.token in s.revoked ==> c.began <= s.revoked[c.token]))
  }

  /** What a successful call returned, stated about the token the server actually saw. */
  predicate OutcomeSound(s: State, o: Outcome) {
    && o.began <= s.now
    && (o.result.Some? ==>
          && s.digest(o.result.value.token) == s.digest(o.token) && o.result.value in s.reports
          && (o.result.value.token in s.revoked ==> o.began < s.revoked[o.result.value.token] + CACHE_TTL_SECONDS))
  }

  ghost predicate Sound(s: State) {
    && |s.cache| <= CACHE_MAX_ENTRIES
    && (forall k :: k in s.cache ==> EntrySound(s, k, s.cache[k]))
    && (forall c :: c in s.calls ==> CallSound(s, s.calls[c]))
    && (forall o :: o in s.outcomes ==> OutcomeSound(s, o))
  }

  lemma ReturnKeepsEntries(s: State, c: nat)
    requires Sound(s) && Enabled(s, Return(c))
    ensures forall k :: k in Do(s, Return(c)).cache ==> EntrySound(Do(s, Return(c)), k, Do(s, Return(c)).cache[k])
  {
    var s' := Do(s, Return(c));
    assert CallSound(s, s.calls[c]);
    forall k | k in s'.cache ensures EntrySound(s', k, s'.cache[k]) {
      assert k in s.cache ==> EntrySound(s, k, s.cache[k]);
    }
  }

  lemma StepKeepsEntries(s: State, a: Action)
    requires Sound(s) && Enabled(s, a)
    ensures forall k :: k in Do(s, a).cache ==> EntrySound(Do(s, a), k, Do(s, a).cache[k])
  {
    if a.Return? {
      ReturnKeepsEntries(s, a.call);
    } else {
      forall k | k in Do(s, a).cache ensures EntrySound(Do(s, a), k, Do(s, a).cache[k]) {
        assert EntrySound(s, k, s.cache[k]);
      }
    }
  }

  lemma StepKeepsCalls(s: State, a: Action)
    requires Sound(s) && Enabled(s, a)
    ensures forall c :: c in Do(s, a).calls ==> CallSound(Do(s, a), Do(s, a).calls[c])
  {
    var s' := Do(s, a);
    forall c | c in s'.calls ensures CallSound(s', s'.calls[c]) {
      assert c in s.calls ==> CallSound(s, s.calls[c]);
    }
  }

  lemma StepKeepsOutcomes(s: State, a: Action)
    requires Sound(s) && Enabled(s, a)
    ensures forall o :: o in Do(s, a).outcomes ==> OutcomeSound(Do(s, a), o)
  {
    var s' := Do(s, a);
    if a.Return? {
      assert CallSound(s, s.calls[a.call]);
    }
    if a.Begin? && Hit(s.cache, s.digest(a.token), s.now).Some? {
      assert EntrySound(s, s.digest(a.token), s.cache[s.digest(a.token)]);
    }
    forall o | o in s'.outcomes ensures OutcomeSound(s', o) {
      assert o in s.outcomes ==> OutcomeSound(s, o);
    }
  }

  lemma RememberedIsBounded(cache: map<nat, Entry>, key: nat, asked: int, access: Access)
    requires |cache| <= CACHE_MAX_ENTRIES
    ensures |Remembered(cache, key, asked, access)| <= CACHE_MAX_ENTRIES
  {
    AddingOne(if |cache| >= CACHE_MAX_ENTRIES then map[] else cache, key, Entry(asked + CACHE_TTL_SECONDS, access));
  }

  lemma StepKeepsSound(s: State, a: Action)
    requires Sound(s) && Enabled(s, a)
    ensures Sound(Do(s, a)) && Do(s, a).digest == s.digest
  {
    StepKeepsEntries(s, a);
    StepKeepsCalls(s, a);
    StepKeepsOutcomes(s, a);
    if a.Return? && s.calls[a.call].answer.Some? {
      var q := s.calls[a.call];
      RememberedIsBounded(s.cache, s.digest(q.token), q.began, q.answer.value);
    }
  }

  lemma QuietIsSound(s: State)
    requires Quiet(s)
    ensures Sound(s)
  {
  }

  lemma {:induction false} RunsAreSound(states: seq<State>, actions: seq<Action>, i: nat)
    requires IsRun(states, actions) && Quiet(states[0]) && i <= |actions|
    ensures Sound(states[i]) && states[i].digest == states[0].digest
  {
    if i == 0 {
      QuietIsSound(states[0]);
    } else {
      RunsAreSound(states, actions, i - 1);
      StepKeepsSound(states[i - 1], actions[i - 1]);
      assert states[i] == Do(states[i - 1], actions[i - 1]);
    }
  }

  /** With any number of interleaved calls, a token the server stopped accepting at time r is rejected
      by every call that begins at r + 60 seconds or later, and an accepted call returns only what the
      server reported for that very token. Digests of distinct tokens are taken to be distinct. */
  lemma RevocationTakesEffectWithinTtl(states: seq<State>, actions: seq<Action>, i: nat, o: Outcome)
    requires IsRun(states, actions) && Quiet(states[0]) && i <= |actions| && o in states[i].outcomes
    requires forall t, t' :: states[0].digest(t) == states[0].digest(t') ==> t == t'
    ensures o.token in states[i].revoked && o.began >= states[i].revoked[o.token] + 60 ==> o.result == None
    ensures o.result.Some? ==> o.result.value.token == o.token && o.result.value in states[i].reports
  {
    RunsAreSound(states, actions, i);
    assert OutcomeSound(states[i], o);
  }

  /** A call in the run does to the cache and returns what the two halves of verify_token do. */
  lemma CallsMatchVerifier(s: State, c: nat, token: string)
    requires c !in s.calls
    ensures Enabled(s, Begin(c, token))
    ensures var hit := s.digest(token) in s.cache && s.now < s.cache[s.digest(token)].expires;
            var s' := Do(s, Begin(c, token));
            && s'.cache == s.cache
            && (hit ==> s'.calls == s.calls
                        && s'.outcomes == s.outcomes + [Outcome(token, s.now, Some(s.cache[s.digest(token)].access))])
            && (!hit ==> s'.calls == s.calls[c := Asking(token, s.now)] && s'.outcomes == s.outcomes)
  {
  }

  lemma ReturnsTellTheAnswer(s: State, c: nat)
    requires c in s.calls && s.calls[c].Answered?
    ensures Enabled(s, Return(c))
    ensures Do(s, Return(c)).outcomes == s.outcomes + [Outcome(s.calls[c].token, s.calls[c].began, s.calls[c].answer)]
  {
  }

  lemma RejectionsLeaveTheCache(s: State, c: nat)
    requires c in s.calls && s.calls[c].Answered? && s.calls[c].answer == None
    ensures Enabled(s, Return(c)) && Do(s, Return(c)).cache == s.cache
  {
  }

  lemma AcceptancesAreRemembered(s: State, c: nat, access: Access)
    requires c in s.calls && s.calls[c].Answered? && s.calls[c].answer == Some(access)
    ensures Enabled(s, Return(c))
    ensures Do(s, Return(c)).cache == Remembered(s.cache, s.digest(s.calls[c].token), s.calls[c].began, access)
  {
  }

  /** Remembering clears a full cache and keeps the answer until a minute after the question. */
  lemma RememberedExactly(cache: map<nat, Entry>, key: nat, asked: int, access: Access)
    ensures |cache| < 512 ==> Remembered(cache, key, asked, access) == cache[key := Entry(asked + 60, access)]
    ensures |cache| >= 512 ==> Remembered(cache, key, asked, access) == map[key := Entry(asked + 60, access)]
  {
  }

  /** The cache never holds more than 512 entries. */
  lemma CacheIsBounded(states: seq<State>, actions: seq<Action>, i: nat)
    requires IsRun(states, actions) && Quiet(states[0]) && i <= |actions|
    ensures |states[i].cache| <= 512
  {
    RunsAreSound(states, actions, i);
  }

  /** A run and one more step. */
  lemma OneMore(states: seq<State>, actions: seq<Action>, a: Action) returns (longer: seq<State>, more: seq<Action>)
    requires IsRun(states, actions) && Enabled(states[|actions|], a)
    ensures IsRun(longer, more) && longer[0] == states[0] && longer[|more|] == Do(states[|actions|], a)
  {
    longer, more := states + [Do(states[|actions|], a)], actions + [a];
    forall i {:trigger more[i]} | 0 <= i < |more|
      ensures Enabled(longer[i], more[i]) && longer[i + 1] == Do(longer[i], more[i])
    {
      if i < |actions| {
        assert longer[i] == states[i] && longer[i + 1] == states[i + 1] && more[i] == actions[i];
      }
    }
  }

  /** After one accepted call at time 0. */
  function Filled(digest: string -> nat, access: Access): State {
    State(digest, 0, map[], {access}, map[digest(access.token) := Entry(CACHE_TTL_SECONDS, access)], map[],
          [Outcome(access.token, 0, Some(access))])
  }

  lemma FillCache(digest: string -> nat, access: Access) returns (states: seq<State>, actions: seq<Action>)
    ensures IsRun(states, actions) && Quiet(states[0]) && states[0].digest == digest
    ensures states[|actions|] == Filled(digest, access)
  {
    states, actions := [State(digest, 0, map[], {}, map[], map[], [])], [];
    states, actions := OneMore(states, actions, Begin(1, access.token));
    assert states[|actions|].calls == map[1 := Asking(access.token, 0)];
    states, actions := OneMore(states, actions, Serve(1, Some(access)));
    assert states[|actions|].calls == map[1 := Answered(access.token, 0, Some(access))];
    states, actions := OneMore(states, actions, Return(1));
  }

  /** The minute is not slack: a call that begins any time before it is up can still be accepted. */
  lemma RevocationCanTakeThatLong(delay: nat, digest: string -> nat)
    returns (states: seq<State>, actions: seq<Action>, late: Outcome)
    requires delay < 60
    ensures IsRun(states, actions) && Quiet(states[0]) && states[0].digest == digest
    ensures late in states[|actions|].outcomes && late.result.Some?
    ensures late.token in states[|actions|].revoked && late.began == states[|actions|].revoked[late.token] + delay
  {
    var access := Access("t", "", [], None, None);
    late := Outcome("t", delay, Some(access));
    states, actions := FillCache(digest, access);
    states, actions := OneMore(states, actions, Revoke("t"));
    states, actions := OneMore(states, actions, Tick(delay));
    ghost var before := states[|actions|];
    states, actions := OneMore(states, actions, Begin(2, "t"));
    assert states[|actions|].outcomes == before.outcomes + [late];
  }
}
