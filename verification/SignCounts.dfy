/** The signature counter of one passkey under any number of interleaved assertions. Each reads the
    stored count without a lock, verifies against what it read, and then writes the greater of the
    row's current count and the assertion's. */
module SignCounts {
  import opened Options

  /** An assertion in flight: the count it read, and the new count its signature proved. */
  datatype Assertion = Reading | Read(seen: nat) | Verified(seen: nat, proved: nat)

  /** A finished assertion: the count it proved, and the one on the passkey it returned. */
  datatype Accepted = Accepted(proved: nat, returned: nat)

  /** The row may be deleted at any time, and never comes back. */
  datatype State = State(stored: Option<nat>, inFlight: map<nat, Assertion>, accepted: seq<Accepted>)

  datatype Action =
    | Arrive(call: nat)
    | Lookup(call: nat)
    | Verify(call: nat, count: nat)
    | Update(call: nat)
    | Fail(call: nat)
    | DeletePasskey

  /** The counter rule of section 7.2, step 21, of W3C Web Authentication Level 2, on the count read. */
  predicate Advances(seen: nat, count: nat) {
    if seen == 0 && count == 0 then true else count > seen
  }

  predicate Enabled(s: State, a: Action) {
    match a
    case Arrive(c) => c !in s.inFlight
    case Lookup(c) => c in s.inFlight && s.inFlight[c].Reading? && s.stored.Some?
    case Verify(c, count) => c in s.inFlight && s.inFlight[c].Read? && Advances(s.inFlight[c].seen, count)
    case Update(c) => c in s.inFlight && s.inFlight[c].Verified? && s.stored.Some?
    case Fail(c) => c in s.inFlight
    case DeletePasskey => true
  }

  function Max(a: nat, b: nat): nat {
    if a >= b then a else b
  }

  function Do(s: State, a: Action): State
    requires Enabled(s, a)
  {
    match a
    case Arrive(c) => s.(inFlight := s.inFlight[c := Reading])
    case Lookup(c) => s.(inFlight := s.inFlight[c := Read(s.stored.value)])
    case Verify(c, count) => s.(inFlight := s.inFlight[c := Verified(s.inFlight[c].seen, count)])
    case Update(c) =>
      var q := s.inFlight[c];
      State(Some(Max(s.stored.value, q.proved)), s.inFlight - {c}, s.accepted + [Accepted(q.proved, Max(q.seen, q.proved))])
    case Fail(c) => s.(inFlight := s.inFlight - {c})
    case DeletePasskey => s.(stored := None)
  }

  ghost predicate IsRun(states: seq<State>, actions: seq<Action>) {
    && |states| == |actions| + 1
    && forall i {:trigger actions[i]} :: 0 <= i < |actions| ==> Enabled(states[i], actions[i]) && states[i + 1] == Do(states[i], actions[i])
  }

  predicate Quiet(s: State) {
    s.stored.Some? && s.inFlight == map[] && s.accepted == []
  }

  /** The greatest of an initial count and every accepted one. */
  function Greatest(initial: nat, accepted: seq<Accepted>): nat {
    if accepted == [] then initial
    else Max(Greatest(initial, accepted[..|accepted| - 1]), accepted[|accepted| - 1].proved)
  }

  ghost predicate Sound(initial: nat, s: State) {
    && (s.stored.Some? ==> s.stored.value == Greatest(initial, s.accepted))
    && (forall c :: c in s.inFlight && !s.inFlight[c].Reading? ==> s.inFlight[c].seen <= Greatest(initial, s.accepted))
  }

  lemma StepKeepsSound(initial: nat, s: State, a: Action)
    requires Sound(initial, s) && Enabled(s, a)
    ensures Sound(initial, Do(s, a))
    ensures Greatest(initial, s.accepted) <= Greatest(initial, Do(s, a).accepted)
  {
    if a.Update? {
      var s' := Do(s, a);
      assert s'.accepted[..|s.accepted|] == s.accepted;
    }
  }

  lemma {:induction false} RunsAreSound(states: seq<State>, actions: seq<Action>, i: nat)
    requires IsRun(states, actions) && Quiet(states[0]) && i <= |actions|
    ensures Sound(states[0].stored.value, states[i])
  {
    if i > 0 {
      RunsAreSound(states, actions, i - 1);
      StepKeepsSound(states[0].stored.value, states[i - 1], actions[i - 1]);
    }
  }

  lemma {:induction false} GreatestIsReached(initial: nat, accepted: seq<Accepted>)
    ensures initial <= Greatest(initial, accepted)
    ensures forall k :: 0 <= k < |accepted| ==> accepted[k].proved <= Greatest(initial, accepted)
    ensures Greatest(initial, accepted) == initial || exists k :: 0 <= k < |accepted| && accepted[k].proved == Greatest(initial, accepted)
  {
    if accepted != [] {
      var n := |accepted| - 1;
      GreatestIsReached(initial, accepted[..n]);
      forall k | 0 <= k < |accepted| ensures accepted[k].proved <= Greatest(initial, accepted) {
        assert k < n ==> accepted[..n][k] == accepted[k];
      }
      if Greatest(initial, accepted) != initial && Greatest(initial, accepted) != accepted[n].proved {
        var k :| 0 <= k < n && accepted[..n][k].proved == Greatest(initial, accepted[..n]);
        assert accepted[k].proved == Greatest(initial, accepted);
      } else {
        assert Greatest(initial, accepted) == initial || accepted[n].proved == Greatest(initial, accepted);
      }
    }
  }

  /** While the passkey exists its count is exactly the greatest of its initial one and all those accepted, in
      whatever order the updates landed: it is one of them, and none is above it. */
  lemma CountIsGreatest(states: seq<State>, actions: seq<Action>, i: nat)
    requires IsRun(states, actions) && Quiet(states[0]) && i <= |actions| && states[i].stored.Some?
    ensures var initial, stored, accepted := states[0].stored.value, states[i].stored.value, states[i].accepted;
            && initial <= stored && (forall k :: 0 <= k < |accepted| ==> accepted[k].proved <= stored)
            && (stored == initial || exists k :: 0 <= k < |accepted| && accepted[k].proved == stored)
  {
    RunsAreSound(states, actions, i);
    GreatestIsReached(states[0].stored.value, states[i].accepted);
  }

  /** A verified assertion read the stored count and then proved one above it, or both were zero. */
  lemma {:induction false} VerifiedSince(states: seq<State>, actions: seq<Action>, i: nat, call: nat) returns (l: nat, v: nat)
    requires IsRun(states, actions) && Quiet(states[0]) && i <= |actions|
    requires call in states[i].inFlight && states[i].inFlight[call].Verified?
    ensures l < v < i && actions[l] == Lookup(call) && states[l].stored == Some(states[i].inFlight[call].seen)
    ensures actions[v] == Verify(call, states[i].inFlight[call].proved)
    ensures var q := states[i].inFlight[call]; q.proved > q.seen || (q.proved == 0 && q.seen == 0)
  {
    assert states[i] == Do(states[i - 1], actions[i - 1]);
    if actions[i - 1].Verify? && actions[i - 1].call == call {
      v := i - 1;
      l := ReadSince(states, actions, i - 1, call);
    } else {
      l, v := VerifiedSince(states, actions, i - 1, call);
    }
  }

  lemma {:induction false} ReadSince(states: seq<State>, actions: seq<Action>, i: nat, call: nat) returns (l: nat)
    requires IsRun(states, actions) && Quiet(states[0]) && i <= |actions|
    requires call in states[i].inFlight && states[i].inFlight[call].Read?
    ensures l < i && actions[l] == Lookup(call) && states[l].stored == Some(states[i].inFlight[call].seen)
  {
    assert states[i] == Do(states[i - 1], actions[i - 1]);
    if actions[i - 1] == Lookup(call) {
      l := i - 1;
    } else {
      l := ReadSince(states, actions, i - 1, call);
    }
  }

  /** An assertion is accepted only if it proved a count above the one stored when it looked, or both were
      zero; it then raises the stored count to its own if that is higher, and is recorded with its count. */
  lemma UpdateIsFresh(states: seq<State>, actions: seq<Action>, i: nat) returns (l: nat)
    requires IsRun(states, actions) && Quiet(states[0]) && i < |actions| && actions[i].Update?
    ensures l < i && actions[l] == Lookup(actions[i].call) && states[l].stored.Some? && states[i].stored.Some?
    ensures |states[i + 1].accepted| == |states[i].accepted| + 1
    ensures var seen, proved := states[l].stored.value, states[i + 1].accepted[|states[i].accepted|].proved;
            && (proved > seen || (proved == 0 && seen == 0))
            && states[i + 1].stored == Some(if proved > states[i].stored.value then proved else states[i].stored.value)
            && states[i + 1].accepted[|states[i].accepted|].returned == if proved > seen then proved else seen
  {
    var v;
    l, v := VerifiedSince(states, actions, i, actions[i].call);
    assert states[i + 1] == Do(states[i], actions[i]);
  }

  /** An assertion that has read a count can be verified with exactly the counts the rule admits. */
  lemma VerifiesExactly(s: State, call: nat, count: nat)
    requires call in s.inFlight && s.inFlight[call].Read?
    ensures Enabled(s, Verify(call, count)) <==> count > s.inFlight[call].seen || (count == 0 && s.inFlight[call].seen == 0)
  {
  }

  /** It never goes back. */
  lemma {:induction false} CountNeverDecreases(states: seq<State>, actions: seq<Action>, i: nat, j: nat)
    requires IsRun(states, actions) && Quiet(states[0]) && i <= j <= |actions|
    requires states[j].stored.Some?
    ensures states[i].stored.Some? && states[i].stored.value <= states[j].stored.value
    decreases j
  {
    if i < j {
      assert states[j] == Do(states[j - 1], actions[j - 1]);
      CountNeverDecreases(states, actions, i, j - 1);
    }
  }

  /** The passkey object an assertion returns never carries a count above the stored one, though it was
      computed from an older read. */
  lemma ReturnedCountIsStored(states: seq<State>, actions: seq<Action>, i: nat)
    requires IsRun(states, actions) && Quiet(states[0]) && i < |actions| && actions[i].Update?
    ensures states[i + 1].stored.Some? && |states[i + 1].accepted| == |states[i].accepted| + 1
    ensures states[i + 1].accepted[|states[i].accepted|].returned <= states[i + 1].stored.value
  {
    RunsAreSound(states, actions, i);
  }
}
