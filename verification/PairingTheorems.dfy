/** The pairing protocol's promises over whole runs, with the runs that mark their limits. */
module PairingTheorems {
  import opened Options
  import opened Pairings
  import opened PairingRuns
  import opened TokenSweep

  // ---------------------------------------------------------------- one decision, one answer

  /** Of all the polls of a device code, in any run, at most one is told approved or denied. */
  lemma OneAnswerPerDevice(states: seq<State>, actions: seq<Action>, i: nat, p: nat, j: nat, k: nat)
    requires IsRun(states, actions) && Quiet(states[0]) && i <= |actions|
    requires j < |states[i].log| && Answers(states[i].log[j], p)
    requires k < |states[i].log| && Answers(states[i].log[k], p)
    ensures j == k
  {
    RunsKeepTokens(states, actions, i);
  }

  /** An approved answer comes from a poll begun before expiry and names the user of the one approval
      of that pairing, which came earlier and was its only decision. */
  lemma ApprovedAnswerNamesApprover(states: seq<State>, actions: seq<Action>, i: nat, k: nat) returns (j: nat)
    requires IsRun(states, actions) && Quiet(states[0]) && i <= |actions|
    requires k < |states[i].log| && states[i].log[k].AnsweredApproved?
    ensures states[i].log[k].at < states[i].log[k].expires
    ensures j < k && states[i].log[j] == WasApproved(states[i].log[k].device, states[i].log[k].user)
    ensures forall d :: 0 <= d < |states[i].log| && Decides(states[i].log[d], states[i].log[k].device) ==> d == j
  {
    RunsKeepTokens(states, actions, i);
    var s := states[i];
    assert EventHolds(s, s.log[k]);
    j :| 0 <= j < k && s.log[j] == WasApproved(s.log[k].device, s.log[k].user);
    assert Decides(s.log[j], s.log[k].device);
  }

  lemma {:induction false} EventsStay(states: seq<State>, actions: seq<Action>, i: nat, j: nat, e: Event)
    requires IsRun(states, actions) && i <= j <= |actions| && e in states[i].log
    ensures e in states[j].log
    decreases j
  {
    if i < j {
      EventsStay(states, actions, i, j - 1, e);
      assert states[j] == Do(states[j - 1], actions[j - 1]);
    }
  }

  /** Once approved or denied, a pairing never has another status or another user; it can only go. */
  lemma DecisionIsFinal(states: seq<State>, actions: seq<Action>, i: nat, j: nat, p: nat)
    requires IsRun(states, actions) && Quiet(states[0]) && i <= j <= |actions|
    requires p in states[i].rows && !states[i].rows[p].status.Pending?
    ensures p in states[j].rows ==>
              states[j].rows[p].status == states[i].rows[p].status && states[j].rows[p].user == states[i].rows[p].user
  {
    RunsKeepTokens(states, actions, i);
    RunsKeepTokens(states, actions, j);
    var row := states[i].rows[p];
    assert Backed(states[i].log, p, row) && WellFormed(row);
    var e := if row.status.Approved? then WasApproved(p, row.user.value) else WasDenied(p);
    EventsStay(states, actions, i, j, e);
    assert EventHolds(states[j], e);
    assert p in states[j].rows ==> WellFormed(states[j].rows[p]);
  }

  // ---------------------------------------------------------------- two passes are enough

  /** A pairing delete that has started belongs to one transaction, which covers every approval of
      its user logged before the start. */
  ghost predicate StartHolds(s: State, k: nat)
    requires k < |s.log|
  {
    s.log[k].PairingDeleteStarted? ==>
      var t, u := s.log[k].txn, s.log[k].user;
      && t in s.used
      && (t in s.txns ==> s.txns[t].Revoke? && s.txns[t].revoke.Deleting? && s.txns[t].user == u
                          && ApprovedFor(s.log[..k], u) <= s.txns[t].revoke.covered)
      && (t in s.passes ==> s.passes[t].user == u && ApprovedFor(s.log[..k], u) <= s.passes[t].covered)
  }

  ghost predicate StartsHold(s: State) {
    && (forall t :: t in s.txns ==> t in s.used && t !in s.passes)
    && s.passes.Keys <= s.used
    && forall k :: 0 <= k < |s.log| ==> StartHolds(s, k)
  }

  lemma StatementKeepsStart(s: State, a: Action, k: nat)
    requires StartsHold(s) && Enabled(s, a) && k < |s.log| && !a.Commit?
    ensures Do(s, a).log[..k] == s.log[..k] && StartHolds(Do(s, a), k)
  {
    assert StartHolds(s, k);
    var s' := Do(s, a);
    assert s'.log[..k] == s.log[..k];
    if s.log[k].PairingDeleteStarted? && s.log[k].txn in s'.txns {
      assert s.log[k].txn in s.txns;
    }
  }

  lemma CommitKeepsStart(s: State, t: nat, k: nat)
    requires StartsHold(s) && Enabled(s, Commit(t)) && k < |s.log|
    ensures Do(s, Commit(t)).log[..k] == s.log[..k] && StartHolds(Do(s, Commit(t)), k)
  {
    assert StartHolds(s, k);
    assert Do(s, Commit(t)).log[..k] == s.log[..k];
  }

  lemma StepKeepsStarts(s: State, a: Action)
    requires StartsHold(s) && Enabled(s, a)
    ensures StartsHold(Do(s, a))
  {
    var s' := Do(s, a);
    forall k | 0 <= k < |s'.log| ensures StartHolds(s', k) {
      if k < |s.log| {
        if a.Commit? {
          CommitKeepsStart(s, a.txn, k);
        } else {
          StatementKeepsStart(s, a, k);
        }
      } else {
        assert s'.log[..k] == s.log;
      }
    }
  }

  lemma {:induction false} RunsKeepStarts(states: seq<State>, actions: seq<Action>, i: nat)
    requires IsRun(states, actions) && Quiet(states[0]) && i <= |actions|
    ensures StartsHold(states[i])
  {
    if i > 0 {
      RunsKeepStarts(states, actions, i - 1);
      StepKeepsStarts(states[i - 1], actions[i - 1]);
    }
  }

  /** Let `first` be a committed revocation and `sweep` a committed one that followed it. No key ever
      handed out for a pairing approved before first's pairing delete started is a token any more,
      under every interleaving of approvals, polls, logins, logouts and other revocations. */
  lemma SweepLeavesNoEarlierKey(
      states: seq<State>, actions: seq<Action>, i: nat, first: nat, sweep: nat, approved: nat, started: nat, answered: nat)
    requires IsRun(states, actions) && Quiet(states[0]) && i <= |actions|
    requires first in states[i].passes && sweep in states[i].passes && states[i].passes[sweep].follows == Some(first)
    requires approved < started < |states[i].log| && answered < |states[i].log|
    requires states[i].log[started] == PairingDeleteStarted(first, states[i].passes[first].user)
    requires states[i].log[answered].AnsweredApproved?
    requires states[i].log[approved] == WasApproved(states[i].log[answered].device, states[i].passes[first].user)
    ensures states[i].log[answered].key !in states[i].tokens.Values
  {
    RunsKeepTokens(states, actions, i);
    RunsKeepStarts(states, actions, i);
    var s := states[i];
    var before := s.log[..started];
    assert before[approved] == s.log[approved];
    ApprovedForIsLogged(before, s.passes[first].user, s.log[answered].device);
    assert StartHolds(s, started);
    assert SweptClean(s, s.passes[sweep]);
    assert s.log[answered] in s.log;
  }

  // ---------------------------------------------------------------- the limits, by example

  ghost predicate Reachable(s: State) {
    exists states, actions :: IsRun(states, actions) && Quiet(states[0]) && states[|actions|] == s
  }

  lemma Start(s: State)
    requires Quiet(s)
    ensures Reachable(s)
  {
    assert IsRun([s], []);
  }

  lemma Then(s: State, a: Action, s': State)
    requires Reachable(s) && Enabled(s, a) && s' == Do(s, a)
    ensures Reachable(s')
  {
    var states, actions :| IsRun(states, actions) && Quiet(states[0]) && states[|actions|] == s;
    var longer, more := states + [s'], actions + [a];
    forall i {:trigger more[i]} | 0 <= i < |more|
      ensures Enabled(longer[i], more[i]) && longer[i + 1] == Do(longer[i], more[i])
    {
      if i < |actions| {
        assert longer[i] == states[i] && longer[i + 1] == states[i + 1] && more[i] == actions[i];
      }
    }
    assert IsRun(longer, more);
  }

  predicate Moves(s: State, a: Action, s': State) {
    Enabled(s, a) && s' == Do(s, a)
  }

  lemma ThenTwo(s: State, a: Action, s1: State, b: Action, s2: State)
    requires Reachable(s) && Moves(s, a, s1) && Moves(s1, b, s2)
    ensures Reachable(s2)
  {
    Then(s, a, s1);
    Then(s1, b, s2);
  }

  /** User 5's approved pairing 1. */
  const PAIRING := Row(7, Approved, Some(5), 600)

  /** Pairing 1 is approved; the given tokens and transactions exist. */
  function Scene(tokens: map<nat, nat>, minted: set<nat>, used: set<nat>, txns: map<nat, Txn>): State {
    State(0, map[1 := PAIRING], tokens, {1}, minted, used, txns, map[], [WasApproved(1, 5)])
  }

  lemma ApprovedScene()
    ensures Reachable(Scene(map[], {}, {}, map[]))
  {
    var empty := State(0, map[], map[], {}, {}, {}, map[], map[], []);
    var created := empty.(rows := map[1 := Row(7, Pending, None, 600)], issued := {1});
    Start(empty);
    ThenTwo(empty, Create(1, 7, 600), created, Approve(1, 5), Scene(map[], {}, {}, map[]));
  }

  lemma PollHoldsRow()
    ensures Reachable(Scene(map[], {}, {10}, map[10 := Redeem(1, 0, Held(PAIRING))]))
  {
    ApprovedScene();
    ThenTwo(Scene(map[], {}, {}, map[]),
            BeginRedeem(10, 1), Scene(map[], {}, {10}, map[10 := Redeem(1, 0, Waiting)]),
            Select(10), Scene(map[], {}, {10}, map[10 := Redeem(1, 0, Held(PAIRING))]));
  }

  /** A poll that holds the pairing's row and found no token for its user. */
  const POLL := Redeem(1, 0, Missing(PAIRING))

  lemma PollFoundNoToken()
    ensures Reachable(Scene(map[], {}, {10}, map[10 := POLL]))
  {
    PollHoldsRow();
    Then(Scene(map[], {}, {10}, map[10 := Redeem(1, 0, Held(PAIRING))]), GetToken(10),
         Scene(map[], {}, {10}, map[10 := POLL]));
  }

  /** Meanwhile a revocation for the same user takes its key. */
  lemma RevocationEnters(tokens: map<nat, nat>, minted: set<nat>)
    requires Reachable(Scene(tokens, minted, {10}, map[10 := POLL]))
    ensures Reachable(Scene(tokens, minted, {10, 20}, map[10 := POLL, 20 := Revoke(5, None, HasKey)]))
  {
    ThenTwo(Scene(tokens, minted, {10}, map[10 := POLL]),
            BeginRevoke(20, 5, None), Scene(tokens, minted, {10, 20}, map[10 := POLL, 20 := Revoke(5, None, WantsKey)]),
            TakeKey(20), Scene(tokens, minted, {10, 20}, map[10 := POLL, 20 := Revoke(5, None, HasKey)]));
  }

  lemma SnapshotOfScene(s: State)
    requires s.log == [WasApproved(1, 5)] && s.rows == map[1 := PAIRING]
    ensures ApprovedFor(s.log, 5) == {1} == OwnedBy(s.rows, 5)
  {
    assert forall p :: p in ApprovedFor(s.log, 5) ==> p == 1;
    assert s.log[0].device in ApprovedFor(s.log, 5);
  }

  lemma TokenDeleteFindsNothing()
    ensures Reachable(Scene(map[], {}, {10, 20}, map[10 := POLL, 20 := Revoke(5, None, TokensDeleted(false))]))
  {
    PollFoundNoToken();
    RevocationEnters(map[], {});
    Then(Scene(map[], {}, {10, 20}, map[10 := POLL, 20 := Revoke(5, None, HasKey)]), DeleteTokens(20),
         Scene(map[], {}, {10, 20}, map[10 := POLL, 20 := Revoke(5, None, TokensDeleted(false))]));
  }

  const INSERTED := Redeem(1, 0, Keyed(PAIRING, 99, true))

  lemma PollInsertsBehindTokenDelete()
    ensures Reachable(Scene(map[], {99}, {10, 20}, map[10 := INSERTED, 20 := Revoke(5, None, TokensDeleted(false))]))
  {
    TokenDeleteFindsNothing();
    Then(Scene(map[], {}, {10, 20}, map[10 := POLL, 20 := Revoke(5, None, TokensDeleted(false))]), InsertToken(10, 99),
         Scene(map[], {99}, {10, 20}, map[10 := INSERTED, 20 := Revoke(5, None, TokensDeleted(false))]));
  }

  const DELETING := Revoke(5, None, Deleting(false, {1}, {1}, {}))

  const LATE_ANSWER := [WasApproved(1, 5), PairingDeleteStarted(20, 5), AnsweredApproved(1, 5, 99, 0, 600)]

  lemma PollAnswersFirst()
    ensures Reachable(State(0, map[], map[5 := 99], {1}, {99}, {10, 20}, map[20 := DELETING], map[], LATE_ANSWER))
  {
    PollInsertsBehindTokenDelete();
    var s := Scene(map[], {99}, {10, 20}, map[10 := INSERTED, 20 := Revoke(5, None, TokensDeleted(false))]);
    SnapshotOfScene(s);
    ThenTwo(s, StartPairingDelete(20), s.(txns := s.txns[20 := DELETING], log := LATE_ANSWER[..2]),
            Commit(10), State(0, map[], map[5 := 99], {1}, {99}, {10, 20}, map[20 := DELETING], map[], LATE_ANSWER));
  }

  /** Without the sweep the claim fails. Here one revocation has committed, and the key redeemed for
      a pairing approved before its pairing delete is a live token afterwards: the redeem already held
      the row, so the revocation's token delete came too early and its pairing delete too late. */
  lemma OnePassIsNotEnough() returns (s: State)
    ensures Reachable(s) && s.txns == map[] && s.passes == map[20 := Pass(5, None, {1}, false)]
    ensures s.log == [WasApproved(1, 5), PairingDeleteStarted(20, 5), AnsweredApproved(1, 5, 99, 0, 600)]
    ensures s.tokens == map[5 := 99]
  {
    PollAnswersFirst();
    var s0 := State(0, map[], map[5 := 99], {1}, {99}, {10, 20}, map[20 := DELETING], map[], LATE_ANSWER);
    s := s0.(txns := map[], passes := map[20 := Pass(5, None, {1}, false)]);
    var s1 := s0.(txns := map[20 := Revoke(5, None, Deleting(false, {1}, {}, {}))]);
    assert Moves(s0, DeletePairing(20, 1), s1) by {
      assert DELETING.revoke.targets - {1} == {};
    }
    assert Moves(s1, Commit(20), s) by {
      assert s1.txns - {20} == map[] && s1.rows - {} == map[];
    }
    ThenTwo(s0, DeletePairing(20, 1), s1, Commit(20), s);
  }
}
