/** finish_recover's two retried transactions and sweep, run among any other account transactions. */
module RecoveryRuns {
  import opened Options
  import opened Accounts

  predicate RevokesFor(e: Event, r: nat) {
    e.TokensRevoked? && e.kind.RecoveryPass? && e.kind.recovery == r
  }

  predicate StoresFor(e: Event, r: nat) {
    e.PasskeyAdded? && e.origin.Recovering? && e.origin.recovery == r
  }

  function Revocations(log: seq<Event>, r: nat): nat {
    if log == [] then 0
    else Revocations(log[..|log| - 1], r) + if RevokesFor(log[|log| - 1], r) then 1 else 0
  }

  function StoredPasskeys(log: seq<Event>, r: nat): nat {
    if log == [] then 0
    else StoredPasskeys(log[..|log| - 1], r) + if StoresFor(log[|log| - 1], r) then 1 else 0
  }

  /** How many of its first-pass revocations and passkeys a recovery in this phase has committed. */
  function Committed(phase: Phase): (nat, nat) {
    match phase
    case Verified => (0, 0)
    case Revoking => (0, 0)
    case Revoked => (1, 0)
    case Storing => (1, 0)
    case Stored => (1, 1)
    case Sweeping => (1, 1)
    case Finished => (1, 1)
    case Failed(revoked) => if revoked then (1, 0) else (0, 0)
  }

  /** The transaction carries out an attempt the recovery is in the middle of. */
  ghost predicate Belongs(s: State, p: Program) {
    RecoveryOf(p).Some? ==>
      && RecoveryOf(p).value in s.recoveries
      && s.recoveries[RecoveryOf(p).value].phase == PhaseDuring(p)
      && s.recoveries[RecoveryOf(p).value].attempts >= 1
      && (if p.Store? then p.user == s.recoveries[RecoveryOf(p).value].user && p.credential == s.recoveries[RecoveryOf(p).value].credential
          else p.kind.owner == s.recoveries[RecoveryOf(p).value].user)
  }

  /** A recovery has at most one transaction open at a time. */
  ghost predicate OneAttemptAtATime(s: State) {
    forall t, o :: t in s.txns && o in s.txns && t != o && RecoveryOf(s.txns[t]).Some? ==>
      RecoveryOf(s.txns[t]) != RecoveryOf(s.txns[o])
  }

  predicate WithinBudget(rec: Recovery) {
    && rec.attempts <= MAX_RECOVERY_ATTEMPTS
    && (rec.phase.Verified? || rec.phase.Revoked? || rec.phase.Stored? ==> rec.attempts < MAX_RECOVERY_ATTEMPTS)
  }

  ghost predicate Accounted(s: State, r: nat) {
    if r in s.recoveries then
      && WithinBudget(s.recoveries[r])
      && (Revocations(s.log, r), StoredPasskeys(s.log, r)) == Committed(s.recoveries[r].phase)
    else Revocations(s.log, r) == 0 == StoredPasskeys(s.log, r)
  }

  /** Whatever a recovery logged is about its own account and credential, and the passkey comes
      after the revocation. */
  ghost predicate LogMatches(s: State) {
    forall k :: 0 <= k < |s.log| ==> EventMatches(s, s.log[k], s.log[..k])
  }

  ghost predicate EventMatches(s: State, e: Event, earlier: seq<Event>) {
    && (e.TokensRevoked? && e.kind.RecoveryPass? ==>
          e.kind.recovery in s.recoveries && e.kind.owner == s.recoveries[e.kind.recovery].user)
    && (e.PasskeyAdded? && e.origin.Recovering? ==>
          var r := e.origin.recovery;
          && r in s.recoveries
          && e.user == s.recoveries[r].user && e.credential == s.recoveries[r].credential
          && Revocations(earlier, r) == 1)
  }

  ghost predicate RecoveriesSound(s: State) {
    && (forall t :: t in s.txns ==> Belongs(s, s.txns[t]))
    && OneAttemptAtATime(s)
    && (forall r :: Accounted(s, r))
    && LogMatches(s)
  }

  predicate SameRecovery(s: State, s': State, r: nat) {
    if r in s.recoveries then r in s'.recoveries && s'.recoveries[r] == s.recoveries[r] else r !in s'.recoveries
  }

  lemma AccountedFrame(s: State, s': State, r: nat)
    requires Accounted(s, r) && s'.log == s.log && SameRecovery(s, s', r)
    ensures Accounted(s', r)
  {
  }

  lemma AccountedAppend(s: State, s': State, e: Event, r: nat)
    requires Accounted(s, r) && SameRecovery(s, s', r)
    requires s'.log == s.log + [e] && !RevokesFor(e, r) && !StoresFor(e, r)
    ensures Accounted(s', r)
  {
    AppendAccounts(s.log, e, r);
  }

  lemma BeginKeepsAccounts(s: State, t: nat, p: Program, r: nat)
    requires RecoveriesSound(s) && Enabled(s, Begin(t, p))
    ensures Accounted(Do(s, Begin(t, p)), r)
  {
    assert Accounted(s, r);
    if RecoveryOf(p) != Some(r) {
      AccountedFrame(s, Do(s, Begin(t, p)), r);
    }
  }

  lemma BeginKeepsRecoveries(s: State, t: nat, p: Program)
    requires RecoveriesSound(s) && Enabled(s, Begin(t, p))
    ensures RecoveriesSound(Do(s, Begin(t, p)))
  {
    var s' := Do(s, Begin(t, p));
    forall r ensures Accounted(s', r) {
      BeginKeepsAccounts(s, t, p, r);
    }
    forall o | o in s'.txns ensures Belongs(s', s'.txns[o]) {
      assert o != t ==> Belongs(s, s.txns[o]);
    }
  }

  lemma EndKeepsAccounts(s: State, t: nat, retryable: bool, r: nat)
    requires RecoveriesSound(s) && Enabled(s, Abort(t, retryable))
    ensures Accounted(Do(s, Abort(t, retryable)), r)
  {
    assert Accounted(s, r) && Belongs(s, s.txns[t]);
    if RecoveryOf(s.txns[t]) != Some(r) {
      AccountedFrame(s, Do(s, Abort(t, retryable)), r);
    }
  }

  lemma EndKeepsRecoveries(s: State, t: nat, retryable: bool)
    requires RecoveriesSound(s) && Enabled(s, Abort(t, retryable))
    ensures RecoveriesSound(Do(s, Abort(t, retryable)))
  {
    var s' := Do(s, Abort(t, retryable));
    forall r ensures Accounted(s', r) {
      EndKeepsAccounts(s, t, retryable, r);
    }
    forall o | o in s'.txns ensures Belongs(s', s'.txns[o]) {
      assert Belongs(s, s.txns[o]);
    }
  }

  lemma AppendAccounts(log: seq<Event>, e: Event, r: nat)
    ensures Revocations(log + [e], r) == Revocations(log, r) + if RevokesFor(e, r) then 1 else 0
    ensures StoredPasskeys(log + [e], r) == StoredPasskeys(log, r) + if StoresFor(e, r) then 1 else 0
  {
    assert (log + [e])[..|log|] == log;
  }

  /** The committed transaction's own recovery moves to its next phase with what that phase accounts for. */
  lemma CommitKeepsOwnAccount(s: State, t: nat, r: nat)
    requires RecoveriesSound(s) && Enabled(s, Commit(t)) && RecoveryOf(s.txns[t]) == Some(r)
    ensures Accounted(Do(s, Commit(t)), r)
  {
    assert Belongs(s, s.txns[t]) && Accounted(s, r);
    AppendAccounts(s.log, Published(s.txns[t]), r);
  }

  lemma PublishedIsOwn(p: Program, r: nat)
    requires CanCommit(p) && RecoveryOf(p) != Some(r)
    ensures !RevokesFor(Published(p), r) && !StoresFor(Published(p), r)
  {
  }

  lemma CommitKeepsOtherAccounts(s: State, t: nat, r: nat)
    requires Accounted(s, r) && Enabled(s, Commit(t)) && RecoveryOf(s.txns[t]) != Some(r)
    ensures Accounted(Do(s, Commit(t)), r)
  {
    PublishedIsOwn(s.txns[t], r);
    AccountedAppend(s, Do(s, Commit(t)), Published(s.txns[t]), r);
  }

  lemma CommitKeepsAccounts(s: State, t: nat)
    requires RecoveriesSound(s) && Enabled(s, Commit(t))
    ensures forall r :: Accounted(Do(s, Commit(t)), r)
  {
    forall r: nat ensures Accounted(Do(s, Commit(t)), r) {
      assert Accounted(s, r);
      if RecoveryOf(s.txns[t]) == Some(r) {
        CommitKeepsOwnAccount(s, t, r);
      } else {
        CommitKeepsOtherAccounts(s, t, r);
      }
    }
  }

  lemma CommitKeepsLog(s: State, t: nat)
    requires RecoveriesSound(s) && Enabled(s, Commit(t))
    ensures LogMatches(Do(s, Commit(t)))
  {
    var p, s' := s.txns[t], Do(s, Commit(t));
    assert Belongs(s, p);
    if p.Store? && p.origin.Recovering? {
      assert Accounted(s, p.origin.recovery);
    }
    assert EventMatches(s', Published(p), s.log);
    forall k | 0 <= k < |s'.log| ensures EventMatches(s', s'.log[k], s'.log[..k]) {
      if k < |s.log| {
        assert EventMatches(s, s.log[k], s.log[..k]);
        assert s'.log[..k] == s.log[..k];
      } else {
        assert s'.log[..k] == s.log;
      }
    }
  }

  lemma CommitKeepsRecoveries(s: State, t: nat)
    requires RecoveriesSound(s) && Enabled(s, Commit(t))
    ensures RecoveriesSound(Do(s, Commit(t)))
  {
    CommitKeepsAccounts(s, t);
    CommitKeepsLog(s, t);
  }

  /** Statements do not change what a transaction is an attempt at. */
  predicate SameAttempt(p: Program, q: Program) {
    && RecoveryOf(p) == RecoveryOf(q)
    && p.Store? == q.Store?
    && (p.Store? ==> p.user == q.user && p.credential == q.credential)
    && (p.TokenWriter? && q.TokenWriter? ==> p.kind == q.kind)
  }

  lemma StatementsKeepAttempt(rules: EmailRules, db: Tables, p: Program)
    ensures Granted(db, p).Some? ==> SameAttempt(p, Granted(db, p).value)
    ensures Advanced(rules, db, p).Some? ==> SameAttempt(p, Advanced(rules, db, p).value)
  {
  }

  lemma StatementKeepsRecoveries(s: State, t: nat, q: Program)
    requires RecoveriesSound(s) && t in s.txns && SameAttempt(s.txns[t], q)
    ensures RecoveriesSound(s.(txns := s.txns[t := q]))
  {
    var s' := s.(txns := s.txns[t := q]);
    forall r ensures Accounted(s', r) {
      assert Accounted(s, r);
    }
    forall o | o in s'.txns ensures Belongs(s', s'.txns[o]) {
      assert Belongs(s, s.txns[o]);
    }
  }

  lemma StepKeepsRecoveries(s: State, a: Action)
    requires RecoveriesSound(s) && Enabled(s, a)
    ensures RecoveriesSound(Do(s, a))
  {
    match a
    case Verify(r, _, _) =>
      forall x ensures Accounted(Do(s, a), x) {
        assert Accounted(s, x);
      }
    case Begin(t, p) => BeginKeepsRecoveries(s, t, p);
    case Ask(t, l) => StatementKeepsRecoveries(s, t, s.txns[t].(ask := Some(l)));
    case Acquire(t) =>
      StatementsKeepAttempt(s.rules, s.db, s.txns[t]);
      StatementKeepsRecoveries(s, t, Granted(s.db, s.txns[t]).value);
    case Advance(t) =>
      StatementsKeepAttempt(s.rules, s.db, s.txns[t]);
      StatementKeepsRecoveries(s, t, Advanced(s.rules, s.db, s.txns[t]).value);
    case Commit(t) => CommitKeepsRecoveries(s, t);
    case Abort(t, retryable) => EndKeepsRecoveries(s, t, retryable);
  }

  lemma {:induction false} RunsKeepRecoveries(states: seq<State>, actions: seq<Action>, i: nat)
    requires IsRun(states, actions) && Quiet(states[0]) && i <= |actions|
    ensures RecoveriesSound(states[i])
  {
    if i > 0 {
      RunsKeepRecoveries(states, actions, i - 1);
      StepKeepsRecoveries(states[i - 1], actions[i - 1]);
    }
  }

  // ---------------------------------------------------------------- one attempt

  /** The first pass, the store or the sweep of recovery r, of its own account. */
  predicate Attempt(p: Program, r: nat, rec: Recovery) {
    || (p.TokenWriter? && (p.kind == RecoveryPass(rec.user, r) || p.kind == RecoverySweep(rec.user, r)))
    || (p.Store? && p.user == rec.user && p.credential == rec.credential && p.origin == Recovering(r))
  }

  /** What an attempt's commit or abort does to its recovery: on to the next phase, or back for another try
      after a retryable failure within five, or stopped. A sweep stops it either way. */
  predicate MovesOn(before: Recovery, after: Recovery, p: Program, a: Action) {
    && after.user == before.user && after.credential == before.credential
    && after.attempts == (if a.Commit? then 0 else before.attempts)
    && after.phase ==
       if p.TokenWriter? && p.kind.RecoverySweep? then Finished
       else if a.Commit? then (if p.Store? then Stored else Revoked)
       else if a.Abort? && a.retryable && before.attempts < 5 then (if p.Store? then Revoked else Verified)
       else Failed(p.Store?)
  }

  lemma AttemptEnds(s: State, a: Action, r: nat)
    requires RecoveriesSound(s) && Enabled(s, a) && (a.Commit? || a.Abort?) && RecoveryOf(s.txns[a.txn]) == Some(r)
    ensures r in s.recoveries && r in Do(s, a).recoveries && Attempt(s.txns[a.txn], r, s.recoveries[r])
    ensures MovesOn(s.recoveries[r], Do(s, a).recoveries[r], s.txns[a.txn], a)
    ensures forall q :: q != r ==> SameRecovery(s, Do(s, a), q)
  {
    assert Belongs(s, s.txns[a.txn]);
  }

  lemma OthersMoveNoRecovery(s: State, a: Action, r: nat)
    requires Enabled(s, a) && r in s.recoveries
    requires a.Commit? || a.Abort? ==> RecoveryOf(s.txns[a.txn]) != Some(r)
    requires a.Begin? ==> RecoveryOf(a.program) != Some(r)
    ensures SameRecovery(s, Do(s, a), r)
  {
  }

  lemma AttemptBegins(s: State, t: nat, p: Program, r: nat)
    requires Enabled(s, Begin(t, p)) && RecoveryOf(p) == Some(r)
    ensures r in s.recoveries && Attempt(p, r, s.recoveries[r])
    ensures var (before, after) := (s.recoveries[r], Do(s, Begin(t, p)).recoveries[r]);
            && after.user == before.user && after.credential == before.credential && after.attempts == before.attempts + 1
            && (before.phase, after.phase) ==
               if p.Store? then (Revoked, Storing) else if p.kind.RecoveryPass? then (Verified, Revoking) else (Stored, Sweeping)
  {
  }

  /** In every run a recovery moves only by the begin, the commit or the abort of one of its own attempts. */
  lemma RecoveriesMoveByAttempts(states: seq<State>, actions: seq<Action>, i: nat, r: nat)
    requires IsRun(states, actions) && Quiet(states[0]) && i < |actions| && r in states[i].recoveries
    ensures r in states[i + 1].recoveries
    ensures states[i + 1].recoveries[r] != states[i].recoveries[r] ==>
              var (before, after) := (states[i].recoveries[r], states[i + 1].recoveries[r]);
              match actions[i]
              case Begin(_, p) =>
                && Attempt(p, r, before) && after.attempts == before.attempts + 1
                && (before.phase, after.phase) ==
                   if p.Store? then (Revoked, Storing) else if p.kind.RecoveryPass? then (Verified, Revoking) else (Stored, Sweeping)
              case Commit(t) =>
                t in states[i].txns && Attempt(states[i].txns[t], r, before) && MovesOn(before, after, states[i].txns[t], actions[i])
              case Abort(t, _) =>
                t in states[i].txns && Attempt(states[i].txns[t], r, before) && MovesOn(before, after, states[i].txns[t], actions[i])
              case _ => false
  {
    RunsKeepRecoveries(states, actions, i);
    var s, a := states[i], actions[i];
    if (a.Commit? || a.Abort?) && RecoveryOf(s.txns[a.txn]) == Some(r) {
      AttemptEnds(s, a, r);
    } else if a.Begin? && RecoveryOf(a.program) == Some(r) {
      AttemptBegins(s, a.txn, a.program, r);
    } else {
      OthersMoveNoRecovery(s, a, r);
    }
  }

  /** However its transactions are interleaved with others and aborted, a recovery that has stopped
      has committed one of three things: nothing, its revocation alone, or its revocation and exactly
      one passkey; and no phase was attempted more than five times. */
  lemma RecoveryOutcomes(states: seq<State>, actions: seq<Action>, i: nat, r: nat)
    requires IsRun(states, actions) && Quiet(states[0]) && i <= |actions| && r in states[i].recoveries
    ensures states[i].recoveries[r].attempts <= 5
    ensures var done := (Revocations(states[i].log, r), StoredPasskeys(states[i].log, r));
            match states[i].recoveries[r].phase
            case Failed(revoked) => done == if revoked then (1, 0) else (0, 0)
            case Finished => done == (1, 1)
            case _ => done.1 <= done.0 <= 1
  {
    RunsKeepRecoveries(states, actions, i);
    assert Accounted(states[i], r);
  }

  /** A recovery passkey is only ever stored, for the recovering account, after exactly one
      revocation of that account's tokens by the same recovery has committed. */
  lemma NoStoreBeforeRevocation(states: seq<State>, actions: seq<Action>, i: nat, k: nat)
    requires IsRun(states, actions) && Quiet(states[0]) && i <= |actions| && k < |states[i].log|
    requires states[i].log[k].PasskeyAdded? && states[i].log[k].origin.Recovering?
    ensures exists j :: 0 <= j < k && states[i].log[j] ==
              TokensRevoked(RecoveryPass(states[i].log[k].user, states[i].log[k].origin.recovery))
  {
    RunsKeepRecoveries(states, actions, i);
    var log, r := states[i].log, states[i].log[k].origin.recovery;
    assert EventMatches(states[i], log[k], log[..k]);
    var j := FindRevocation(log[..k], r);
    assert EventMatches(states[i], log[j], log[..j]);
  }

  lemma {:induction false} FindRevocation(log: seq<Event>, r: nat) returns (j: nat)
    requires Revocations(log, r) > 0
    ensures j < |log| && RevokesFor(log[j], r)
  {
    j := |log| - 1;
    if !RevokesFor(log[j], r) {
      j := FindRevocation(log[..j], r);
    }
  }
}
