/** One service call with nobody else about is a run of the transition system, and every call can begin at any
    time. */
module SoloRuns {
  import opened Options
  import opened Locks
  import opened Accounts
  import opened AccountService
  import opened SignupProgress

  /** Whatever transactions are open, any call can open one more; a recovery's own only in their phases. */
  lemma CallsCanBegin(s: State, t: nat, u: nat, c: nat, r: nat, username: string, email: string)
    requires t !in s.txns
    ensures Enabled(s, Begin(t, Store(u, c, Registering, Entering)))
    ensures Enabled(s, Begin(t, Delete(u, c, DelEntering))) && Enabled(s, Begin(t, RemovePassword(u, RemEntering)))
    ensures Enabled(s, Begin(t, ResetPassword(u, false))) && Enabled(s, Begin(t, Assertion(c, false)))
    ensures Enabled(s, Begin(t, PasskeySignup(u, username, email, c, KeyWanted)))
    ensures Enabled(s, Begin(t, PasswordSignup(u, username, email, KeyWanted)))
    ensures Enabled(s, Begin(t, TokenWriter(RevokeAll(u), [u], {}, {}, {}, None)))
    ensures Enabled(s, Begin(t, Store(u, c, Recovering(r), Entering))) <==>
              r in s.recoveries && s.recoveries[r].user == u && s.recoveries[r].credential == c && s.recoveries[r].phase == Revoked
    ensures Enabled(s, Begin(t, TokenWriter(RecoveryPass(u, r), [u], {}, {}, {}, None))) <==>
              r in s.recoveries && s.recoveries[r].user == u && s.recoveries[r].phase == Verified
    ensures Enabled(s, Begin(t, TokenWriter(RecoverySweep(u, r), [u], {}, {}, {}, None))) <==>
              r in s.recoveries && s.recoveries[r].user == u && s.recoveries[r].phase == Stored
  {
  }

  /** A hook that holds its keys may touch any row of an owner it locked, and share the owner's user row after. */
  lemma HookReachesItsOwners(s: State, t: nat, u: nat, row: nat)
    requires t in s.txns && s.txns[t].TokenWriter? && s.txns[t].kind == ValidatorHook
    requires s.txns[t].todo == [] && s.txns[t].ask == None && u in s.txns[t].got
    ensures s.txns[t].shares == {} ==> Enabled(s, Ask(t, Lock(OAuthRow(u, row), Update)))
    ensures Enabled(s, Ask(t, Lock(UserRow(u), KeyShare)))
  {
  }

  lemma AloneIsGranted(s: State, t: nat)
    requires s.txns.Keys == {t} && Wants(s.rules, s.txns[t]).Some?
    ensures Grantable(s, t)
  {
  }

  /** Its next statement is the next one of the call run alone. */
  lemma StepAlone(s: State, t: nat) returns (a: Action)
    requires s.txns.Keys == {t} && !s.txns[t].TokenWriter? && !CanCommit(s.txns[t])
    requires RunAlone(s.rules, s.db, s.txns[t]).Some?
    ensures Enabled(s, a)
    ensures var s' := Do(s, a);
            && s'.rules == s.rules && s'.db == s.db && s'.txns.Keys == {t} && !s'.txns[t].TokenWriter?
            && RunAlone(s.rules, s.db, s'.txns[t]) == RunAlone(s.rules, s.db, s.txns[t])
            && Remaining(s'.txns[t]) < Remaining(s.txns[t])
  {
    if Wants(s.rules, s.txns[t]).Some? {
      AloneIsGranted(s, t);
      a := Acquire(t);
    } else {
      a := Advance(t);
    }
  }

  lemma {:induction false} FinishAlone(s0: State, s: State, t: nat) returns (s': State)
    requires Reaches(s0, s) && s.txns.Keys == {t} && !s.txns[t].TokenWriter?
    requires RunAlone(s.rules, s.db, s.txns[t]).Some?
    ensures Reaches(s0, s') && s'.txns == map[] && s'.db == RunAlone(s.rules, s.db, s.txns[t]).value
    decreases Remaining(s.txns[t])
  {
    if CanCommit(s.txns[t]) {
      ReachesNext(s0, s, Commit(t));
      s' := Do(s, Commit(t));
    } else {
      var a := StepAlone(s, t);
      ReachesNext(s0, s, a);
      s' := FinishAlone(s0, Do(s, a), t);
    }
  }

  /** Whatever a call run alone commits, the system can commit: begun where no transaction is open, it reaches
      a state with those tables and again no open transaction. */
  lemma SoloCallIsARun(s: State, t: nat, p: Program) returns (s': State)
    requires s.txns == map[] && Enabled(s, Begin(t, p)) && !p.TokenWriter? && RunAlone(s.rules, s.db, p).Some?
    ensures Reaches(s, s') && s'.txns == map[] && s'.db == RunAlone(s.rules, s.db, p).value
  {
    ReachesSelf(s);
    ReachesNext(s, s, Begin(t, p));
    s' := FinishAlone(s, Do(s, Begin(t, p)), t);
  }

  /** A revocation takes its owner's key, deletes any of the owner's rows, and commits. */
  lemma SoloRevocationIsARun(s: State, t: nat, u: nat, row: nat) returns (s': State)
    requires s.txns == map[]
    ensures Reaches(s, s') && s'.txns == map[] && s'.db == s.db && s'.log == s.log + [TokensRevoked(RevokeAll(u))]
  {
    var p := TokenWriter(RevokeAll(u), [u], {}, {}, {}, None);
    ReachesSelf(s);
    ReachesNext(s, s, Begin(t, p));
    var s1 := Do(s, Begin(t, p));
    AloneIsGranted(s1, t);
    ReachesNext(s, s1, Acquire(t));
    var s2 := Do(s1, Acquire(t));
    assert s2.txns[t] == TokenWriter(RevokeAll(u), [], {u}, {}, {}, None);
    s' := FinishRevocation(s, s2, t, u, row);
  }

  lemma FinishRevocation(s0: State, s: State, t: nat, u: nat, row: nat) returns (s': State)
    requires Reaches(s0, s) && s.txns == map[t := TokenWriter(RevokeAll(u), [], {u}, {}, {}, None)]
    ensures Reaches(s0, s') && s'.txns == map[] && s'.db == s.db && s'.log == s.log + [TokensRevoked(RevokeAll(u))]
  {
    var l := Lock(OAuthRow(u, row), Update);
    ReachesNext(s0, s, Ask(t, l));
    var s1 := Do(s, Ask(t, l));
    AloneIsGranted(s1, t);
    ReachesNext(s0, s1, Acquire(t));
    var s2 := Do(s1, Acquire(t));
    assert Holds(s2.rules, s2.txns[t], l);
    ReachesNext(s0, s2, Commit(t));
    s' := Do(s2, Commit(t));
  }
}
