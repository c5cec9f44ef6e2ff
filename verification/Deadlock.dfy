/** Lock safety of the account transactions: conflicting locks are never held together, and no
    reachable state has a cycle of transactions each waiting for the next. */
module Deadlock {
  import opened Options
  import opened Locks
  import opened Accounts

  // ---------------------------------------------------------------- mutual exclusion

  ghost predicate Compatible(rules: EmailRules, p: Program, q: Program) {
    forall g, h :: Holds(rules, p, g) && Holds(rules, q, h) ==> !Conflict(g, h)
  }

  ghost predicate Exclusive(s: State) {
    forall t, o :: t in s.txns && o in s.txns && t != o ==> Compatible(s.rules, s.txns[t], s.txns[o])
  }

  /** A token writer's rows all belong to owners whose advisory key it holds; it asks for nothing
      else until every key is held, and it takes the keys in ascending order. */
  ghost predicate WellOrdered(p: Program) {
    match p
    case TokenWriter(kind, todo, got, rows, shares, ask) =>
      && Ascending(todo)
      && (!kind.ValidatorHook? ==> if todo == [] then got == {kind.owner} else todo == [kind.owner] && got == {})
      && (forall u, i :: u in got && 0 <= i < |todo| ==> u < todo[i])
      && (forall r :: r in rows ==> r.OAuthRow? && r.owner in got)
      && (forall u :: u in shares ==> u in got)
      && (ask.Some? ==> MayAsk(p.(ask := None), ask.value))
      && (shares != {} ==> todo == [])
    case _ => true
  }

  ghost predicate LockSafe(s: State) {
    Exclusive(s) && forall t :: t in s.txns ==> WellOrdered(s.txns[t])
  }

  lemma GrantAddsOneLock(rules: EmailRules, db: Tables, p: Program, l: Lock)
    requires WellOrdered(p) && Wants(rules, p).Some? && Granted(db, p).Some?
    requires Holds(rules, Granted(db, p).value, l)
    ensures Holds(rules, p, l) || l == Wants(rules, p).value
  {
  }

  lemma AdvanceAddsNoLock(rules: EmailRules, db: Tables, p: Program, l: Lock)
    requires Advanced(rules, db, p).Some? && Holds(rules, Advanced(rules, db, p).value, l)
    ensures Holds(rules, p, l)
  {
  }

  lemma GrantKeepsOrder(rules: EmailRules, db: Tables, p: Program)
    requires WellOrdered(p) && Wants(rules, p).Some? && Granted(db, p).Some?
    ensures WellOrdered(Granted(db, p).value)
  {
  }

  lemma ConflictIsSymmetric(g: Lock, h: Lock)
    ensures Conflict(g, h) == Conflict(h, g)
  {
  }

  /** Replacing one transaction keeps exclusion if whatever it now holds was compatible before. */
  lemma ReplaceKeepsExclusive(s: State, t: nat, q: Program)
    requires Exclusive(s) && t in s.txns
    requires forall o, g, h :: o in s.txns && o != t && Holds(s.rules, q, g) && Holds(s.rules, s.txns[o], h) ==> !Conflict(g, h)
    ensures Exclusive(s.(txns := s.txns[t := q]))
  {
    forall o | o in s.txns && o != t
      ensures Compatible(s.rules, q, s.txns[o]) && Compatible(s.rules, s.txns[o], q)
    {
      forall g, h | Holds(s.rules, s.txns[o], g) && Holds(s.rules, q, h)
        ensures !Conflict(g, h)
      {
        ConflictIsSymmetric(g, h);
      }
    }
  }

  lemma AcquireKeepsExclusive(s: State, t: nat)
    requires LockSafe(s) && Enabled(s, Acquire(t))
    ensures Exclusive(Do(s, Acquire(t)))
  {
    var p, q := s.txns[t], Granted(s.db, s.txns[t]).value;
    forall o, g, h | o in s.txns && o != t && Holds(s.rules, q, g) && Holds(s.rules, s.txns[o], h)
      ensures !Conflict(g, h)
    {
      GrantAddsOneLock(s.rules, s.db, p, g);
      assert !Blocks(s, o, Wants(s.rules, p).value, t);
      assert Compatible(s.rules, p, s.txns[o]);
      ConflictIsSymmetric(g, h);
    }
    ReplaceKeepsExclusive(s, t, q);
  }

  lemma WeakerKeepsExclusive(s: State, t: nat, q: Program)
    requires Exclusive(s) && t in s.txns
    requires forall l :: Holds(s.rules, q, l) ==> Holds(s.rules, s.txns[t], l)
    ensures Exclusive(s.(txns := s.txns[t := q]))
  {
    forall o, g, h | o in s.txns && o != t && Holds(s.rules, q, g) && Holds(s.rules, s.txns[o], h)
      ensures !Conflict(g, h)
    {
      assert Compatible(s.rules, s.txns[t], s.txns[o]);
    }
    ReplaceKeepsExclusive(s, t, q);
  }

  lemma AdvanceKeepsLockSafe(s: State, t: nat)
    requires LockSafe(s) && Enabled(s, Advance(t))
    ensures LockSafe(Do(s, Advance(t)))
  {
    var q := Advanced(s.rules, s.db, s.txns[t]).value;
    forall l | Holds(s.rules, q, l) ensures Holds(s.rules, s.txns[t], l) {
      AdvanceAddsNoLock(s.rules, s.db, s.txns[t], l);
    }
    WeakerKeepsExclusive(s, t, q);
  }

  lemma BeginKeepsLockSafe(s: State, t: nat, p: Program)
    requires LockSafe(s) && Enabled(s, Begin(t, p))
    ensures LockSafe(Do(s, Begin(t, p)))
  {
    forall l ensures !Holds(s.rules, p, l) {
    }
  }

  lemma StepKeepsLockSafe(s: State, a: Action)
    requires LockSafe(s) && Enabled(s, a)
    ensures LockSafe(Do(s, a))
  {
    match a
    case Begin(t, p) => BeginKeepsLockSafe(s, t, p);
    case Acquire(t) =>
      AcquireKeepsExclusive(s, t);
      GrantKeepsOrder(s.rules, s.db, s.txns[t]);
    case Advance(t) => AdvanceKeepsLockSafe(s, t);
    case Ask(t, l) => WeakerKeepsExclusive(s, t, s.txns[t].(ask := Some(l)));
    case _ =>
  }

  /** In every run, two open transactions never hold conflicting locks. */
  lemma {:induction false} RunsAreLockSafe(states: seq<State>, actions: seq<Action>, i: nat)
    requires IsRun(states, actions) && LockSafe(states[0]) && i <= |actions|
    ensures LockSafe(states[i])
  {
    if i > 0 {
      RunsAreLockSafe(states, actions, i - 1);
      StepKeepsLockSafe(states[i - 1], actions[i - 1]);
    }
  }

  // ---------------------------------------------------------------- locks last until the end

  lemma GrantedIsHeld(rules: EmailRules, db: Tables, p: Program)
    requires WellOrdered(p) && Wants(rules, p).Some? && Granted(db, p).Some?
    ensures Holds(rules, Granted(db, p).value, Wants(rules, p).value)
  {
  }

  lemma GrantKeepsLocks(rules: EmailRules, db: Tables, p: Program, l: Lock)
    requires WellOrdered(p) && Wants(rules, p).Some? && Granted(db, p).Some? && Holds(rules, p, l)
    ensures Holds(rules, Granted(db, p).value, l)
  {
  }

  lemma AdvanceKeepsLocks(rules: EmailRules, db: Tables, p: Program, l: Lock)
    requires Advanced(rules, db, p).Some? && Holds(rules, p, l)
    ensures Holds(rules, Advanced(rules, db, p).value, l)
  {
  }

  predicate Ends(a: Action, t: nat) {
    (a.Commit? || a.Abort?) && a.txn == t
  }

  lemma StepKeepsLocks(s: State, a: Action, t: nat, l: Lock)
    requires LockSafe(s) && Enabled(s, a) && !Ends(a, t) && t in s.txns && Holds(s.rules, s.txns[t], l)
    ensures t in Do(s, a).txns && Do(s, a).rules == s.rules && Holds(s.rules, Do(s, a).txns[t], l)
  {
    if a == Acquire(t) {
      GrantKeepsLocks(s.rules, s.db, s.txns[t], l);
    } else if a == Advance(t) {
      AdvanceKeepsLocks(s.rules, s.db, s.txns[t], l);
    }
  }

  lemma AcquireHolds(s: State, t: nat)
    requires LockSafe(s) && Enabled(s, Acquire(t))
    ensures t in Do(s, Acquire(t)).txns && Do(s, Acquire(t)).rules == s.rules
    ensures Holds(s.rules, Do(s, Acquire(t)).txns[t], Wants(s.rules, s.txns[t]).value)
  {
    GrantedIsHeld(s.rules, s.db, s.txns[t]);
  }

  /** Strict two-phase locking: a granted lock is held in every later state until its transaction ends. */
  lemma {:induction false} HeldUntilTheEnd(states: seq<State>, actions: seq<Action>, i: nat, j: nat, t: nat)
    requires IsRun(states, actions) && LockSafe(states[0]) && i < j <= |actions|
    requires actions[i] == Acquire(t) && forall k :: i < k < j ==> !Ends(actions[k], t)
    ensures t in states[j].txns && states[j].rules == states[i].rules
    ensures Holds(states[i].rules, states[j].txns[t], Wants(states[i].rules, states[i].txns[t]).value)
    decreases j
  {
    RunsAreLockSafe(states, actions, i);
    if i == j - 1 {
      AcquireHolds(states[i], t);
    } else {
      HeldUntilTheEnd(states, actions, i, j - 1, t);
      RunsAreLockSafe(states, actions, j - 1);
      StepKeepsLocks(states[j - 1], actions[j - 1], t, Wants(states[i].rules, states[i].txns[t]).value);
    }
  }

  /** What each transaction holds when it commits. */
  lemma CommitsUnderLocks(rules: EmailRules, p: Program)
    requires CanCommit(p)
    ensures match p
            case TokenWriter(_, _, got, rows, shares, _) =>
              && (forall u :: u in got ==> Holds(rules, p, Lock(TokenKey(u), Update)))
              && (forall r :: r in rows ==> Holds(rules, p, Lock(r, Update)))
              && (forall u :: u in shares ==> Holds(rules, p, Lock(UserRow(u), KeyShare)))
            case Store(u, c, _, _) => Holds(rules, p, Lock(UserRow(u), Update)) && Holds(rules, p, Lock(Credential(c), Update))
            case Delete(u, c, _) => Holds(rules, p, Lock(UserRow(u), Update)) && Holds(rules, p, Lock(Credential(c), Update))
            case RemovePassword(u, _) => Holds(rules, p, Lock(UserRow(u), Update))
            case ResetPassword(u, _) => Holds(rules, p, Lock(UserRow(u), NoKeyUpdate))
            case PasskeySignup(u, name, email, c, _) =>
              && Holds(rules, p, Lock(EmailKey(rules.digest(rules.fold(email))), Update)) && Holds(rules, p, Lock(Username(name), Update))
              && Holds(rules, p, Lock(UserRow(u), Update)) && Holds(rules, p, Lock(Credential(c), Update))
            case PasswordSignup(u, name, email, _) =>
              && Holds(rules, p, Lock(EmailKey(rules.digest(rules.fold(email))), Update)) && Holds(rules, p, Lock(Username(name), Update))
              && Holds(rules, p, Lock(UserRow(u), Update))
            case Assertion(c, _) => Holds(rules, p, Lock(Credential(c), Update))
  {
  }

  /** A revocation commits under its owner's advisory key. */
  lemma RevokesUnderOwnersKey(states: seq<State>, actions: seq<Action>, i: nat, t: nat)
    requires IsRun(states, actions) && Quiet(states[0]) && i < |actions| && actions[i] == Commit(t)
    requires states[i].txns[t].TokenWriter? && !states[i].txns[t].kind.ValidatorHook?
    ensures Holds(states[i].rules, states[i].txns[t], Lock(TokenKey(states[i].txns[t].kind.owner), Update))
  {
    RunsAreLockSafe(states, actions, i);
    assert WellOrdered(states[i].txns[t]);
  }

  // ---------------------------------------------------------------- no wait-for cycle

  ghost predicate WaitsFor(s: State, t: nat, o: nat) {
    && t in s.txns && o in s.txns
    && Wants(s.rules, s.txns[t]).Some?
    && Blocks(s, o, Wants(s.rules, s.txns[t]).value, t)
  }

  /** The order in which every transaction meets the kinds of lock. The wait for a user row in a
      share mode comes after the waits for it in an exclusive one: the share is only asked for at
      commit, by a hook that may already share other user rows. */
  function Rank(l: Lock): nat {
    match l.resource
    case EmailKey(_) => 0
    case TokenKey(_) => 1
    case OAuthRow(_, _) => 2
    case Username(_) => 3
    case UserRow(_) => if l.mode == KeyShare then 5 else 4
    case Credential(_) => 6
  }

  predicate Below(a: Lock, b: Lock) {
    || Rank(a) < Rank(b)
    || (a.resource.TokenKey? && b.resource.TokenKey? && a.resource.user < b.resource.user)
  }

  lemma OneHolder(s: State, t: nat, o: nat, l: Lock)
    requires Exclusive(s) && t in s.txns && o in s.txns && t != o && l.mode == Update
    ensures !(Holds(s.rules, s.txns[t], l) && Holds(s.rules, s.txns[o], l))
  {
    assert Compatible(s.rules, s.txns[t], s.txns[o]);
  }

  /** An OAuth row is only ever asked for under its owner's advisory key, so it is always free. */
  lemma OAuthRowsAreNeverWaitedFor(s: State, t: nat, o: nat)
    requires LockSafe(s) && WaitsFor(s, t, o)
    ensures !Wants(s.rules, s.txns[t]).value.resource.OAuthRow?
  {
    var l := Wants(s.rules, s.txns[t]).value;
    var h :| Holds(s.rules, s.txns[o], h) && Conflict(h, l);
    assert WellOrdered(s.txns[t]) && WellOrdered(s.txns[o]);
    if l.resource.OAuthRow? {
      OneHolder(s, t, o, Lock(TokenKey(l.resource.owner), Update));
    }
  }

  /** Whoever blocks a waiting transaction, if it waits at all, waits further along the order. */
  lemma BlockerWaitsHigher(s: State, t: nat, o: nat)
    requires LockSafe(s) && WaitsFor(s, t, o) && Wants(s.rules, s.txns[o]).Some?
    ensures Below(Wants(s.rules, s.txns[t]).value, Wants(s.rules, s.txns[o]).value)
  {
    OAuthRowsAreNeverWaitedFor(s, t, o);
    var l := Wants(s.rules, s.txns[t]).value;
    var h :| Holds(s.rules, s.txns[o], h) && Conflict(h, l);
    assert WellOrdered(s.txns[t]) && WellOrdered(s.txns[o]);
  }

  /** A chain t0 -> t1 -> ... of transactions, each waiting for the next. */
  ghost predicate WaitChain(s: State, chain: seq<nat>) {
    forall i :: 0 <= i < |chain| - 1 ==> WaitsFor(s, chain[i], chain[i + 1])
  }

  lemma {:induction false} ChainClimbs(s: State, chain: seq<nat>, k: nat)
    requires LockSafe(s) && WaitChain(s, chain) && 1 <= k < |chain|
    requires WaitsFor(s, chain[0], chain[1])
    requires chain[k] in s.txns && Wants(s.rules, s.txns[chain[k]]).Some?
    ensures Below(Wants(s.rules, s.txns[chain[0]]).value, Wants(s.rules, s.txns[chain[k]]).value)
  {
    assert WaitsFor(s, chain[k - 1], chain[k]);
    BlockerWaitsHigher(s, chain[k - 1], chain[k]);
    if k > 1 {
      ChainClimbs(s, chain, k - 1);
    }
  }

  /** No reachable state of any number of revocations, OAuth hooks, signups, registrations,
      recoveries, passkey deletions, password removals, resets and assertions is deadlocked. */
  lemma NoDeadlock(states: seq<State>, actions: seq<Action>, i: nat, cycle: seq<nat>)
    requires IsRun(states, actions) && Quiet(states[0]) && i <= |actions|
    requires |cycle| >= 2 && cycle[0] == cycle[|cycle| - 1]
    ensures !WaitChain(states[i], cycle)
  {
    RunsAreLockSafe(states, actions, i);
    if WaitChain(states[i], cycle) {
      assert WaitsFor(states[i], cycle[0], cycle[1]);
      ChainClimbs(states[i], cycle, |cycle| - 1);
    }
  }

  ghost predicate Blocked(s: State, t: nat) {
    exists o :: WaitsFor(s, t, o)
  }

  /** Follow blockers from t: each is new, because it waits further along the order than every
      transaction already passed. */
  lemma {:induction false} FollowBlockers(s: State, t: nat, unseen: set<nat>) returns (free: nat)
    requires LockSafe(s) && t in s.txns && t !in unseen && unseen <= s.txns.Keys
    requires forall v :: v in s.txns && v !in unseen && v != t && Wants(s.rules, s.txns[v]).Some? ==>
                           Wants(s.rules, s.txns[t]).Some? ==>
                             Below(Wants(s.rules, s.txns[v]).value, Wants(s.rules, s.txns[t]).value)
    requires forall v :: v in s.txns && v !in unseen ==> Wants(s.rules, s.txns[v]).Some? || v == t
    ensures free in s.txns && !Blocked(s, free)
    decreases unseen
  {
    free := t;
    if Blocked(s, t) {
      var o :| WaitsFor(s, t, o);
      if Wants(s.rules, s.txns[o]).None? {
        return o;
      }
      BlockerWaitsHigher(s, t, o);
      assert o in unseen;
      free := FollowBlockers(s, o, unseen - {o});
    }
  }

  lemma UnblockedIsGrantable(s: State, t: nat)
    requires t in s.txns && Wants(s.rules, s.txns[t]).Some?
    ensures Grantable(s, t) <==> !Blocked(s, t)
  {
    if !Blocked(s, t) {
      forall o | o in s.txns ensures !Blocks(s, o, Wants(s.rules, s.txns[t]).value, t) {
        assert !WaitsFor(s, t, o);
      }
    }
  }

  /** While any transaction is open, at least one is not waiting for another. */
  lemma SomeoneCanProceed(states: seq<State>, actions: seq<Action>, i: nat)
    requires IsRun(states, actions) && Quiet(states[0]) && i <= |actions| && states[i].txns != map[]
    ensures exists t :: t in states[i].txns && (Wants(states[i].rules, states[i].txns[t]).Some? ==> Grantable(states[i], t))
  {
    RunsAreLockSafe(states, actions, i);
    var t :| t in states[i].txns;
    var free := FollowBlockers(states[i], t, states[i].txns.Keys - {t});
    if Wants(states[i].rules, states[i].txns[free]).Some? {
      UnblockedIsGrantable(states[i], free);
    }
  }
}
