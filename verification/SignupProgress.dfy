/** What a shared lock key costs: two signups whose unrelated addresses happen to have the same key wait for
    each other, and both can still commit. */
module SignupProgress {
  import opened Options
  import opened Locks
  import opened Accounts
  import opened Deadlock
  import opened Credentials

  // ---------------------------------------------------------------- continuations

  ghost predicate Reaches(s: State, s': State) {
    exists states, actions :: IsRun(states, actions) && states[0] == s && states[|actions|] == s'
  }

  lemma ReachesSelf(s: State)
    ensures Reaches(s, s)
  {
    assert IsRun([s], []);
  }

  lemma ReachesNext(s: State, m: State, a: Action)
    requires Reaches(s, m) && Enabled(m, a)
    ensures Reaches(s, Do(m, a))
  {
    var states, actions :| IsRun(states, actions) && states[0] == s && states[|actions|] == m;
    var longer, more := states + [Do(m, a)], actions + [a];
    forall i {:trigger more[i]} | 0 <= i < |more|
      ensures Enabled(longer[i], more[i]) && longer[i + 1] == Do(longer[i], more[i])
    {
      if i < |actions| {
        assert longer[i] == states[i] && longer[i + 1] == states[i + 1] && more[i] == actions[i];
      }
    }
    assert IsRun(longer, more);
  }

  // ---------------------------------------------------------------- one signup with nobody in its way

  predicate IsSignup(p: Program) {
    p.PasskeySignup? || p.PasswordSignup?
  }

  /** No account has a related address, the name, the id or the credential. */
  predicate Available(rules: EmailRules, db: Tables, p: Program)
    requires IsSignup(p)
  {
    && (forall v :: v in db.users ==> !(rules.iexact(p.email, db.users[v].email) && rules.fold(p.email) == rules.fold(db.users[v].email)))
    && (forall v :: v in db.users ==> db.users[v].username != p.username)
    && p.user !in db.users
    && (p.PasskeySignup? ==> p.credential !in db.passkeys)
  }

  predicate SameSignup(p: Program, q: Program)
    requires IsSignup(p)
  {
    && IsSignup(q) && p.PasskeySignup? == q.PasskeySignup?
    && p.user == q.user && p.username == q.username && p.email == q.email
    && (p.PasskeySignup? ==> p.credential == q.credential)
  }

  /** Exactly this account was added. */
  predicate Joined(before: Tables, after: Tables, p: Program)
    requires IsSignup(p)
  {
    && after.users == before.users[p.user := User(p.username, p.email, p.PasswordSignup?)]
    && after.passkeys == if p.PasskeySignup? then before.passkeys[p.credential := p.user] else before.passkeys
  }

  function StagesLeft(p: Program): nat
    requires IsSignup(p)
  {
    match p.signup
    case KeyWanted => 7
    case KeyHeld => 6
    case Unclaimed => 5
    case NameHeld => 4
    case UserInserted => 3
    case PasskeyInserted => 2
    case Counted(_) => 1
  }

  /** A password signup ends with its user row. */
  predicate StageFits(p: Program)
    requires IsSignup(p)
  {
    p.PasswordSignup? ==> !p.signup.PasskeyInserted? && !p.signup.Counted?
  }

  /** The locks a signup has still to take from this stage on. */
  predicate StillNeeds(rules: EmailRules, p: Program, l: Lock)
    requires IsSignup(p)
  {
    var st := p.signup;
    && l.mode == Update
    && ((l.resource == EmailKey(EmailLockKey(rules, p.email)) && st.KeyWanted?)
        || (l.resource == Username(p.username) && (st.KeyWanted? || st.KeyHeld? || st.Unclaimed?))
        || (l.resource == UserRow(p.user) && (st.KeyWanted? || st.KeyHeld? || st.Unclaimed? || st.NameHeld?))
        || (p.PasskeySignup? && l.resource == Credential(p.credential) && !st.PasskeyInserted? && !st.Counted?))
  }

  /** q holds nothing in conflict with a lock p still needs. */
  ghost predicate OutOfTheWay(rules: EmailRules, q: Program, p: Program)
    requires IsSignup(p)
  {
    forall l, h :: StillNeeds(rules, p, l) && Holds(rules, q, h) ==> !Conflict(h, l)
  }

  ghost predicate Unopposed(s: State, t: nat) {
    && t in s.txns && IsSignup(s.txns[t])
    && forall o :: o in s.txns && o != t ==> OutOfTheWay(s.rules, s.txns[o], s.txns[t])
  }

  lemma SignupAdvances(rules: EmailRules, db: Tables, p: Program)
    requires IsSignup(p) && StageFits(p) && Available(rules, db, p) && !CanCommit(p)
    ensures var next := if Wants(rules, p).Some? then Granted(db, p) else Advanced(rules, db, p);
            && next.Some? && SameSignup(p, next.value) && StageFits(next.value) && StagesLeft(next.value) < StagesLeft(p)
            && forall l :: StillNeeds(rules, next.value, l) ==> StillNeeds(rules, p, l)
    ensures Wants(rules, p).Some? ==> StillNeeds(rules, p, Wants(rules, p).value)
  {
  }

  lemma NobodyBlocks(s: State, t: nat)
    requires Unopposed(s, t) && Wants(s.rules, s.txns[t]).Some? && StillNeeds(s.rules, s.txns[t], Wants(s.rules, s.txns[t]).value)
    ensures Grantable(s, t)
  {
    forall o | o in s.txns ensures !Blocks(s, o, Wants(s.rules, s.txns[t]).value, t) {
      assert o != t ==> OutOfTheWay(s.rules, s.txns[o], s.txns[t]);
    }
  }

  lemma UnopposedStays(s: State, s': State, t: nat)
    requires Unopposed(s, t) && s'.rules == s.rules && s'.txns.Keys == s.txns.Keys && IsSignup(s'.txns[t])
    requires forall o :: o in s.txns && o != t ==> s'.txns[o] == s.txns[o]
    requires forall l :: StillNeeds(s.rules, s'.txns[t], l) ==> StillNeeds(s.rules, s.txns[t], l)
    ensures Unopposed(s', t)
  {
    forall o | o in s'.txns && o != t ensures OutOfTheWay(s'.rules, s'.txns[o], s'.txns[t]) {
      assert OutOfTheWay(s.rules, s.txns[o], s.txns[t]);
    }
  }

  lemma UnopposedStep(s: State, t: nat) returns (a: Action)
    requires Unopposed(s, t) && StageFits(s.txns[t]) && Available(s.rules, s.db, s.txns[t])
    requires !CanCommit(s.txns[t])
    ensures Enabled(s, a) && Unopposed(Do(s, a), t) && Do(s, a).rules == s.rules && Do(s, a).db == s.db
    ensures Do(s, a).txns.Keys == s.txns.Keys
    ensures forall o :: o in s.txns && o != t ==> Do(s, a).txns[o] == s.txns[o]
    ensures SameSignup(s.txns[t], Do(s, a).txns[t]) && StageFits(Do(s, a).txns[t])
    ensures StagesLeft(Do(s, a).txns[t]) < StagesLeft(s.txns[t])
  {
    SignupAdvances(s.rules, s.db, s.txns[t]);
    if Wants(s.rules, s.txns[t]).Some? {
      NobodyBlocks(s, t);
      a := Acquire(t);
    } else {
      a := Advance(t);
    }
    UnopposedStays(s, Do(s, a), t);
  }

  lemma {:induction false} FinishSignup(s0: State, s: State, t: nat) returns (s': State)
    requires Reaches(s0, s) && Unopposed(s, t)
    requires StageFits(s.txns[t]) && Available(s.rules, s.db, s.txns[t])
    ensures Reaches(s0, s') && s'.rules == s.rules && s'.txns == s.txns - {t} && Joined(s.db, s'.db, s.txns[t])
    decreases StagesLeft(s.txns[t])
  {
    if CanCommit(s.txns[t]) {
      ReachesNext(s0, s, Commit(t));
      return Do(s, Commit(t));
    }
    var a := UnopposedStep(s, t);
    ReachesNext(s0, s, a);
    s' := FinishSignup(s0, Do(s, a), t);
    assert Do(s, a).txns - {t} == s.txns - {t};
  }

  // ---------------------------------------------------------------- everybody else out of the way

  lemma {:induction false} AbortOthers(s0: State, s: State, keep: set<nat>) returns (s': State)
    requires Reaches(s0, s)
    ensures Reaches(s0, s') && s'.rules == s.rules && s'.db == s.db
    ensures s'.txns == map t | t in s.txns && t in keep :: s.txns[t]
    decreases s.txns.Keys - keep
  {
    if t :| t in s.txns.Keys - keep {
      var next := Do(s, Abort(t, false));
      ReachesNext(s0, s, Abort(t, false));
      assert next.txns.Keys == s.txns.Keys - {t};
      s' := AbortOthers(s0, next, keep);
    } else {
      s' := s;
      assert forall t :: t in s.txns ==> t in s.txns.Keys - keep || t in keep;
      assert s.txns == map t | t in s.txns && t in keep :: s.txns[t];
    }
  }

  /** Programs open in a run are at a stage their kind has. */
  ghost predicate StagesFit(s: State) {
    forall t :: t in s.txns && IsSignup(s.txns[t]) ==> StageFits(s.txns[t])
  }

  lemma StepKeepsStagesFit(s: State, a: Action)
    requires StagesFit(s) && Enabled(s, a)
    ensures StagesFit(Do(s, a))
  {
  }

  lemma {:induction false} RunsKeepStagesFit(states: seq<State>, actions: seq<Action>, i: nat)
    requires IsRun(states, actions) && Quiet(states[0]) && i <= |actions|
    ensures StagesFit(states[i])
  {
    if i > 0 {
      RunsKeepStagesFit(states, actions, i - 1);
      StepKeepsStagesFit(states[i - 1], actions[i - 1]);
    }
  }

  // ---------------------------------------------------------------- both commit

  /** Nothing but the lock key connects the two. */
  predicate Unrelated(rules: EmailRules, p: Program, q: Program)
    requires IsSignup(p) && IsSignup(q)
  {
    && EmailLockKey(rules, p.email) == EmailLockKey(rules, q.email) && !SameEmail(rules, p.email, q.email)
    && p.user != q.user && p.username != q.username
    && (p.PasskeySignup? && q.PasskeySignup? ==> p.credential != q.credential)
  }

  lemma JoiningClaimsNothingElse(rules: EmailRules, before: Tables, after: Tables, p: Program, q: Program)
    requires IsSignup(p) && IsSignup(q) && Symmetric(rules) && Unrelated(rules, p, q)
    requires Joined(before, after, p) && Available(rules, before, q)
    ensures Available(rules, after, q)
  {
  }

  lemma OnePastItsKey(s: State, t: nat, o: nat)
    requires Exclusive(s) && t in s.txns && o in s.txns && t != o && IsSignup(s.txns[t]) && IsSignup(s.txns[o])
    requires EmailLockKey(s.rules, s.txns[t].email) == EmailLockKey(s.rules, s.txns[o].email)
    ensures s.txns[t].signup.KeyWanted? || s.txns[o].signup.KeyWanted?
  {
    OneHolder(s, t, o, Lock(EmailKey(EmailLockKey(s.rules, s.txns[t].email)), Update));
  }

  /** `first` runs to its commit while `second` still waits for the key, and then `second` does. */
  lemma OneThenTheOther(s: State, first: nat, second: nat) returns (s': State)
    requires StagesFit(s) && Symmetric(s.rules)
    requires first in s.txns && second in s.txns && first != second && IsSignup(s.txns[first]) && IsSignup(s.txns[second])
    requires s.txns[second].signup.KeyWanted? && Unrelated(s.rules, s.txns[first], s.txns[second])
    requires Available(s.rules, s.db, s.txns[first]) && Available(s.rules, s.db, s.txns[second])
    ensures Reaches(s, s') && s'.rules == s.rules
    ensures exists mid :: Joined(s.db, mid, s.txns[first]) && Joined(mid, s'.db, s.txns[second])
  {
    ReachesSelf(s);
    var s1 := AbortOthers(s, s, {first, second});
    assert forall l :: !Holds(s1.rules, s1.txns[second], l);
    var s2 := FinishSignup(s, s1, first);
    JoiningClaimsNothingElse(s.rules, s.db, s2.db, s.txns[first], s.txns[second]);
    s' := FinishSignup(s, s2, second);
    assert Joined(s.db, s2.db, s.txns[first]) && Joined(s2.db, s'.db, s.txns[second]);
  }

  predicate HasAccount(db: Tables, p: Program)
    requires IsSignup(p)
  {
    && p.user in db.users && db.users[p.user] == User(p.username, p.email, p.PasswordSignup?)
    && (p.PasskeySignup? ==> p.credential in PasskeysOf(db, p.user))
  }

  lemma BothHaveAccounts(before: Tables, mid: Tables, after: Tables, p: Program, q: Program)
    requires IsSignup(p) && IsSignup(q) && p.user != q.user
    requires p.PasskeySignup? && q.PasskeySignup? ==> p.credential != q.credential
    requires Joined(before, mid, p) && Joined(mid, after, q)
    ensures HasAccount(after, p) && HasAccount(after, q)
  {
  }

  /** From any reachable state with two signups open whose lock keys collide, and whose addresses, names, ids
      and credentials are unrelated to each other and to every account, there is a continuation in which both
      commit: a colliding key alone refuses nobody. */
  lemma CollidingKeysRefuseNobody(states: seq<State>, actions: seq<Action>, i: nat, t: nat, o: nat) returns (s': State)
    requires IsRun(states, actions) && Quiet(states[0]) && i <= |actions| && t != o
    requires t in states[i].txns && IsSignup(states[i].txns[t]) && o in states[i].txns && IsSignup(states[i].txns[o])
    requires Unrelated(states[i].rules, states[i].txns[t], states[i].txns[o])
    requires Available(states[i].rules, states[i].db, states[i].txns[t])
    requires Available(states[i].rules, states[i].db, states[i].txns[o])
    ensures Reaches(states[i], s')
    ensures HasAccount(s'.db, states[i].txns[t]) && HasAccount(s'.db, states[i].txns[o])
  {
    RunsAreSound(states, actions, i);
    RunsKeepStagesFit(states, actions, i);
    var s := states[i];
    OnePastItsKey(s, t, o);
    var first, second := if s.txns[o].signup.KeyWanted? then t else o, if s.txns[o].signup.KeyWanted? then o else t;
    s' := OneThenTheOther(s, first, second);
    var mid :| Joined(s.db, mid, s.txns[first]) && Joined(mid, s'.db, s.txns[second]);
    BothHaveAccounts(s.db, mid, s'.db, s.txns[first], s.txns[second]);
  }
}
