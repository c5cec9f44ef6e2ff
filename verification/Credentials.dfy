/** What the user-row, credential and email locks buy, over every run of the account transactions: what an
    open transaction checked stays true until it commits, so nobody is locked out and no two accounts share
    an address. */
module Credentials {
  import opened Options
  import opened Locks
  import opened Accounts
  import opened Deadlock

  // ---------------------------------------------------------------- what an open transaction relies on

  /** The facts each statement established that must still be true when the transaction commits. */
  ghost predicate Relies(rules: EmailRules, db: Tables, p: Program) {
    match p
    case Store(u, c, origin, st) =>
      && !origin.SigningUp?
      && (!st.Entering? ==> u in db.users)
      && (!st.Entering? && !st.Locked? && origin.Registering? ==> |PasskeysOf(db, u)| < PASSKEY_MAX_PER_USER)
      && (st.Inserted? || st.Bumped? ==> c !in db.passkeys)
      && (st.Bumped? ==> st.epoch == Epoch(db, u) + 1)
    case Delete(u, c, st) =>
      && (!st.DelEntering? ==> u in db.users)
      && (st.DelLocked? ==> st.usable == db.users[u].usablePassword)
      && (st.Deleting? || st.Deleted? || st.DelBumped? ==>
            c in PasskeysOf(db, u) && (db.users[u].usablePassword || |PasskeysOf(db, u)| != 1))
      && (st.DelBumped? ==> st.newEpoch == Epoch(db, u) + 1)
    case RemovePassword(u, st) => !st.RemEntering? ==> u in db.users && (st.Cleared? ==> PasskeysOf(db, u) != {})
    case ResetPassword(u, updated) => updated ==> u in db.users
    case PasskeySignup(u, name, email, c, st) =>
      && SignupRelies(rules, db, u, name, email, st)
      && (st.PasskeyInserted? || st.Counted? ==> c !in db.passkeys)
      && (st.Counted? ==> st.first == Epoch(db, u) + 1)
    case PasswordSignup(u, name, email, st) => SignupRelies(rules, db, u, name, email, st)
    case _ => true
  }

  /** The address has no account from its check on, the username none from the grant of its index entry on. */
  ghost predicate SignupRelies(rules: EmailRules, db: Tables, u: nat, name: string, email: string, st: SignupStage) {
    && (!st.KeyWanted? && !st.KeyHeld? ==> !EmailTaken(rules, db, email))
    && (!st.KeyWanted? && !st.KeyHeld? && !st.Unclaimed? ==> forall v :: v in db.users ==> db.users[v].username != name)
    && (st.UserInserted? || st.PasskeyInserted? || st.Counted? ==> u !in db.users)
  }

  ghost predicate Symmetric(rules: EmailRules) {
    forall a, b :: rules.iexact(a, b) == rules.iexact(b, a)
  }

  ghost predicate Sound(s: State) {
    && LockSafe(s) && Symmetric(s.rules)
    && Consistent(s.db) && SignInPossible(s.db) && EmailsDistinct(s.rules, s.db) && UsernamesDistinct(s.db)
    && forall t :: t in s.txns ==> Relies(s.rules, s.db, s.txns[t])
  }

  // ---------------------------------------------------------------- frames

  predicate SameAccount(before: Tables, after: Tables, u: nat) {
    && (u in before.users <==> u in after.users)
    && (u in before.users ==> before.users[u] == after.users[u])
    && PasskeysOf(before, u) == PasskeysOf(after, u)
    && Epoch(before, u) == Epoch(after, u)
  }

  predicate WritesAccount(rules: EmailRules, p: Program, u: nat) {
    Holds(rules, p, Lock(UserRow(u), Update)) || Holds(rules, p, Lock(UserRow(u), NoKeyUpdate))
  }

  /** A commit changes an account only under that account's row lock, and a credential only under
      that credential's lock. */
  lemma CommitStaysInItsLocks(rules: EmailRules, db: Tables, p: Program)
    requires Relies(rules, db, p) && CanCommit(p)
    ensures forall u: nat :: !WritesAccount(rules, p, u) ==> SameAccount(db, Effect(db, p), u)
    ensures forall c: nat :: !Holds(rules, p, Lock(Credential(c), Update)) ==>
                               (c in db.passkeys <==> c in Effect(db, p).passkeys)
  {
    var after := Effect(db, p);
    forall u: nat | !WritesAccount(rules, p, u) ensures SameAccount(db, after, u) {
      assert PasskeysOf(db, u) == PasskeysOf(after, u);
    }
  }

  predicate SameIdentity(a: User, b: User) {
    a.username == b.username && a.email == b.email
  }

  /** Users are never removed and keep their name and address; a new one's key and index entry were held. */
  predicate UsersOnlyJoin(rules: EmailRules, before: Tables, after: Tables, p: Program) {
    && (forall u :: u in before.users ==> u in after.users && SameIdentity(before.users[u], after.users[u]))
    && (forall u :: u in after.users && u !in before.users ==>
          Holds(rules, p, Lock(EmailKey(EmailLockKey(rules, after.users[u].email)), Update))
          && Holds(rules, p, Lock(Username(after.users[u].username), Update)))
  }

  lemma CommitOnlyAddsUsers(rules: EmailRules, db: Tables, p: Program)
    requires Relies(rules, db, p) && CanCommit(p)
    ensures UsersOnlyJoin(rules, db, Effect(db, p), p)
  {
  }

  /** Everything a transaction's locks protect is as it was. */
  ghost predicate Undisturbed(rules: EmailRules, before: Tables, after: Tables, p: Program) {
    && (forall u: nat :: Holds(rules, p, Lock(UserRow(u), Update)) ==> SameAccount(before, after, u))
    && (forall c: nat :: Holds(rules, p, Lock(Credential(c), Update)) ==> (c in before.passkeys <==> c in after.passkeys))
    && (forall u :: u in before.users ==> u in after.users && SameIdentity(before.users[u], after.users[u]))
    && (forall u :: u in after.users && u !in before.users ==>
          !Holds(rules, p, Lock(EmailKey(EmailLockKey(rules, after.users[u].email)), Update))
          && !Holds(rules, p, Lock(Username(after.users[u].username), Update)))
  }

  lemma CompatibleMeans(rules: EmailRules, p: Program, q: Program, g: Lock, h: Lock)
    requires Compatible(rules, p, q) && Conflict(g, h) && Holds(rules, p, g)
    ensures !Holds(rules, q, h)
  {
  }

  lemma HolderExcludes(rules: EmailRules, p: Program, q: Program, l: Lock)
    requires Compatible(rules, q, p) && l.mode == Update && Holds(rules, p, l)
    ensures !Holds(rules, q, l)
  {
  }

  lemma CompatibleCommitsDoNotDisturb(rules: EmailRules, db: Tables, p: Program, other: Program)
    requires Relies(rules, db, other) && CanCommit(other) && Compatible(rules, p, other)
    ensures Undisturbed(rules, db, Effect(db, other), p)
  {
    CommitStaysInItsLocks(rules, db, other);
    CommitOnlyAddsUsers(rules, db, other);
    FramesDoNotDisturb(rules, db, Effect(db, other), p, other);
  }

  lemma FramesDoNotDisturb(rules: EmailRules, db: Tables, after: Tables, p: Program, other: Program)
    requires Compatible(rules, p, other) && UsersOnlyJoin(rules, db, after, other)
    requires forall u: nat :: !WritesAccount(rules, other, u) ==> SameAccount(db, after, u)
    requires forall c: nat :: !Holds(rules, other, Lock(Credential(c), Update)) ==> (c in db.passkeys <==> c in after.passkeys)
    ensures Undisturbed(rules, db, after, p)
  {
    forall u: nat | Holds(rules, p, Lock(UserRow(u), Update)) ensures SameAccount(db, after, u) {
      var l := Lock(UserRow(u), Update);
      CompatibleMeans(rules, p, other, l, l);
      CompatibleMeans(rules, p, other, l, Lock(UserRow(u), NoKeyUpdate));
    }
    forall c: nat | Holds(rules, p, Lock(Credential(c), Update)) ensures c in db.passkeys <==> c in after.passkeys {
      CompatibleMeans(rules, p, other, Lock(Credential(c), Update), Lock(Credential(c), Update));
    }
    forall u | u in after.users && u !in db.users
      ensures !Holds(rules, p, Lock(EmailKey(EmailLockKey(rules, after.users[u].email)), Update))
              && !Holds(rules, p, Lock(Username(after.users[u].username), Update))
    {
      HolderExcludes(rules, other, p, Lock(EmailKey(EmailLockKey(rules, after.users[u].email)), Update));
      HolderExcludes(rules, other, p, Lock(Username(after.users[u].username), Update));
    }
  }

  lemma UndisturbedName(rules: EmailRules, before: Tables, after: Tables, p: Program)
    requires (p.PasskeySignup? || p.PasswordSignup?) && Undisturbed(rules, before, after, p)
    requires !p.signup.KeyWanted? && !p.signup.KeyHeld? && !p.signup.Unclaimed? ==>
               forall v :: v in before.users ==> before.users[v].username != p.username
    ensures !p.signup.KeyWanted? && !p.signup.KeyHeld? && !p.signup.Unclaimed? ==>
              forall v :: v in after.users ==> after.users[v].username != p.username
  {
    if !p.signup.KeyWanted? && !p.signup.KeyHeld? && !p.signup.Unclaimed? {
      assert Holds(rules, p, Lock(Username(p.username), Update));
      forall v | v in after.users ensures after.users[v].username != p.username {
        assert v in before.users ==> SameIdentity(before.users[v], after.users[v]);
      }
    }
  }

  lemma UndisturbedSignupRelies(rules: EmailRules, before: Tables, after: Tables, p: Program)
    requires (p.PasskeySignup? || p.PasswordSignup?) && Undisturbed(rules, before, after, p)
    requires SignupRelies(rules, before, p.user, p.username, p.email, p.signup)
    ensures SignupRelies(rules, after, p.user, p.username, p.email, p.signup)
  {
    var st := p.signup;
    UndisturbedName(rules, before, after, p);
    if !st.KeyWanted? && !st.KeyHeld? {
      // A related address has this signup's lock key, which is held.
      assert Holds(rules, p, Lock(EmailKey(EmailLockKey(rules, p.email)), Update));
      forall v | v in after.users ensures !SameEmail(rules, p.email, after.users[v].email) {
        if v in before.users {
          assert SameIdentity(before.users[v], after.users[v]);
        } else {
          assert EmailLockKey(rules, after.users[v].email) != EmailLockKey(rules, p.email);
        }
      }
    }
    if st.UserInserted? || st.PasskeyInserted? || st.Counted? {
      assert Holds(rules, p, Lock(UserRow(p.user), Update));
    }
  }

  /** What a transaction relies on stays true while nothing its locks protect changes. */
  lemma UndisturbedRelies(rules: EmailRules, before: Tables, after: Tables, p: Program)
    requires Relies(rules, before, p) && Undisturbed(rules, before, after, p)
    ensures Relies(rules, after, p)
  {
    match p
    case Store(u, c, _, st) =>
      assert !st.Entering? ==> Holds(rules, p, Lock(UserRow(u), Update));
      assert st.Inserted? || st.Bumped? ==> Holds(rules, p, Lock(Credential(c), Update));
    case Delete(u, _, st) => assert !st.DelEntering? ==> Holds(rules, p, Lock(UserRow(u), Update));
    case RemovePassword(u, st) => assert !st.RemEntering? ==> Holds(rules, p, Lock(UserRow(u), Update));
    case PasskeySignup(u, _, _, c, st) =>
      UndisturbedSignupRelies(rules, before, after, p);
      assert st.PasskeyInserted? || st.Counted? ==> Holds(rules, p, Lock(Credential(c), Update));
      assert st.Counted? ==> Holds(rules, p, Lock(UserRow(u), Update));
    case PasswordSignup(_, _, _, _) => UndisturbedSignupRelies(rules, before, after, p);
    case _ =>
  }

  // ---------------------------------------------------------------- every step keeps it

  lemma GrantEstablishesReliances(rules: EmailRules, db: Tables, p: Program)
    requires Relies(rules, db, p) && Wants(rules, p).Some? && Granted(db, p).Some?
    ensures Relies(rules, db, Granted(db, p).value)
  {
  }

  lemma AdvanceEstablishesReliances(rules: EmailRules, db: Tables, p: Program)
    requires Relies(rules, db, p) && Advanced(rules, db, p).Some?
    ensures Relies(rules, db, Advanced(rules, db, p).value)
  {
  }

  lemma CommitKeepsConsistent(rules: EmailRules, db: Tables, p: Program)
    requires Consistent(db) && Relies(rules, db, p) && CanCommit(p)
    ensures Consistent(Effect(db, p))
  {
  }

  lemma CommitKeepsEmailsDistinct(rules: EmailRules, db: Tables, p: Program)
    requires EmailsDistinct(rules, db) && Symmetric(rules) && Relies(rules, db, p) && CanCommit(p)
    ensures EmailsDistinct(rules, Effect(db, p))
  {
  }

  lemma CommitKeepsUsernamesDistinct(rules: EmailRules, db: Tables, p: Program)
    requires UsernamesDistinct(db) && Relies(rules, db, p) && CanCommit(p)
    ensures UsernamesDistinct(Effect(db, p))
  {
  }

  lemma DeletingLeavesTheRest(db: Tables, u: nat, c: nat, epoch: nat)
    requires c in PasskeysOf(db, u)
    ensures PasskeysOf(WithoutPasskey(db, u, c, epoch), u) == PasskeysOf(db, u) - {c}
    ensures |PasskeysOf(WithoutPasskey(db, u, c, epoch), u)| == |PasskeysOf(db, u)| - 1
  {
  }

  lemma AddingJoinsTheRest(db: Tables, u: nat, c: nat, epoch: nat)
    requires c !in db.passkeys
    ensures PasskeysOf(WithPasskey(db, u, c, epoch), u) == PasskeysOf(db, u) + {c}
    ensures |PasskeysOf(WithPasskey(db, u, c, epoch), u)| == |PasskeysOf(db, u)| + 1
  {
    assert PasskeysOf(WithPasskey(db, u, c, epoch), u) == PasskeysOf(db, u) + {c};
  }

  predicate SignsIn(db: Tables, u: nat) {
    u in db.users ==> db.users[u].usablePassword || PasskeysOf(db, u) != {}
  }

  lemma AdderSignsIn(rules: EmailRules, db: Tables, p: Program, u: nat)
    requires Relies(rules, db, p) && CanCommit(p) && WritesAccount(rules, p, u) && (p.Store? || p.PasskeySignup?)
    ensures SignsIn(Effect(db, p), u)
  {
    if p.Store? {
      AddingJoinsTheRest(db, p.user, p.credential, p.store.epoch);
    } else {
      AddingJoinsTheRest(WithUser(db, u, User(p.username, p.email, false)), u, p.credential, p.signup.first);
    }
  }

  lemma RemoverSignsIn(rules: EmailRules, db: Tables, p: Program, u: nat)
    requires SignsIn(db, u) && Relies(rules, db, p) && CanCommit(p) && WritesAccount(rules, p, u)
    requires !p.Store? && !p.PasskeySignup?
    ensures SignsIn(Effect(db, p), u)
  {
    if p.Delete? {
      DeletingLeavesTheRest(db, u, p.credential, p.delete.newEpoch);
    } else {
      assert PasskeysOf(Effect(db, p), u) == PasskeysOf(db, u);
    }
  }

  lemma CommitKeepsSignIn(rules: EmailRules, db: Tables, p: Program)
    requires SignInPossible(db) && Relies(rules, db, p) && CanCommit(p)
    ensures SignInPossible(Effect(db, p))
  {
    CommitStaysInItsLocks(rules, db, p);
    forall u: nat ensures SignsIn(Effect(db, p), u) {
      assert SignsIn(db, u);
      if !WritesAccount(rules, p, u) {
        assert SameAccount(db, Effect(db, p), u);
      } else if p.Store? || p.PasskeySignup? {
        AdderSignsIn(rules, db, p, u);
      } else {
        RemoverSignsIn(rules, db, p, u);
      }
    }
    forall u | u in Effect(db, p).users
      ensures Effect(db, p).users[u].usablePassword || PasskeysOf(Effect(db, p), u) != {}
    {
      assert SignsIn(Effect(db, p), u);
    }
  }

  lemma CommitKeepsSound(s: State, t: nat)
    requires Sound(s) && Enabled(s, Commit(t))
    ensures Sound(Do(s, Commit(t)))
  {
    var p, s' := s.txns[t], Do(s, Commit(t));
    StepKeepsLockSafe(s, Commit(t));
    CommitKeepsConsistent(s.rules, s.db, p);
    CommitKeepsSignIn(s.rules, s.db, p);
    CommitKeepsEmailsDistinct(s.rules, s.db, p);
    CommitKeepsUsernamesDistinct(s.rules, s.db, p);
    forall o | o in s'.txns ensures Relies(s'.rules, s'.db, s'.txns[o]) {
      CompatibleCommitsDoNotDisturb(s.rules, s.db, s.txns[o], p);
      UndisturbedRelies(s.rules, s.db, s'.db, s.txns[o]);
    }
  }

  lemma StepKeepsSound(s: State, a: Action)
    requires Sound(s) && Enabled(s, a)
    ensures Sound(Do(s, a))
  {
    StepKeepsLockSafe(s, a);
    match a
    case Acquire(t) => GrantEstablishesReliances(s.rules, s.db, s.txns[t]);
    case Advance(t) => AdvanceEstablishesReliances(s.rules, s.db, s.txns[t]);
    case Commit(t) => CommitKeepsSound(s, t);
    case _ =>
  }

  lemma {:induction false} RunsAreSound(states: seq<State>, actions: seq<Action>, i: nat)
    requires IsRun(states, actions) && Quiet(states[0]) && i <= |actions|
    ensures Sound(states[i])
  {
    if i > 0 {
      RunsAreSound(states, actions, i - 1);
      StepKeepsSound(states[i - 1], actions[i - 1]);
    }
  }

  // ---------------------------------------------------------------- lockout and addresses

  /** In every state of every run, each account has a usable password or a passkey, whatever mix of
      signups, registrations, recoveries, deletions and password removals is interleaved. */
  lemma NoLockout(states: seq<State>, actions: seq<Action>, i: nat, u: nat)
    requires IsRun(states, actions) && Quiet(states[0]) && i <= |actions|
    requires u in states[i].db.users
    ensures states[i].db.users[u].usablePassword || |PasskeysOf(states[i].db, u)| >= 1
  {
    RunsAreSound(states, actions, i);
  }

  /** No interleaving of signups ever commits two accounts with one username. */
  lemma OneAccountPerUsername(states: seq<State>, actions: seq<Action>, i: nat, u: nat, v: nat)
    requires IsRun(states, actions) && Quiet(states[0]) && i <= |actions|
    requires u in states[i].db.users && v in states[i].db.users && u != v
    ensures states[i].db.users[u].username != states[i].db.users[v].username
  {
    RunsAreSound(states, actions, i);
  }

  /** No interleaving of passkey and password signups ever commits two accounts for one address. */
  lemma OneAccountPerAddress(states: seq<State>, actions: seq<Action>, i: nat, u: nat, v: nat)
    requires IsRun(states, actions) && Quiet(states[0]) && i <= |actions|
    requires u in states[i].db.users && v in states[i].db.users && u != v
    ensures var a, b, rules := states[i].db.users[u].email, states[i].db.users[v].email, states[0].rules;
            !(rules.iexact(a, b) && rules.fold(a) == rules.fold(b))
  {
    RunsAreSound(states, actions, i);
    RulesStay(states, actions, i);
  }

  lemma {:induction false} RulesStay(states: seq<State>, actions: seq<Action>, i: nat)
    requires IsRun(states, actions) && i <= |actions|
    ensures states[i].rules == states[0].rules
  {
    if i > 0 {
      RulesStay(states, actions, i - 1);
      assert states[i] == Do(states[i - 1], actions[i - 1]);
    }
  }

  /** Two signups for related addresses are never both past their key. */
  lemma RelatedSignupsAreSerialised(states: seq<State>, actions: seq<Action>, i: nat, t: nat, o: nat)
    requires IsRun(states, actions) && Quiet(states[0]) && i <= |actions| && t != o
    requires t in states[i].txns && (states[i].txns[t].PasskeySignup? || states[i].txns[t].PasswordSignup?)
    requires o in states[i].txns && (states[i].txns[o].PasskeySignup? || states[i].txns[o].PasswordSignup?)
    requires SameEmail(states[i].rules, states[i].txns[t].email, states[i].txns[o].email)
    ensures states[i].txns[t].signup.KeyWanted? || states[i].txns[o].signup.KeyWanted?
  {
    RunsAreLockSafe(states, actions, i);
    var s := states[i];
    OneHolder(s, t, o, Lock(EmailKey(EmailLockKey(s.rules, s.txns[t].email)), Update));
  }
}
