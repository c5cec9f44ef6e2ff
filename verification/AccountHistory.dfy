/** The committed rows as the commit log tells them: every commit changes exactly what it is logged to change,
    so in every state of a run the log replayed over the first state's rows gives the rows. */
module AccountHistory {
  import opened Options
  import opened Accounts
  import opened Credentials

  // ---------------------------------------------------------------- one commit

  /** Row by row, what the commit of this program changes, and what it logs. */
  ghost predicate DidExactly(before: Tables, after: Tables, p: Program, e: Event) {
    match p
    case TokenWriter(kind, _, _, _, _, _) => after == before && (kind.ValidatorHook? || e == TokensRevoked(kind))
    case Store(u, c, origin, _) =>
      && u in before.users && c !in before.passkeys && e == PasskeyAdded(u, c, origin)
      && after.users == before.users && after.passkeys == before.passkeys[c := u]
      && after.epochs == before.epochs[u := NextEpoch(before.epochs, u)]
    case Delete(u, c, _) =>
      && u in before.users && c in before.passkeys && before.passkeys[c] == u && e == PasskeyDeleted(u, c)
      && after.users == before.users && after.passkeys == before.passkeys - {c}
      && after.epochs == before.epochs[u := NextEpoch(before.epochs, u)]
    case RemovePassword(u, _) =>
      && u in before.users && e == PasswordRemoved(u)
      && after.users == before.users[u := User(before.users[u].username, before.users[u].email, false)]
      && after.passkeys == before.passkeys && after.epochs == before.epochs
    case ResetPassword(u, _) =>
      && u in before.users && e == PasswordReset(u)
      && after.users == before.users[u := User(before.users[u].username, before.users[u].email, true)]
      && after.passkeys == before.passkeys && after.epochs == before.epochs
    case PasskeySignup(u, name, email, c, _) =>
      && u !in before.users && c !in before.passkeys && e == PasskeyAdded(u, c, SigningUp(name, email))
      && after.users == before.users[u := User(name, email, false)] && after.passkeys == before.passkeys[c := u]
      && after.epochs == before.epochs[u := 1]
    case PasswordSignup(u, name, email, _) =>
      && u !in before.users && e == AccountAdded(u, User(name, email, true))
      && after.users == before.users[u := User(name, email, true)]
      && after.passkeys == before.passkeys && after.epochs == before.epochs
    case Assertion(c, _) => after == before
  }

  lemma CommitDoesExactly(rules: EmailRules, db: Tables, p: Program)
    requires Consistent(db) && Relies(rules, db, p) && CanCommit(p)
    ensures DidExactly(db, Effect(db, p), p, Published(p))
  {
  }

  /** In every run, a commit changes exactly the rows its program is for and is logged as that. */
  lemma CommitsDoExactly(states: seq<State>, actions: seq<Action>, i: nat, t: nat)
    requires IsRun(states, actions) && Quiet(states[0]) && i < |actions| && actions[i] == Commit(t)
    ensures t in states[i].txns && |states[i + 1].log| == |states[i].log| + 1
    ensures states[i + 1].log[..|states[i].log|] == states[i].log
    ensures DidExactly(states[i].db, states[i + 1].db, states[i].txns[t], states[i + 1].log[|states[i].log|])
  {
    RunsAreSound(states, actions, i);
    CommitDoesExactly(states[i].rules, states[i].db, states[i].txns[t]);
  }

  // ---------------------------------------------------------------- the log replayed

  function AddedOrDeleted(passkeys: map<nat, nat>, e: Event): map<nat, nat> {
    match e
    case PasskeyAdded(u, c, _) => passkeys[c := u]
    case PasskeyDeleted(_, c) => passkeys - {c}
    case _ => passkeys
  }

  function ReplayPasskeys(passkeys: map<nat, nat>, log: seq<Event>): map<nat, nat> {
    if log == [] then passkeys
    else AddedOrDeleted(ReplayPasskeys(passkeys, log[..|log| - 1]), log[|log| - 1])
  }

  function JoinedOrChanged(users: map<nat, User>, e: Event): map<nat, User> {
    match e
    case PasskeyAdded(u, _, SigningUp(name, email)) => users[u := User(name, email, false)]
    case AccountAdded(u, account) => users[u := account]
    case PasswordRemoved(u) => if u in users then users[u := users[u].(usablePassword := false)] else users
    case PasswordReset(u) => if u in users then users[u := users[u].(usablePassword := true)] else users
    case _ => users
  }

  function ReplayUsers(users: map<nat, User>, log: seq<Event>): map<nat, User> {
    if log == [] then users
    else JoinedOrChanged(ReplayUsers(users, log[..|log| - 1]), log[|log| - 1])
  }

  lemma ReplayOneMore(users: map<nat, User>, passkeys: map<nat, nat>, log: seq<Event>, e: Event)
    ensures ReplayPasskeys(passkeys, log + [e]) == AddedOrDeleted(ReplayPasskeys(passkeys, log), e)
    ensures ReplayUsers(users, log + [e]) == JoinedOrChanged(ReplayUsers(users, log), e)
  {
    assert (log + [e])[..|log|] == log;
  }

  lemma CommitReplays(rules: EmailRules, db: Tables, p: Program)
    requires Consistent(db) && Relies(rules, db, p) && CanCommit(p)
    ensures Effect(db, p).passkeys == AddedOrDeleted(db.passkeys, Published(p))
    ensures Effect(db, p).users == JoinedOrChanged(db.users, Published(p))
  {
  }

  /** The passkey table is the first state's with the log's adds and deletes replayed, and the accounts
      are the first state's with its signups and password changes replayed. */
  lemma {:induction false} TablesAreTheLog(states: seq<State>, actions: seq<Action>, i: nat)
    requires IsRun(states, actions) && Quiet(states[0]) && i <= |actions|
    ensures states[i].db.passkeys == ReplayPasskeys(states[0].db.passkeys, states[i].log)
    ensures states[i].db.users == ReplayUsers(states[0].db.users, states[i].log)
  {
    if i > 0 {
      TablesAreTheLog(states, actions, i - 1);
      RunsAreSound(states, actions, i - 1);
      var s, a := states[i - 1], actions[i - 1];
      assert states[i] == Do(s, a);
      if a.Commit? {
        CommitReplays(s.rules, s.db, s.txns[a.txn]);
        ReplayOneMore(states[0].db.users, states[0].db.passkeys, s.log, Published(s.txns[a.txn]));
      }
    }
  }
}
