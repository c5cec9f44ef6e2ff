/** The credential tables of app/user_data as a READ COMMITTED transition system: any number of
    transactions, each advancing one statement at a time over the committed rows, blocking on
    locks, committing, or being aborted at any point. A transaction's own uncommitted writes are
    part of its program state and reach the tables when it commits. */
module Accounts {
  import opened Options
  import opened Locks

  const PASSKEY_MAX_PER_USER: nat := 20
  const MAX_RECOVERY_ATTEMPTS: nat := 5

  // ---------------------------------------------------------------- committed rows

  datatype User = User(username: string, email: string, usablePassword: bool)

  /** Passkeys are keyed by their unique credential id and name their owner. */
  datatype Tables = Tables(users: map<nat, User>, passkeys: map<nat, nat>, epochs: map<nat, nat>)

  function PasskeysOf(db: Tables, u: nat): set<nat> {
    set c | c in db.passkeys && db.passkeys[c] == u
  }

  /** PasskeyEpoch, where a missing row counts as zero. */
  function Epoch(db: Tables, u: nat): nat {
    if u in db.epochs then db.epochs[u] else 0
  }

  /** One more than the user's epoch, where a missing row counts as zero. */
  function NextEpoch(epochs: map<nat, nat>, u: nat): nat {
    if u in epochs then epochs[u] + 1 else 1
  }

  function WithPasskey(db: Tables, u: nat, c: nat, epoch: nat): Tables {
    db.(passkeys := db.passkeys[c := u], epochs := db.epochs[u := epoch])
  }

  function WithoutPasskey(db: Tables, u: nat, c: nat, epoch: nat): Tables {
    db.(passkeys := db.passkeys - {c}, epochs := db.epochs[u := epoch])
  }

  function WithUser(db: Tables, u: nat, user: User): Tables {
    db.(users := db.users[u := user])
  }

  function WithPassword(db: Tables, u: nat, usable: bool): Tables {
    if u in db.users then WithUser(db, u, db.users[u].(usablePassword := usable)) else db
  }

  // ---------------------------------------------------------------- email identity

  /** NFKC-then-casefold, SQL iexact and the truncated SHA-256 are left uninterpreted. */
  datatype EmailRules = EmailRules(
    fold: string -> string,
    iexact: (string, string) -> bool,
    digest: string -> int)

  /** _email_taken's relation between a new email and an existing row's. */
  predicate SameEmail(rules: EmailRules, a: string, b: string) {
    rules.iexact(a, b) && rules.fold(a) == rules.fold(b)
  }

  function EmailLockKey(rules: EmailRules, email: string): int {
    rules.digest(rules.fold(email))
  }

  predicate EmailTaken(rules: EmailRules, db: Tables, email: string) {
    exists u :: u in db.users && SameEmail(rules, email, db.users[u].email)
  }

  // ---------------------------------------------------------------- programs

  /** Who runs a token-writing transaction: a django-oauth-toolkit hook, a plain
      revoke_all_tokens, or the first pass and the post-commit sweep of one recovery. */
  datatype WriterKind =
    | ValidatorHook
    | RevokeAll(owner: nat)
    | RecoveryPass(owner: nat, recovery: nat)
    | RecoverySweep(owner: nat, recovery: nat)

  datatype Origin = Registering | Recovering(recovery: nat) | SigningUp(username: string, email: string)

  datatype StoreStage = Entering | Locked | Inserting | Inserted | Bumped(epoch: nat)
  datatype DeleteStage = DelEntering | DelLocked(usable: bool) | Deleting | Deleted | DelBumped(newEpoch: nat)
  datatype RemoveStage = RemEntering | RemLocked(hadPassword: bool) | Cleared
  datatype SignupStage = KeyWanted | KeyHeld | Unclaimed | NameHeld | UserInserted | PasskeyInserted | Counted(first: nat)

  datatype Program =
    | TokenWriter(kind: WriterKind, todo: seq<nat>, got: set<nat>, rows: set<Resource>,
                  shares: set<nat>, ask: Option<Lock>)
    | Store(user: nat, credential: nat, origin: Origin, store: StoreStage)
    | Delete(user: nat, credential: nat, delete: DeleteStage)
    | RemovePassword(user: nat, remove: RemoveStage)
    | ResetPassword(user: nat, updated: bool)
    | PasskeySignup(user: nat, username: string, email: string, credential: nat, signup: SignupStage)
    | PasswordSignup(user: nat, username: string, email: string, signup: SignupStage)
    | Assertion(credential: nat, touched: bool)

  /** The lock the next statement needs before it can run, if any. */
  function Wants(rules: EmailRules, p: Program): Option<Lock> {
    match p
    case TokenWriter(_, todo, _, _, _, ask) =>
      if ask.Some? then ask
      else if todo != [] then Some(Lock(TokenKey(todo[0]), Update)) else None
    case Store(u, c, _, st) =>
      if st.Entering? then Some(Lock(UserRow(u), Update))
      else if st.Inserting? then Some(Lock(Credential(c), Update)) else None
    case Delete(u, c, st) =>
      if st.DelEntering? then Some(Lock(UserRow(u), Update))
      else if st.Deleting? then Some(Lock(Credential(c), Update)) else None
    case RemovePassword(u, st) => if st.RemEntering? then Some(Lock(UserRow(u), Update)) else None
    case ResetPassword(u, updated) => if updated then None else Some(Lock(UserRow(u), NoKeyUpdate))
    case PasskeySignup(u, name, email, c, st) =>
      if st.UserInserted? then Some(Lock(Credential(c), Update)) else SignupWants(rules, u, name, email, st)
    case PasswordSignup(u, name, email, st) => SignupWants(rules, u, name, email, st)
    case Assertion(c, touched) => if touched then None else Some(Lock(Credential(c), Update))
  }

  function SignupWants(rules: EmailRules, u: nat, name: string, email: string, st: SignupStage): Option<Lock> {
    if st.KeyWanted? then Some(Lock(EmailKey(EmailLockKey(rules, email)), Update))
    else if st.Unclaimed? then Some(Lock(Username(name), Update))
    else if st.NameHeld? then Some(Lock(UserRow(u), Update)) else None
  }

  /** The locks held: all are released together, when the transaction ends. */
  predicate Holds(rules: EmailRules, p: Program, l: Lock) {
    match p
    case TokenWriter(_, _, got, rows, shares, _) =>
      || (l.resource.TokenKey? && l.resource.user in got && l.mode == Update)
      || (l.resource in rows && l.mode == Update)
      || (l.resource.UserRow? && l.resource.user in shares && l.mode == KeyShare)
    case Store(u, c, _, st) =>
      && l.mode == Update
      && ((l.resource == UserRow(u) && !st.Entering?)
          || (l.resource == Credential(c) && (st.Inserted? || st.Bumped?)))
    case Delete(u, c, st) =>
      && l.mode == Update
      && ((l.resource == UserRow(u) && !st.DelEntering?)
          || (l.resource == Credential(c) && (st.Deleted? || st.DelBumped?)))
    case RemovePassword(u, st) => l == Lock(UserRow(u), Update) && !st.RemEntering?
    case ResetPassword(u, updated) => l == Lock(UserRow(u), NoKeyUpdate) && updated
    case PasskeySignup(u, name, email, c, st) =>
      || (l == Lock(Credential(c), Update) && (st.PasskeyInserted? || st.Counted?))
      || SignupHolds(rules, u, name, email, st, l)
    case PasswordSignup(u, name, email, st) => SignupHolds(rules, u, name, email, st, l)
    case Assertion(c, touched) => l == Lock(Credential(c), Update) && touched
  }

  predicate SignupHolds(rules: EmailRules, u: nat, name: string, email: string, st: SignupStage, l: Lock) {
    && l.mode == Update
    && ((l.resource == EmailKey(EmailLockKey(rules, email)) && !st.KeyWanted?)
        || (l.resource == Username(name) && !st.KeyWanted? && !st.KeyHeld? && !st.Unclaimed?)
        || (l.resource == UserRow(u) && (st.UserInserted? || st.PasskeyInserted? || st.Counted?)))
  }

  /** A freshly opened transaction. sorted() gives a hook its owners in ascending order. */
  predicate Fresh(p: Program) {
    match p
    case TokenWriter(kind, todo, got, rows, shares, ask) =>
      && got == {} && rows == {} && shares == {} && ask == None && Ascending(todo)
      && (!kind.ValidatorHook? ==> todo == [kind.owner])
    case Store(_, _, origin, st) => st.Entering? && !origin.SigningUp?
    case Delete(_, _, st) => st.DelEntering?
    case RemovePassword(_, st) => st.RemEntering?
    case ResetPassword(_, updated) => !updated
    case PasskeySignup(_, _, _, _, st) => st.KeyWanted?
    case PasswordSignup(_, _, _, st) => st.KeyWanted?
    case Assertion(_, touched) => !touched
  }

  predicate Ascending(s: seq<nat>) {
    forall i, j :: 0 <= i < j < |s| ==> s[i] < s[j]
  }

  /** What super() may do next once every owner's key is held: touch any OAuth row of a locked
      owner, or, for a hook about to commit, take the foreign-key share lock on an owner's row. */
  predicate MayAsk(p: Program, l: Lock) {
    && p.TokenWriter? && p.todo == [] && p.ask == None
    && ((l.resource.OAuthRow? && l.resource.owner in p.got && l.mode == Update && p.shares == {})
        || (l.resource.UserRow? && l.resource.user in p.got && l.mode == KeyShare && p.kind.ValidatorHook?))
  }

  /** The statement that was waiting runs, now that its lock is granted. None: it raises. */
  function Granted(db: Tables, p: Program): Option<Program> {
    match p
    case TokenWriter(_, todo, got, rows, shares, ask) =>
      if ask.Some? then
        if ask.value.resource.UserRow? then Some(p.(shares := shares + {ask.value.resource.user}, ask := None))
        else Some(p.(rows := rows + {ask.value.resource}, ask := None))
      else if todo != [] then Some(p.(todo := todo[1..], got := got + {todo[0]}))
      else None
    case Store(u, c, _, st) =>
      if st.Entering? then (if u in db.users then Some(p.(store := Locked)) else None)
      else if st.Inserting? && c !in db.passkeys then Some(p.(store := Inserted)) else None
    case Delete(u, c, st) =>
      if st.DelEntering? then
        (if u in db.users then Some(p.(delete := DelLocked(db.users[u].usablePassword))) else None)
      else if st.Deleting? then Some(p.(delete := Deleted)) else None
    case RemovePassword(u, st) =>
      if st.RemEntering? && u in db.users then Some(p.(remove := RemLocked(db.users[u].usablePassword))) else None
    case ResetPassword(u, updated) => if !updated && u in db.users then Some(p.(updated := true)) else None
    case PasskeySignup(u, name, email, c, st) =>
      if st.UserInserted? then
        (if c !in db.passkeys then Some(PasskeySignup(u, name, email, c, PasskeyInserted)) else None)
      else
        (match SignupGranted(db, u, name, st)
         case Some(next) => Some(PasskeySignup(u, name, email, c, next))
         case None => None)
    case PasswordSignup(u, name, email, st) =>
      (match SignupGranted(db, u, name, st)
       case Some(next) => Some(PasswordSignup(u, name, email, next))
       case None => None)
    case Assertion(c, touched) => if !touched && c in db.passkeys then Some(p.(touched := true)) else None
  }

  function SignupGranted(db: Tables, u: nat, name: string, st: SignupStage): Option<SignupStage> {
    if st.KeyWanted? then Some(KeyHeld)
    else if st.Unclaimed? then (if NameTaken(db, name) then None else Some(NameHeld))
    else if st.NameHeld? && u !in db.users then Some(UserInserted)
    else None
  }

  predicate NameTaken(db: Tables, name: string) {
    exists u :: u in db.users && db.users[u].username == name
  }

  /** A statement that waits for nothing: a check, or the epoch bump. None: it raises. */
  function Advanced(rules: EmailRules, db: Tables, p: Program): Option<Program> {
    match p
    case TokenWriter(_, _, _, _, _, _) => None
    case Store(u, c, origin, st) =>
      if st.Locked? then
        (if origin.Registering? && |PasskeysOf(db, u)| >= PASSKEY_MAX_PER_USER then None
         else Some(p.(store := Inserting)))
      else if st.Inserted? then Some(p.(store := Bumped(Epoch(db, u) + 1))) else None
    case Delete(u, c, st) =>
      if st.DelLocked? then
        (if c !in PasskeysOf(db, u) then None                          // NotFound
         else if !st.usable && |PasskeysOf(db, u)| == 1 then None      // LockoutGuard
         else Some(p.(delete := Deleting)))
      else if st.Deleted? then Some(p.(delete := DelBumped(Epoch(db, u) + 1))) else None
    case RemovePassword(u, st) =>
      if st.RemLocked? && st.hadPassword && PasskeysOf(db, u) != {} then Some(p.(remove := Cleared)) else None
    case ResetPassword(_, _) => None
    case PasskeySignup(u, name, email, c, st) =>
      if st.KeyHeld? then
        (if EmailTaken(rules, db, email) then None else Some(PasskeySignup(u, name, email, c, Unclaimed)))
      else if st.PasskeyInserted? then Some(PasskeySignup(u, name, email, c, Counted(Epoch(db, u) + 1)))
      else None
    case PasswordSignup(u, name, email, st) =>
      if st.KeyHeld? && !EmailTaken(rules, db, email) then Some(PasswordSignup(u, name, email, Unclaimed))
      else None
    case Assertion(_, _) => None
  }

  predicate CanCommit(p: Program) {
    match p
    case TokenWriter(_, todo, _, _, _, ask) => todo == [] && ask == None
    case Store(_, _, _, st) => st.Bumped?
    case Delete(_, _, st) => st.DelBumped?
    case RemovePassword(_, st) => st.Cleared?
    case ResetPassword(_, updated) => updated
    case PasskeySignup(_, _, _, _, st) => st.Counted?
    case PasswordSignup(_, _, _, st) => st.UserInserted?
    case Assertion(_, touched) => touched
  }

  /** The rows a commit publishes. */
  function Effect(db: Tables, p: Program): Tables
    requires CanCommit(p)
  {
    match p
    case TokenWriter(_, _, _, _, _, _) => db
    case Store(u, c, _, st) => WithPasskey(db, u, c, st.epoch)
    case Delete(u, c, st) => WithoutPasskey(db, u, c, st.newEpoch)
    case RemovePassword(u, _) => WithPassword(db, u, false)
    case ResetPassword(u, _) => WithPassword(db, u, true)
    case PasskeySignup(u, name, email, c, st) =>
      WithPasskey(WithUser(db, u, User(name, email, false)), u, c, st.first)
    case PasswordSignup(u, name, email, _) => WithUser(db, u, User(name, email, true))
    case Assertion(_, _) => db
  }

  // ---------------------------------------------------------------- recoveries

  /** Where one finish_recover call stands between its transactions. */
  datatype Phase = Verified | Revoking | Revoked | Storing | Stored | Sweeping | Finished | Failed(revoked: bool)

  datatype Recovery = Recovery(user: nat, credential: nat, phase: Phase, attempts: nat)

  /** The recovery step a transaction is an attempt at, if it is one. */
  function RecoveryOf(p: Program): Option<nat> {
    match p
    case TokenWriter(kind, _, _, _, _, _) =>
      if kind.RecoveryPass? || kind.RecoverySweep? then Some(kind.recovery) else None
    case Store(_, _, origin, _) => if origin.Recovering? then Some(origin.recovery) else None
    case _ => None
  }

  /** The phase a recovery must be in for finish_recover to open this transaction. */
  function PhaseBefore(p: Program): Phase
    requires RecoveryOf(p).Some?
  {
    if p.Store? then Revoked else if p.kind.RecoveryPass? then Verified else Stored
  }

  function PhaseDuring(p: Program): Phase
    requires RecoveryOf(p).Some?
  {
    if p.Store? then Storing else if p.kind.RecoveryPass? then Revoking else Sweeping
  }

  function PhaseAfter(p: Program): Phase
    requires RecoveryOf(p).Some?
  {
    if p.Store? then Stored else if p.kind.RecoveryPass? then Revoked else Finished
  }

  predicate Attempts(r: Recovery, p: Program)
    requires RecoveryOf(p).Some?
  {
    && r.phase == PhaseBefore(p)
    && (if p.Store? then p.user == r.user && p.credential == r.credential
        else p.kind.owner == r.user)
  }

  /** _run_with_retry after a failed attempt; the sweep is best effort and never retried. */
  function AfterFailure(r: Recovery, p: Program, retryable: bool): Recovery
    requires RecoveryOf(p).Some?
  {
    if PhaseDuring(p).Sweeping? then r.(phase := Finished)
    else if retryable && r.attempts < MAX_RECOVERY_ATTEMPTS then r.(phase := PhaseBefore(p))
    else r.(phase := Failed(p.Store?))
  }

  // ---------------------------------------------------------------- the transition system

  /** What the outside can see happen, in commit order. */
  datatype Event =
    | TokensRevoked(kind: WriterKind)
    | PasskeyAdded(user: nat, credential: nat, origin: Origin)
    | PasskeyDeleted(user: nat, credential: nat)
    | AccountAdded(user: nat, account: User)          // by a password signup
    | PasswordRemoved(user: nat)
    | PasswordReset(user: nat)
    | Other

  function Published(p: Program): Event
    requires CanCommit(p)
  {
    match p
    case TokenWriter(kind, _, _, _, _, _) => if kind.ValidatorHook? then Other else TokensRevoked(kind)
    case Store(u, c, origin, _) => PasskeyAdded(u, c, origin)
    case Delete(u, c, _) => PasskeyDeleted(u, c)
    case RemovePassword(u, _) => PasswordRemoved(u)
    case ResetPassword(u, _) => PasswordReset(u)
    case PasskeySignup(u, name, email, c, _) => PasskeyAdded(u, c, SigningUp(name, email))
    case PasswordSignup(u, name, email, _) => AccountAdded(u, User(name, email, true))
    case Assertion(_, _) => Other
  }

  datatype State = State(
    rules: EmailRules,
    db: Tables,
    txns: map<nat, Program>,
    recoveries: map<nat, Recovery>,
    log: seq<Event>)

  datatype Action =
    | Verify(recovery: nat, user: nat, credential: nat)   // finish_recover got past its challenge
    | Begin(txn: nat, program: Program)
    | Ask(txn: nat, lock: Lock)
    | Acquire(txn: nat)
    | Advance(txn: nat)
    | Commit(txn: nat)
    | Abort(txn: nat, retryable: bool)

  ghost predicate Blocks(s: State, holder: nat, l: Lock, waiter: nat)
    requires holder in s.txns
  {
    holder != waiter && exists h :: Holds(s.rules, s.txns[holder], h) && Conflict(h, l)
  }

  ghost predicate Grantable(s: State, t: nat)
    requires t in s.txns
  {
    && Wants(s.rules, s.txns[t]).Some?
    && forall o :: o in s.txns ==> !Blocks(s, o, Wants(s.rules, s.txns[t]).value, t)
  }

  ghost predicate Enabled(s: State, a: Action) {
    match a
    case Verify(r, _, _) => r !in s.recoveries
    case Begin(t, p) =>
      && t !in s.txns && Fresh(p)
      && (RecoveryOf(p).Some? ==>
            RecoveryOf(p).value in s.recoveries && Attempts(s.recoveries[RecoveryOf(p).value], p))
    case Ask(t, l) => t in s.txns && MayAsk(s.txns[t], l)
    case Acquire(t) => t in s.txns && Grantable(s, t) && Granted(s.db, s.txns[t]).Some?
    case Advance(t) => t in s.txns && Advanced(s.rules, s.db, s.txns[t]).Some?
    case Commit(t) => t in s.txns && CanCommit(s.txns[t])
    case Abort(t, _) => t in s.txns
  }

  function Do(s: State, a: Action): State
    requires Enabled(s, a)
  {
    match a
    case Verify(r, u, c) => s.(recoveries := s.recoveries[r := Recovery(u, c, Verified, 0)])
    case Begin(t, p) => s.(txns := s.txns[t := p], recoveries := OnBegin(s.recoveries, p))
    case Ask(t, l) => s.(txns := s.txns[t := s.txns[t].(ask := Some(l))])
    case Acquire(t) => s.(txns := s.txns[t := Granted(s.db, s.txns[t]).value])
    case Advance(t) => s.(txns := s.txns[t := Advanced(s.rules, s.db, s.txns[t]).value])
    case Commit(t) =>
      s.(db := Effect(s.db, s.txns[t]), txns := s.txns - {t},
         recoveries := OnCommit(s.recoveries, s.txns[t]), log := s.log + [Published(s.txns[t])])
    case Abort(t, retryable) =>
      s.(txns := s.txns - {t}, recoveries := OnAbort(s.recoveries, s.txns[t], retryable))
  }

  function OnBegin(rs: map<nat, Recovery>, p: Program): map<nat, Recovery> {
    match RecoveryOf(p)
    case Some(r) =>
      if r in rs then rs[r := rs[r].(phase := PhaseDuring(p), attempts := rs[r].attempts + 1)] else rs
    case None => rs
  }

  /** The next phase starts with its own attempt budget. */
  function OnCommit(rs: map<nat, Recovery>, p: Program): map<nat, Recovery> {
    match RecoveryOf(p)
    case Some(r) => if r in rs then rs[r := rs[r].(phase := PhaseAfter(p), attempts := 0)] else rs
    case None => rs
  }

  function OnAbort(rs: map<nat, Recovery>, p: Program, retryable: bool): map<nat, Recovery> {
    match RecoveryOf(p)
    case Some(r) => if r in rs then rs[r := AfterFailure(rs[r], p, retryable)] else rs
    case None => rs
  }

  /** A run: states joined by enabled actions. */
  ghost predicate IsRun(states: seq<State>, actions: seq<Action>) {
    && |states| == |actions| + 1
    && forall i {:trigger actions[i]} :: 0 <= i < |actions| ==> Enabled(states[i], actions[i]) && states[i + 1] == Do(states[i], actions[i])
  }

  /** Between requests: no transaction open and no recovery under way. The committed rows satisfy
      the foreign keys, every account can sign in, no two addresses or usernames clash, and no account
      is over the passkey cap. The empty database is one such state. */
  ghost predicate Quiet(s: State) {
    && s.txns == map[] && s.recoveries == map[] && s.log == []
    && Consistent(s.db) && SignInPossible(s.db) && EmailsDistinct(s.rules, s.db) && UsernamesDistinct(s.db)
    && (forall a, b :: s.rules.iexact(a, b) == s.rules.iexact(b, a))
    && (forall u: nat :: |PasskeysOf(s.db, u)| <= PASSKEY_MAX_PER_USER)
  }

  ghost predicate Consistent(db: Tables) {
    && (forall c :: c in db.passkeys ==> db.passkeys[c] in db.users)
    && (forall u :: u in db.epochs ==> u in db.users)
  }

  /** No account is left without a usable password or a passkey. */
  ghost predicate SignInPossible(db: Tables) {
    forall u :: u in db.users ==> db.users[u].usablePassword || PasskeysOf(db, u) != {}
  }

  /** The unique index on usernames. */
  ghost predicate UsernamesDistinct(db: Tables) {
    forall u, v :: u in db.users && v in db.users && u != v ==> db.users[u].username != db.users[v].username
  }

  ghost predicate EmailsDistinct(rules: EmailRules, db: Tables) {
    forall u, v :: u in db.users && v in db.users && u != v ==>
      !SameEmail(rules, db.users[u].email, db.users[v].email)
  }
}
