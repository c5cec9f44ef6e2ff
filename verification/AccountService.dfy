/** The service functions as the application runs them, one call at a time, over a mutable database.
    Each is tied to the statement-level program of the same operation run with nobody else. */
module AccountService {
  import opened Options
  import opened Accounts

  // ---------------------------------------------------------------- a program run alone

  function Remaining(p: Program): nat {
    match p
    case Store(_, _, _, st) =>
      (match st case Entering => 4 case Locked => 3 case Inserting => 2 case Inserted => 1 case Bumped(_) => 0)
    case Delete(_, _, st) =>
      (match st case DelEntering => 4 case DelLocked(_) => 3 case Deleting => 2 case Deleted => 1 case DelBumped(_) => 0)
    case RemovePassword(_, st) =>
      (match st case RemEntering => 2 case RemLocked(_) => 1 case Cleared => 0)
    case ResetPassword(_, updated) => if updated then 0 else 1
    case PasskeySignup(_, _, _, _, st) => SignupRemaining(st)
    case PasswordSignup(_, _, _, st) => SignupRemaining(st)
    case Assertion(_, touched) => if touched then 0 else 1
    case TokenWriter(_, _, _, _, _, _) => 0
  }

  function SignupRemaining(st: SignupStage): nat {
    match st
    case KeyWanted => 6
    case KeyHeld => 5
    case Unclaimed => 4
    case NameHeld => 3
    case UserInserted => 2
    case PasskeyInserted => 1
    case Counted(_) => 0
  }

  /** The tables after the program's own statements, every lock granted at once; None if one of them
      raises and the transaction rolls back. */
  function RunAlone(rules: EmailRules, db: Tables, p: Program): Option<Tables>
    decreases Remaining(p)
  {
    if CanCommit(p) then Some(Effect(db, p))
    else if p.TokenWriter? then None
    else
      var next := if Wants(rules, p).Some? then Granted(db, p) else Advanced(rules, db, p);
      match next
      case None => None
      case Some(q) => RunAlone(rules, db, q)
  }

  /** An API credential row: who it lets in, if anyone yet. A pending pairing has no owner. */
  datatype CredentialKind = DrfToken | Grant | RefreshToken | AccessToken | IdToken | Pairing

  datatype ApiCredential = ApiCredential(kind: CredentialKind, owner: Option<nat>, id: nat)

  /** What a database call inside a transaction can do to it. */
  datatype Fault = Clean | Transient | Fatal

  datatype ServiceError =
    | NoSuchUser | TooManyPasskeys | RegistrationFailed | NotFound | LockoutGuard | WrongPassword
    | DatabaseFailed

  /** _run_with_retry: the attempt it stops at, and whether that attempt committed. */
  function RetryOutcome(faults: nat -> Fault, attempt: nat): (r: (bool, nat))
    requires 1 <= attempt <= MAX_RECOVERY_ATTEMPTS
    decreases MAX_RECOVERY_ATTEMPTS - attempt
  {
    if faults(attempt).Clean? then (true, attempt)
    else if attempt == MAX_RECOVERY_ATTEMPTS || faults(attempt).Fatal? then (false, attempt)
    else RetryOutcome(faults, attempt + 1)
  }

  /** The loop commits at attempt n exactly when n is the first attempt that is not a deadlock or
      serialization failure, it is clean, and it is within the first five. */
  lemma {:induction false} RetryStopsAtFirstOther(faults: nat -> Fault, attempt: nat)
    requires 1 <= attempt <= MAX_RECOVERY_ATTEMPTS
    ensures var (ok, n) := RetryOutcome(faults, attempt);
            && attempt <= n <= 5
            && (forall k :: attempt <= k < n ==> faults(k).Transient?)
            && (ok <==> faults(n).Clean?)
            && (!ok ==> faults(n).Fatal? || n == 5)
    decreases MAX_RECOVERY_ATTEMPTS - attempt
  {
    if attempt < MAX_RECOVERY_ATTEMPTS && faults(attempt).Transient? {
      RetryStopsAtFirstOther(faults, attempt + 1);
    }
  }

  /** Whether the retry loop ends in a commit. */
  predicate Commits(faults: nat -> Fault) {
    RetryOutcome(faults, 1).0
  }

  /** A decoded session row: the auth key it carries, if it decodes to a user at all. */
  datatype Session = Session(user: Option<nat>, expires: int)

  const SESSION_DELETE_CHUNK: nat := 500

  predicate Stale(key: string, session: Session, u: nat, keep: Option<string>, now: int) {
    session.expires > now && session.user == Some(u) && keep != Some(key)
  }

  function OwnedBy(rows: set<ApiCredential>, u: nat): set<ApiCredential> {
    set r | r in rows && r.owner == Some(u)
  }

  class Database {
    var tables: Tables
    var credentials: set<ApiCredential>
    var sessions: map<string, Session>

    constructor (tables: Tables, credentials: set<ApiCredential>, sessions: map<string, Session>)
      ensures this.tables == tables && this.credentials == credentials && this.sessions == sessions
    {
      this.tables := tables;
      this.credentials := credentials;
      this.sessions := sessions;
    }

    /** get_or_create the row, then add one to it. */
    method BumpPasskeyEpoch(u: nat)
      modifies this`tables
      ensures tables == old(tables).(epochs := old(tables).epochs[u := Epoch(old(tables), u) + 1])
    {
      if u !in tables.epochs {
        tables := tables.(epochs := tables.epochs[u := 0]);
      }
      tables := tables.(epochs := tables.epochs[u := tables.epochs[u] + 1]);
    }

    method StorePasskey(rules: EmailRules, u: nat, c: nat, origin: Origin) returns (r: Result<nat, ServiceError>)
      modifies this`tables
      ensures RunAlone(rules, old(tables), Store(u, c, origin, Entering)) == if r.Ok? then Some(tables) else None
      ensures r.Err? ==> tables == old(tables)
      ensures r == Ok(c) || r == Err(NoSuchUser) || r == Err(TooManyPasskeys) || r == Err(RegistrationFailed)
      ensures r.Ok? ==> tables.users == old(tables).users && tables.passkeys == old(tables).passkeys[c := u]
                        && tables.epochs == old(tables).epochs[u := NextEpoch(old(tables).epochs, u)]
      ensures r == Err(RegistrationFailed) ==> c in tables.passkeys
      ensures r == Err(TooManyPasskeys) ==> origin.Registering? && |PasskeysOf(tables, u)| >= PASSKEY_MAX_PER_USER
      ensures r == Err(NoSuchUser) <==> u !in old(tables).users
    {
      ghost var p := Store(u, c, origin, Entering);
      if u !in tables.users {
        return Err(NoSuchUser);
      }
      assert RunAlone(rules, tables, p) == RunAlone(rules, tables, p.(store := Locked));
      if origin.Registering? && |PasskeysOf(tables, u)| >= PASSKEY_MAX_PER_USER {
        return Err(TooManyPasskeys);
      }
      assert RunAlone(rules, tables, p) == RunAlone(rules, tables, p.(store := Inserting));
      if c in tables.passkeys {
        return Err(RegistrationFailed);
      }
      ghost var bumped := p.(store := Bumped(Epoch(tables, u) + 1));
      assert RunAlone(rules, tables, p.(store := Inserted)) == RunAlone(rules, tables, bumped);
      tables := tables.(passkeys := tables.passkeys[c := u]);
      BumpPasskeyEpoch(u);
      return Ok(c);
    }

    method DeletePasskey(rules: EmailRules, u: nat, c: nat) returns (r: Result<nat, ServiceError>)
      modifies this`tables
      ensures RunAlone(rules, old(tables), Delete(u, c, DelEntering)) == if r.Ok? then Some(tables) else None
      ensures r.Err? ==> tables == old(tables)
      ensures r == Ok(c) || r == Err(NoSuchUser) || r == Err(NotFound) || r == Err(LockoutGuard)
      ensures r.Ok? ==> tables.users == old(tables).users && tables.passkeys == old(tables).passkeys - {c}
                        && tables.epochs == old(tables).epochs[u := NextEpoch(old(tables).epochs, u)]
      ensures r == Err(NotFound) ==> c !in PasskeysOf(tables, u)
      ensures r == Err(LockoutGuard) ==> PasskeysOf(tables, u) == {c} && u in tables.users && !tables.users[u].usablePassword
    {
      ghost var p := Delete(u, c, DelEntering);
      if u !in tables.users {
        return Err(NoSuchUser);
      }
      var usable := tables.users[u].usablePassword;
      assert RunAlone(rules, tables, p) == RunAlone(rules, tables, p.(delete := DelLocked(usable)));
      if c !in tables.passkeys || tables.passkeys[c] != u {
        return Err(NotFound);
      }
      if !usable && |PasskeysOf(tables, u)| == 1 {
        OnlyMember(PasskeysOf(tables, u), c);
        return Err(LockoutGuard);
      }
      assert RunAlone(rules, tables, p) == RunAlone(rules, tables, p.(delete := Deleting));
      ghost var bumped := p.(delete := DelBumped(Epoch(tables, u) + 1));
      assert RunAlone(rules, tables, p.(delete := Deleted)) == RunAlone(rules, tables, bumped);
      tables := tables.(passkeys := tables.passkeys - {c});
      BumpPasskeyEpoch(u);
      return Ok(c);
    }

    /** The password check sits between the guard and the write; a wrong password rolls back. */
    method RemovePassword(rules: EmailRules, u: nat, passwordMatches: bool) returns (r: Result<nat, ServiceError>)
      modifies this`tables
      ensures r.Ok? ==> passwordMatches &&
                        RunAlone(rules, old(tables), Accounts.RemovePassword(u, RemEntering)) == Some(tables)
      ensures r.Ok? ==> u in old(tables).users && tables == old(tables).(users := old(tables).users[u :=
                          User(old(tables).users[u].username, old(tables).users[u].email, false)])
      ensures r.Err? ==> tables == old(tables)
      ensures r == Ok(u) || r == Err(NoSuchUser) || r == Err(LockoutGuard) || r == Err(WrongPassword)
      ensures r == Err(WrongPassword) ==> !passwordMatches
      ensures r.Err? && r != Err(WrongPassword) ==>
                RunAlone(rules, tables, Accounts.RemovePassword(u, RemEntering)) == None
    {
      ghost var p := Accounts.RemovePassword(u, RemEntering);
      if u !in tables.users {
        return Err(NoSuchUser);
      }
      var usable := tables.users[u].usablePassword;
      assert RunAlone(rules, tables, p) == RunAlone(rules, tables, p.(remove := RemLocked(usable)));
      if !usable || PasskeysOf(tables, u) == {} {
        return Err(LockoutGuard);
      }
      if !passwordMatches {
        return Err(WrongPassword);
      }
      assert RunAlone(rules, tables, p.(remove := Cleared)) == Some(WithPassword(tables, u, false));
      tables := WithPassword(tables, u, false);
      return Ok(u);
    }

    method DeleteCredentials(u: nat, kind: CredentialKind)
      modifies this`credentials
      ensures credentials == set r | r in old(credentials) && !(r.kind == kind && r.owner == Some(u))
    {
      credentials := set r | r in credentials && !(r.kind == kind && r.owner == Some(u));
    }

    /** The six deletes together leave the user nothing, and nobody else loses anything. */
    method RevokeAllTokens(u: nat)
      modifies this`credentials
      ensures credentials == old(credentials) - OwnedBy(old(credentials), u)
      ensures forall r :: r in credentials <==> r in old(credentials) && r.owner != Some(u)
    {
      DeleteCredentials(u, DrfToken);
      DeleteCredentials(u, Grant);
      DeleteCredentials(u, RefreshToken);
      DeleteCredentials(u, AccessToken);
      DeleteCredentials(u, IdToken);
      DeleteCredentials(u, Pairing);
    }

    /** Scan every live row for the user's, then delete the matches a chunk at a time. */
    method DeleteUserSessions(u: nat, keep: Option<string>, now: int)
      modifies this`sessions
      ensures sessions == map k | k in old(sessions) && !Stale(k, old(sessions)[k], u, keep, now) :: old(sessions)[k]
      ensures forall k :: k in sessions ==> k in old(sessions) && sessions[k] == old(sessions)[k]
      ensures forall k :: k in old(sessions) ==>
                (k !in sessions <==> old(sessions)[k].user == Some(u) && old(sessions)[k].expires > now && keep != Some(k))
    {
      var stale: seq<string> := [];
      var unread := sessions.Keys;
      while unread != {}
        invariant sessions == old(sessions) && unread <= sessions.Keys
        invariant forall k :: k in stale <==> k in sessions && k !in unread && Stale(k, sessions[k], u, keep, now)
        decreases unread
      {
        var k :| k in unread;
        unread := unread - {k};
        if Stale(k, sessions[k], u, keep, now) {
          stale := stale + [k];
        }
      }
      var start := 0;
      while start < |stale|
        invariant 0 <= start
        invariant start <= |stale| ==> sessions == old(sessions) - (set k | k in stale[..start])
        invariant start > |stale| ==> sessions == old(sessions) - (set k | k in stale)
        decreases |stale| - start
      {
        var stop := if start + SESSION_DELETE_CHUNK <= |stale| then start + SESSION_DELETE_CHUNK else |stale|;
        var chunk := stale[start..stop];
        assert stale[..stop] == stale[..start] + chunk;
        sessions := sessions - (set k | k in chunk);
        start := start + SESSION_DELETE_CHUNK;
        assert start > |stale| ==> stale[..stop] == stale;
      }
      assert start == |stale| ==> stale[..start] == stale;
    }

    /** Transaction A, retried. */
    method RevokeWithRetry(u: nat, faults: nat -> Fault) returns (ok: bool, attempts: nat)
      modifies this`credentials
      ensures (ok, attempts) == RetryOutcome(faults, 1)
      ensures credentials == if ok then old(credentials) - OwnedBy(old(credentials), u) else old(credentials)
    {
      attempts := 1;
      while true
        invariant 1 <= attempts <= MAX_RECOVERY_ATTEMPTS && credentials == old(credentials)
        invariant RetryOutcome(faults, 1) == RetryOutcome(faults, attempts)
        decreases MAX_RECOVERY_ATTEMPTS - attempts
      {
        if faults(attempts).Clean? {
          RevokeAllTokens(u);
          return true, attempts;
        }
        if attempts == MAX_RECOVERY_ATTEMPTS || faults(attempts).Fatal? {
          return false, attempts;
        }
        attempts := attempts + 1;
      }
    }

    /** Transaction B, retried. A duplicate credential is raised at the first attempt that gets as
        far as the insert, and is not retried. */
    method StoreWithRetry(rules: EmailRules, u: nat, c: nat, recovery: nat, keep: Option<string>, now: int, faults: nat -> Fault)
      returns (r: Result<nat, ServiceError>, attempts: nat)
      modifies this`tables, this`sessions
      ensures attempts == RetryOutcome(faults, 1).1
      ensures r.Ok? <==> Commits(faults) && RunAlone(rules, old(tables), Store(u, c, Recovering(recovery), Entering)).Some?
      ensures r.Ok? ==> RunAlone(rules, old(tables), Store(u, c, Recovering(recovery), Entering)) == Some(tables)
      ensures r.Ok? ==> sessions == map k | k in old(sessions) && !Stale(k, old(sessions)[k], u, keep, now) :: old(sessions)[k]
      ensures r.Err? ==> tables == old(tables) && sessions == old(sessions)
    {
      attempts := 1;
      while true
        invariant 1 <= attempts <= MAX_RECOVERY_ATTEMPTS && tables == old(tables) && sessions == old(sessions)
        invariant RetryOutcome(faults, 1) == RetryOutcome(faults, attempts)
        decreases MAX_RECOVERY_ATTEMPTS - attempts
      {
        if faults(attempts).Clean? {
          r := StorePasskey(rules, u, c, Recovering(recovery));
          if r.Ok? {
            DeleteUserSessions(u, keep, now);
          }
          return r, attempts;
        }
        if attempts == MAX_RECOVERY_ATTEMPTS || faults(attempts).Fatal? {
          return Err(DatabaseFailed), attempts;
        }
        attempts := attempts + 1;
      }
    }

    /** Everything after the challenge is burned and the credential verified. For every fault
        sequence the database ends in one of three states. */
    method FinishRecover(
        rules: EmailRules, u: nat, c: nat, recovery: nat, keep: Option<string>, now: int,
        faultsA: nat -> Fault, faultsB: nat -> Fault, sweepFails: bool)
      returns (r: Result<nat, ServiceError>, attemptsA: nat, attemptsB: nat)
      modifies this
      ensures attemptsA <= 5 && attemptsB <= 5
      ensures var stored := RunAlone(rules, old(tables), Store(u, c, Recovering(recovery), Entering));
              var rest := old(credentials) - OwnedBy(old(credentials), u);
              if !Commits(faultsA) then
                r.Err? && attemptsB == 0 && tables == old(tables) && credentials == old(credentials) && sessions == old(sessions)
              else if !Commits(faultsB) || stored.None? then
                r.Err? && tables == old(tables) && credentials == rest && sessions == old(sessions)
              else
                && r.Ok? && tables == stored.value && credentials == rest
                && sessions == map k | k in old(sessions) && !Stale(k, old(sessions)[k], u, keep, now) :: old(sessions)[k]
    {
      RetryStopsAtFirstOther(faultsA, 1);
      RetryStopsAtFirstOther(faultsB, 1);
      attemptsB := 0;
      var revoked;
      revoked, attemptsA := RevokeWithRetry(u, faultsA);
      if !revoked {
        return Err(DatabaseFailed), attemptsA, 0;
      }
      r, attemptsB := StoreWithRetry(rules, u, c, recovery, keep, now, faultsB);
      if r.Err? {
        return;
      }
      if !sweepFails {
        RevokeAllTokens(u);
      }
    }

    /** form_valid: the password is already saved when the revocation starts, so neither the retried
        revocation nor the sweep after it is allowed to raise. */
    method CompletePasswordReset(u: nat, faults: nat -> Fault, sweepFails: bool)
      modifies this`tables, this`credentials
      ensures tables == if u in old(tables).users then old(tables).(users := old(tables).users[u :=
                          User(old(tables).users[u].username, old(tables).users[u].email, true)]) else old(tables)
      ensures credentials == if Commits(faults) || !sweepFails then old(credentials) - OwnedBy(old(credentials), u)
                             else old(credentials)
    {
      tables := WithPassword(tables, u, true);
      var revoked, _ := RevokeWithRetry(u, faults);
      if !sweepFails {
        RevokeAllTokens(u);
      }
    }
  }

  lemma OnlyMember(s: set<nat>, c: nat)
    requires c in s && |s| == 1
    ensures s == {c}
  {
    assert |s - {c}| == 0;
  }

  // ---------------------------------------------------------------- what each of them does, in table fields

  /** A stored passkey is new, belongs to the account, and moves its epoch by exactly one; nothing else in the
      tables changes. Only a registration minds the cap. */
  lemma StoredExactlyOnePasskey(rules: EmailRules, db: Tables, u: nat, c: nat, origin: Origin)
    ensures var after := RunAlone(rules, db, Store(u, c, origin, Entering));
            && (after.Some? <==> u in db.users && c !in db.passkeys
                                 && (origin == Registering ==> |set k | k in db.passkeys && db.passkeys[k] == u| < 20))
            && (after.Some? ==> after.value == Tables(db.users, db.passkeys[c := u], db.epochs[u := NextEpoch(db.epochs, u)]))
  {
    var p := Store(u, c, origin, Entering);
    assert PasskeysOf(db, u) == set k | k in db.passkeys && db.passkeys[k] == u;
    if u in db.users {
      assert RunAlone(rules, db, p) == RunAlone(rules, db, p.(store := Locked));
      if !(origin.Registering? && |PasskeysOf(db, u)| >= PASSKEY_MAX_PER_USER) {
        assert RunAlone(rules, db, p) == RunAlone(rules, db, p.(store := Inserting));
        if c !in db.passkeys {
          var bumped := p.(store := Bumped(Epoch(db, u) + 1));
          assert RunAlone(rules, db, p.(store := Inserted)) == RunAlone(rules, db, bumped);
        }
      }
    }
  }

  /** A deletion succeeds exactly when the account owns the passkey and has a usable password or another
      passkey; then that passkey is gone, the epoch has moved by one, and nothing else has changed. */
  lemma DeletedExactlyOnePasskey(rules: EmailRules, db: Tables, u: nat, c: nat)
    ensures var after := RunAlone(rules, db, Delete(u, c, DelEntering));
            && (after.Some? <==> u in db.users && c in db.passkeys && db.passkeys[c] == u
                                 && (db.users[u].usablePassword || exists k :: k in db.passkeys && db.passkeys[k] == u && k != c))
            && (after.Some? ==> after.value == Tables(db.users, db.passkeys - {c}, db.epochs[u := NextEpoch(db.epochs, u)]))
  {
    var p := Delete(u, c, DelEntering);
    OwnedMeans(db, u);
    if u in db.users {
      var usable := db.users[u].usablePassword;
      assert RunAlone(rules, db, p) == RunAlone(rules, db, p.(delete := DelLocked(usable)));
      if c in db.passkeys && db.passkeys[c] == u {
        OnlyOrOther(PasskeysOf(db, u), c);
        if usable || exists k :: k in PasskeysOf(db, u) && k != c {
          assert RunAlone(rules, db, p) == RunAlone(rules, db, p.(delete := Deleting));
          var bumped := p.(delete := DelBumped(Epoch(db, u) + 1));
          assert RunAlone(rules, db, p.(delete := Deleted)) == RunAlone(rules, db, bumped);
        } else {
          assert RunAlone(rules, db, p.(delete := DelLocked(usable))) == None;
        }
      }
    }
  }

  lemma OwnedMeans(db: Tables, u: nat)
    ensures forall k :: k in db.passkeys && db.passkeys[k] == u ==> k in PasskeysOf(db, u)
  {
  }

  lemma OnlyOrOther(s: set<nat>, c: nat)
    requires c in s
    ensures |s| == 1 <==> forall k :: k in s ==> k == c
  {
    if |s| == 1 {
      OnlyMember(s, c);
    }
    if forall k :: k in s ==> k == c {
      assert s == {c};
    }
  }

  /** A password is removed exactly when it is usable and the account has a passkey. */
  lemma RemovedExactlyThePassword(rules: EmailRules, db: Tables, u: nat)
    ensures var after := RunAlone(rules, db, Accounts.RemovePassword(u, RemEntering));
            && (after.Some? <==> u in db.users && db.users[u].usablePassword && exists k :: k in db.passkeys && db.passkeys[k] == u)
            && (after.Some? ==> after.value == db.(users := db.users[u := User(db.users[u].username, db.users[u].email, false)]))
  {
    var p := Accounts.RemovePassword(u, RemEntering);
    OwnedMeans(db, u);
    if u in db.users {
      assert RunAlone(rules, db, p) == RunAlone(rules, db, p.(remove := RemLocked(db.users[u].usablePassword)));
      if db.users[u].usablePassword && exists k :: k in PasskeysOf(db, u) {
        assert RunAlone(rules, db, p) == RunAlone(rules, db, p.(remove := Cleared));
      } else {
        assert RunAlone(rules, db, p.(remove := RemLocked(db.users[u].usablePassword))) == None;
      }
    }
  }

  lemma ResetExactlyThePassword(rules: EmailRules, db: Tables, u: nat)
    ensures var after := RunAlone(rules, db, ResetPassword(u, false));
            && (after.Some? <==> u in db.users)
            && (after.Some? ==> after.value == db.(users := db.users[u := User(db.users[u].username, db.users[u].email, true)]))
  {
  }

  /** No account has the address, in either of the two comparisons together, or the username. */
  ghost predicate NobodyHas(rules: EmailRules, db: Tables, username: string, email: string) {
    forall v :: v in db.users ==>
      && db.users[v].username != username
      && !(rules.iexact(email, db.users[v].email) && rules.fold(email) == rules.fold(db.users[v].email))
  }

  lemma ClaimedIsRefused(rules: EmailRules, db: Tables, username: string, email: string)
    ensures NobodyHas(rules, db, username, email) <==> !EmailTaken(rules, db, email) && !NameTaken(db, username)
  {
  }

  /** A passkey signup succeeds exactly when its address, username, id and credential are unclaimed, and adds
      the account without a password and with its one passkey. */
  lemma SignedUpWithPasskey(rules: EmailRules, db: Tables, u: nat, username: string, email: string, c: nat)
    ensures var after := RunAlone(rules, db, PasskeySignup(u, username, email, c, KeyWanted));
            && (after.Some? <==> NobodyHas(rules, db, username, email) && u !in db.users && c !in db.passkeys)
            && (after.Some? ==> after.value == Tables(db.users[u := User(username, email, false)], db.passkeys[c := u],
                                                      db.epochs[u := NextEpoch(db.epochs, u)]))
  {
    ClaimedIsRefused(rules, db, username, email);
    var p := PasskeySignup(u, username, email, c, KeyWanted);
    assert RunAlone(rules, db, p) == RunAlone(rules, db, PasskeySignup(u, username, email, c, KeyHeld));
    if !EmailTaken(rules, db, email) {
      assert RunAlone(rules, db, p) == RunAlone(rules, db, PasskeySignup(u, username, email, c, Unclaimed));
      if !NameTaken(db, username) {
        assert RunAlone(rules, db, p) == RunAlone(rules, db, PasskeySignup(u, username, email, c, NameHeld));
        if u !in db.users {
          InsertedSignup(rules, db, u, username, email, c);
        }
      }
    }
  }

  lemma InsertedSignup(rules: EmailRules, db: Tables, u: nat, username: string, email: string, c: nat)
    ensures RunAlone(rules, db, PasskeySignup(u, username, email, c, UserInserted)) ==
              if c in db.passkeys then None
              else Some(Tables(db.users[u := User(username, email, false)], db.passkeys[c := u],
                               db.epochs[u := NextEpoch(db.epochs, u)]))
  {
    if c !in db.passkeys {
      var counted := PasskeySignup(u, username, email, c, Counted(Epoch(db, u) + 1));
      assert RunAlone(rules, db, PasskeySignup(u, username, email, c, UserInserted))
             == RunAlone(rules, db, PasskeySignup(u, username, email, c, PasskeyInserted)) == RunAlone(rules, db, counted);
    }
  }

  lemma SignedUpWithPassword(rules: EmailRules, db: Tables, u: nat, username: string, email: string)
    ensures var after := RunAlone(rules, db, PasswordSignup(u, username, email, KeyWanted));
            && (after.Some? <==> NobodyHas(rules, db, username, email) && u !in db.users)
            && (after.Some? ==> after.value == db.(users := db.users[u := User(username, email, true)]))
  {
    ClaimedIsRefused(rules, db, username, email);
    var p := PasswordSignup(u, username, email, KeyWanted);
    assert RunAlone(rules, db, p) == RunAlone(rules, db, PasswordSignup(u, username, email, KeyHeld));
    if !EmailTaken(rules, db, email) {
      assert RunAlone(rules, db, p) == RunAlone(rules, db, PasswordSignup(u, username, email, Unclaimed));
      if !NameTaken(db, username) {
        assert RunAlone(rules, db, p) == RunAlone(rules, db, PasswordSignup(u, username, email, NameHeld));
        if u !in db.users {
          assert RunAlone(rules, db, p) == RunAlone(rules, db, PasswordSignup(u, username, email, UserInserted));
        }
      }
    }
  }
}
