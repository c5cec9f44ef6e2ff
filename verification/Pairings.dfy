/** Desktop sign-in pairings and the DRF tokens they are redeemed for, as a READ COMMITTED
    transition system. redeem and revoke_all_tokens run statement by statement under row locks, and
    so does the purge in begin: a DELETE of many rows keeps each row it has deleted while it waits
    for the next. begin's insert, approve, deny, login and logout are statements on one row that wait
    for its holder. */
module Pairings {
  import opened Options

  datatype Status = Pending | Approved | Denied

  datatype Row = Row(code: nat, status: Status, user: Option<nat>, expires: int)

  datatype RedeemStage =
    | Waiting                                   // SELECT ... FOR UPDATE not granted yet
    | Held(row: Row)                            // row locked, status read
    | Missing(row: Row)                         // row deleted, no token found for its user
    | Keyed(row: Row, key: nat, inserted: bool) // row deleted, token found or inserted

  datatype RevokeStage =
    | WantsKey                                  // advisory lock not granted yet
    | HasKey
    | TokensDeleted(had: bool)
    | Deleting(had: bool, covered: set<nat>, targets: set<nat>, doomed: set<nat>)

  /** A redeem reads the clock before its select. A revocation may be a sweep following an earlier
      one that has committed. `covered` is history: the pairings approved for the user when the
      pairing delete took its snapshot. A purge is one DELETE of the rows its snapshot shows expired. */
  datatype Txn =
    | Redeem(device: nat, at: int, redeem: RedeemStage)
    | Revoke(user: nat, follows: Option<nat>, revoke: RevokeStage)
    | Purge(expired: set<nat>, purged: set<nat>)

  datatype Event =
    | WasApproved(device: nat, user: nat)
    | WasDenied(device: nat)
    | AnsweredDenied(device: nat)
    | AnsweredApproved(device: nat, user: nat, key: nat, at: int, expires: int)
    | PairingDeleteStarted(txn: nat, user: nat)

  /** A committed revocation, and whether its token delete found a token. */
  datatype Pass = Pass(user: nat, follows: Option<nat>, covered: set<nat>, had: bool)

  datatype State = State(
    now: int,
    rows: map<nat, Row>,            // by hash of the device code
    tokens: map<nat, nat>,          // one key per user
    issued: set<nat>,               // device codes ever handed out
    minted: set<nat>,               // token keys ever drawn
    used: set<nat>,                 // transaction ids ever used
    txns: map<nat, Txn>,
    passes: map<nat, Pass>,
    log: seq<Event>)

  // ---------------------------------------------------------------- locks

  /** The rows a multi-row delete has still to take, and those it has taken. */
  function Targets(t: Txn): set<nat> {
    match t
    case Redeem(_, _, _) => {}
    case Revoke(_, _, st) => if st.Deleting? then st.targets else {}
    case Purge(expired, _) => expired
  }

  function Doomed(t: Txn): set<nat> {
    match t
    case Redeem(_, _, _) => {}
    case Revoke(_, _, st) => if st.Deleting? then st.doomed else {}
    case Purge(_, purged) => purged
  }

  predicate HoldsRow(t: Txn, p: nat) {
    (t.Redeem? && t.device == p && !t.redeem.Waiting?) || p in Doomed(t)
  }

  predicate HoldsToken(t: Txn, u: nat) {
    match t
    case Redeem(_, _, st) => st.Keyed? && st.inserted && st.row.user == Some(u)
    case Revoke(v, _, st) => u == v && ((st.TokensDeleted? && st.had) || (st.Deleting? && st.had))
    case Purge(_, _) => false
  }

  predicate HoldsKey(t: Txn, u: nat) {
    t.Revoke? && t.user == u && !t.revoke.WantsKey?
  }

  predicate RowFree(s: State, p: nat) {
    forall o :: o in s.txns ==> !HoldsRow(s.txns[o], p)
  }

  predicate TokenFree(s: State, u: nat) {
    forall o :: o in s.txns ==> !HoldsToken(s.txns[o], u)
  }

  predicate KeyFree(s: State, u: nat) {
    forall o :: o in s.txns ==> !HoldsKey(s.txns[o], u)
  }

  // ---------------------------------------------------------------- statements

  /** approve and deny: a conditional update of a still-pending row. */
  predicate Decidable(rows: map<nat, Row>, p: nat) {
    p in rows && rows[p].status.Pending?
  }

  function Decided(rows: map<nat, Row>, p: nat, status: Status, user: Option<nat>): map<nat, Row> {
    if Decidable(rows, p) then rows[p := rows[p].(status := status, user := user)] else rows
  }

  function OwnedBy(rows: map<nat, Row>, u: nat): set<nat> {
    set p | p in rows && rows[p].user == Some(u)
  }

  /** filter(expires_at__lte=cutoff) */
  function Expired(rows: map<nat, Row>, cutoff: int): set<nat> {
    set p | p in rows && rows[p].expires <= cutoff
  }

  /** A multi-row delete passes row p: it takes the row, or finds it gone. */
  function Passed(t: Txn, p: nat, there: bool): Txn
    requires p in Targets(t)
  {
    match t
    case Redeem(_, _, _) => t
    case Revoke(u, follows, st) =>
      Revoke(u, follows, Deleting(st.had, st.covered, st.targets - {p}, if there then st.doomed + {p} else st.doomed))
    case Purge(expired, purged) => Purge(expired - {p}, if there then purged + {p} else purged)
  }

  /** Every pairing ever approved for u. */
  function ApprovedFor(log: seq<Event>, u: nat): set<nat> {
    set k | 0 <= k < |log| && log[k].WasApproved? && log[k].user == u :: log[k].device
  }

  datatype Action =
    | Tick(seconds: nat)
    | Create(device: nat, code: nat, ttl: nat)
    | BeginPurge(txn: nat, cutoff: int)
    | Approve(device: nat, user: nat)
    | Deny(device: nat)
    | Login(user: nat, key: nat)
    | Logout(user: nat)
    | BeginRedeem(txn: nat, device: nat)
    | Select(txn: nat)
    | GetToken(txn: nat)
    | InsertToken(txn: nat, key: nat)
    | BeginRevoke(txn: nat, user: nat, follows: Option<nat>)
    | TakeKey(txn: nat)
    | DeleteTokens(txn: nat)
    | StartPairingDelete(txn: nat)
    | DeletePairing(txn: nat, device: nat)
    | Commit(txn: nat)
    | Abort(txn: nat)

  predicate IsRedeem(s: State, t: nat) { t in s.txns && s.txns[t].Redeem? }

  predicate IsRevoke(s: State, t: nat) { t in s.txns && s.txns[t].Revoke? }

  predicate CanCommit(t: Txn) {
    match t
    case Redeem(_, _, st) => st.Keyed? || (st.Held? && !st.row.status.Approved?)
    case Revoke(_, _, st) => st.Deleting? && st.targets == {}
    case Purge(expired, _) => expired == {}
  }

  predicate Enabled(s: State, a: Action) {
    match a
    case Tick(_) => true
    case Create(p, code, _) => p !in s.issued && forall q :: q in s.rows ==> s.rows[q].code != code
    case BeginPurge(t, cutoff) => t !in s.used && cutoff <= s.now
    case Approve(p, _) => RowFree(s, p)
    case Deny(p) => RowFree(s, p)
    case Login(u, k) => u in s.tokens || (TokenFree(s, u) && k !in s.minted)
    case Logout(u) => TokenFree(s, u)
    case BeginRedeem(t, _) => t !in s.used
    case Select(t) =>
      && IsRedeem(s, t) && s.txns[t].redeem.Waiting? && RowFree(s, s.txns[t].device)
      && s.txns[t].device in s.rows && s.rows[s.txns[t].device].expires > s.txns[t].at
    case GetToken(t) => IsRedeem(s, t) && s.txns[t].redeem.Held? && s.txns[t].redeem.row.status.Approved? && s.txns[t].redeem.row.user.Some?
    case InsertToken(t, k) =>
      && IsRedeem(s, t) && s.txns[t].redeem.Missing? && s.txns[t].redeem.row.user.Some?
      && TokenFree(s, s.txns[t].redeem.row.user.value) && k !in s.minted
    case BeginRevoke(t, u, follows) =>
      && t !in s.used
      && (follows.Some? ==> follows.value in s.passes && s.passes[follows.value].user == u)
    case TakeKey(t) => IsRevoke(s, t) && s.txns[t].revoke.WantsKey? && KeyFree(s, s.txns[t].user)
    case DeleteTokens(t) =>
      && IsRevoke(s, t) && s.txns[t].revoke.HasKey?
      && (s.txns[t].user in s.tokens ==> TokenFree(s, s.txns[t].user))
    case StartPairingDelete(t) => IsRevoke(s, t) && s.txns[t].revoke.TokensDeleted?
    case DeletePairing(t, p) => t in s.txns && p in Targets(s.txns[t]) && RowFree(s, p)
    case Commit(t) => t in s.txns && CanCommit(s.txns[t])
    case Abort(t) => t in s.txns
  }

  function SetTxn(s: State, t: nat, q: Txn): State {
    s.(txns := s.txns[t := q])
  }

  function Do(s: State, a: Action): State
    requires Enabled(s, a)
  {
    match a
    case Tick(seconds) => s.(now := s.now + seconds)
    case Create(p, code, ttl) =>
      s.(rows := s.rows[p := Row(code, Pending, None, s.now + ttl)], issued := s.issued + {p})
    case BeginPurge(t, cutoff) => SetTxn(s.(used := s.used + {t}), t, Purge(Expired(s.rows, cutoff), {}))
    case Approve(p, u) =>
      s.(rows := Decided(s.rows, p, Approved, Some(u)),
         log := if Decidable(s.rows, p) then s.log + [WasApproved(p, u)] else s.log)
    case Deny(p) =>
      s.(rows := Decided(s.rows, p, Denied, None),
         log := if Decidable(s.rows, p) then s.log + [WasDenied(p)] else s.log)
    case Login(u, k) =>
      if u in s.tokens then s else s.(tokens := s.tokens[u := k], minted := s.minted + {k})
    case Logout(u) => s.(tokens := s.tokens - {u})
    case BeginRedeem(t, p) => SetTxn(s.(used := s.used + {t}), t, Redeem(p, s.now, Waiting))
    case Select(t) => SetTxn(s, t, s.txns[t].(redeem := Held(s.rows[s.txns[t].device])))
    case GetToken(t) =>
      var row := s.txns[t].redeem.row;
      SetTxn(s, t, s.txns[t].(redeem :=
        if row.user.value in s.tokens then Keyed(row, s.tokens[row.user.value], false) else Missing(row)))
    case InsertToken(t, k) =>
      // A unique-key failure is answered by reading the winner's row.
      var row := s.txns[t].redeem.row;
      if row.user.value in s.tokens then
        SetTxn(s, t, s.txns[t].(redeem := Keyed(row, s.tokens[row.user.value], false)))
      else SetTxn(s.(minted := s.minted + {k}), t, s.txns[t].(redeem := Keyed(row, k, true)))
    case BeginRevoke(t, u, follows) => SetTxn(s.(used := s.used + {t}), t, Revoke(u, follows, WantsKey))
    case TakeKey(t) => SetTxn(s, t, s.txns[t].(revoke := HasKey))
    case DeleteTokens(t) => SetTxn(s, t, s.txns[t].(revoke := TokensDeleted(s.txns[t].user in s.tokens)))
    case StartPairingDelete(t) =>
      var u := s.txns[t].user;
      SetTxn(s.(log := s.log + [PairingDeleteStarted(t, u)]), t,
             s.txns[t].(revoke := Deleting(s.txns[t].revoke.had, ApprovedFor(s.log, u), OwnedBy(s.rows, u), {})))
    case DeletePairing(t, p) => SetTxn(s, t, Passed(s.txns[t], p, p in s.rows))
    case Commit(t) => Ended(s, t).(txns := s.txns - {t})
    case Abort(t) => s.(txns := s.txns - {t})
  }

  /** The rows and the answer a commit publishes. */
  function Ended(s: State, t: nat): State
    requires t in s.txns && CanCommit(s.txns[t])
  {
    match s.txns[t]
    case Redeem(p, at, st) =>
      if st.Held? then
        if st.row.status.Pending? then s
        else s.(rows := s.rows - {p}, log := s.log + [AnsweredDenied(p)])
      else
        var u := if st.row.user.Some? then st.row.user.value else 0;
        s.(rows := s.rows - {p}, tokens := if st.inserted then s.tokens[u := st.key] else s.tokens,
           log := s.log + [AnsweredApproved(p, u, st.key, at, st.row.expires)])
    case Revoke(u, follows, st) =>
      s.(rows := s.rows - st.doomed, tokens := if st.had then s.tokens - {u} else s.tokens,
         passes := s.passes[t := Pass(u, follows, st.covered, st.had)])
    case Purge(_, purged) => s.(rows := s.rows - purged)
  }

  ghost predicate IsRun(states: seq<State>, actions: seq<Action>) {
    && |states| == |actions| + 1
    && forall i {:trigger actions[i]} :: 0 <= i < |actions| ==> Enabled(states[i], actions[i]) && states[i + 1] == Do(states[i], actions[i])
  }

  /** No pairing yet, and every user's token is their own. */
  predicate Quiet(s: State) {
    && s.rows == map[] && s.txns == map[] && s.passes == map[] && s.log == [] && s.issued == {} && s.used == {}
    && (forall u :: u in s.tokens ==> s.tokens[u] in s.minted)
    && (forall u, v :: u in s.tokens && v in s.tokens && s.tokens[u] == s.tokens[v] ==> u == v)
  }
}
