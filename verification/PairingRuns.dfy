/** What every step of the pairing transactions keeps: locks are exclusive, their holders see their rows as
    they are, and a device code is decided and answered at most once. */
module PairingRuns {
  import opened Options
  import opened Pairings

  // ---------------------------------------------------------------- locks and rows

  ghost predicate Exclusive(s: State) {
    forall t, o :: t in s.txns && o in s.txns && t != o ==> Apart(s.txns[t], s.txns[o])
  }

  ghost predicate Apart(x: Txn, y: Txn) {
    && (forall p :: !(HoldsRow(x, p) && HoldsRow(y, p)))
    && (forall u :: !(HoldsToken(x, u) && HoldsToken(y, u)))
    && (forall u :: !(HoldsKey(x, u) && HoldsKey(y, u)))
  }

  /** A pending or denied row has no user; an approved one has. */
  predicate WellFormed(row: Row) {
    row.status.Approved? <==> row.user.Some?
  }

  ghost predicate RowsSound(s: State) {
    forall p :: p in s.rows ==> p in s.issued && WellFormed(s.rows[p])
  }

  /** A redeem holding its row sees it as it is. */
  ghost predicate RedeemSound(s: State, t: Txn) {
    t.Redeem? && !t.redeem.Waiting? ==>
      && t.device in s.rows && s.rows[t.device] == t.redeem.row && t.redeem.row.expires > t.at
      && (!t.redeem.Held? ==> t.redeem.row.status.Approved?)
  }

  /** The rows a multi-row delete is for. */
  predicate Chooses(s: State, t: Txn, row: Row) {
    match t
    case Redeem(_, _, _) => true
    case Revoke(u, _, _) => row.user == Some(u)
    case Purge(_, _) => row.expires <= s.now
  }

  /** A multi-row delete has taken, and still wants, only rows it is for. */
  ghost predicate DeleteSound(s: State, t: Txn) {
    && (forall p :: p in Doomed(t) ==> p in s.rows && Chooses(s, t, s.rows[p]))
    && (forall p :: p in Targets(t) ==> p in s.issued && p !in Doomed(t) && (p in s.rows ==> Chooses(s, t, s.rows[p])))
  }

  ghost predicate LocksSound(s: State) {
    && Exclusive(s) && RowsSound(s)
    && forall t :: t in s.txns ==> t in s.used && RedeemSound(s, s.txns[t]) && DeleteSound(s, s.txns[t])
  }

  /** Every lock q has that transaction t did not have was free. */
  ghost predicate TakesFreeLocks(s: State, t: nat, q: Txn) {
    && (forall p :: HoldsRow(q, p) && !(t in s.txns && HoldsRow(s.txns[t], p)) ==> RowFree(s, p))
    && (forall u :: HoldsToken(q, u) && !(t in s.txns && HoldsToken(s.txns[t], u)) ==> TokenFree(s, u))
    && (forall u :: HoldsKey(q, u) && !(t in s.txns && HoldsKey(s.txns[t], u)) ==> KeyFree(s, u))
  }

  lemma StatementKeepsExclusive(s: State, s': State, t: nat, q: Txn)
    requires Exclusive(s) && TakesFreeLocks(s, t, q) && s'.txns == s.txns[t := q]
    ensures Exclusive(s')
  {
    forall o | o in s.txns && o != t ensures Apart(q, s.txns[o]) && Apart(s.txns[o], q) {
      if t in s.txns {
        assert Apart(s.txns[t], s.txns[o]);
      }
    }
  }

  /** A statement of a transaction changes no row before the commit. */
  lemma StatementKeepsLocks(s: State, s': State, t: nat, q: Txn)
    requires LocksSound(s) && TakesFreeLocks(s, t, q) && RedeemSound(s, q) && DeleteSound(s, q)
    requires s'.txns == s.txns[t := q] && s.used <= s'.used && t in s'.used
    requires s'.rows == s.rows && s'.issued == s.issued && s'.now == s.now
    ensures LocksSound(s')
  {
    StatementKeepsExclusive(s, s', t, q);
    forall o | o in s'.txns ensures RedeemSound(s', s'.txns[o]) && DeleteSound(s', s'.txns[o]) {
      if o != t {
        assert RedeemSound(s, s.txns[o]) && DeleteSound(s, s.txns[o]);
      }
    }
  }

  /** Autocommitted statements only touch rows and tokens nobody holds. */
  lemma AutocommitKeepsLocks(s: State, s': State)
    requires LocksSound(s) && RowsSound(s') && s'.txns == s.txns && s'.used == s.used
    requires s.issued <= s'.issued && s.now <= s'.now
    requires forall p :: p in s.rows ==> p in s'.rows && s'.rows[p].expires == s.rows[p].expires
    requires forall p :: p in s'.rows ==> p in s.rows || p !in s.issued
    requires forall p :: p in s.rows && s'.rows[p] != s.rows[p] ==> RowFree(s, p) && s.rows[p].user == None
    ensures LocksSound(s')
  {
    forall t | t in s'.txns ensures RedeemSound(s', s'.txns[t]) && DeleteSound(s', s'.txns[t]) {
      assert RedeemSound(s, s.txns[t]) && DeleteSound(s, s.txns[t]);
      if s.txns[t].Redeem? && !s.txns[t].redeem.Waiting? {
        assert HoldsRow(s.txns[t], s.txns[t].device);
      }
      forall p | p in Doomed(s.txns[t]) ensures HoldsRow(s.txns[t], p) {
      }
    }
  }

  lemma DecideKeepsLocks(s: State, a: Action)
    requires LocksSound(s) && Enabled(s, a) && (a.Approve? || a.Deny?)
    ensures LocksSound(Do(s, a))
  {
    AutocommitKeepsLocks(s, Do(s, a));
  }

  lemma RowlessKeepsLocks(s: State, a: Action)
    requires LocksSound(s) && Enabled(s, a) && (a.Tick? || a.Create? || a.Login? || a.Logout?)
    ensures LocksSound(Do(s, a))
  {
    AutocommitKeepsLocks(s, Do(s, a));
  }

  lemma BeginKeepsLocks(s: State, a: Action)
    requires LocksSound(s) && Enabled(s, a) && (a.BeginRedeem? || a.BeginRevoke? || a.BeginPurge?)
    ensures LocksSound(Do(s, a))
  {
    StatementKeepsLocks(s, Do(s, a), a.txn, Do(s, a).txns[a.txn]);
  }

  lemma SelectKeepsLocks(s: State, t: nat)
    requires LocksSound(s) && Enabled(s, Select(t))
    ensures LocksSound(Do(s, Select(t)))
  {
    StatementKeepsLocks(s, Do(s, Select(t)), t, Do(s, Select(t)).txns[t]);
  }

  lemma GetKeepsLocks(s: State, t: nat)
    requires LocksSound(s) && Enabled(s, GetToken(t))
    ensures LocksSound(Do(s, GetToken(t)))
  {
    assert RedeemSound(s, s.txns[t]);
    StatementKeepsLocks(s, Do(s, GetToken(t)), t, Do(s, GetToken(t)).txns[t]);
  }

  /** A poll that has its token holds, beyond its row, at most the token it inserted. */
  lemma KeyedKeepsLocks(s: State, s': State, t: nat, key: nat, inserted: bool)
    requires LocksSound(s) && t in s.txns && s.txns[t].Redeem? && s.txns[t].redeem.Missing?
    requires inserted && s.txns[t].redeem.row.user.Some? ==> TokenFree(s, s.txns[t].redeem.row.user.value)
    requires s'.txns == s.txns[t := s.txns[t].(redeem := Keyed(s.txns[t].redeem.row, key, inserted))]
    requires s'.used == s.used && s'.rows == s.rows && s'.issued == s.issued && s'.now == s.now
    ensures LocksSound(s')
  {
    assert RedeemSound(s, s.txns[t]) && t in s.used;
    StatementKeepsLocks(s, s', t, s'.txns[t]);
  }

  lemma InsertKeepsLocks(s: State, t: nat, key: nat)
    requires LocksSound(s) && Enabled(s, InsertToken(t, key))
    ensures LocksSound(Do(s, InsertToken(t, key)))
  {
    var s' := Do(s, InsertToken(t, key));
    KeyedKeepsLocks(s, s', t, s'.txns[t].redeem.key, s'.txns[t].redeem.inserted);
  }

  lemma TakeKeyKeepsLocks(s: State, t: nat)
    requires LocksSound(s) && Enabled(s, TakeKey(t))
    ensures LocksSound(Do(s, TakeKey(t)))
  {
    StatementKeepsLocks(s, Do(s, TakeKey(t)), t, Do(s, TakeKey(t)).txns[t]);
  }

  lemma DeleteTokensKeepsLocks(s: State, t: nat)
    requires LocksSound(s) && Enabled(s, DeleteTokens(t))
    ensures LocksSound(Do(s, DeleteTokens(t)))
  {
    StatementKeepsLocks(s, Do(s, DeleteTokens(t)), t, Do(s, DeleteTokens(t)).txns[t]);
  }

  lemma StartDeleteKeepsLocks(s: State, t: nat)
    requires LocksSound(s) && Enabled(s, StartPairingDelete(t))
    ensures LocksSound(Do(s, StartPairingDelete(t)))
  {
    StatementKeepsLocks(s, Do(s, StartPairingDelete(t)), t, Do(s, StartPairingDelete(t)).txns[t]);
  }

  lemma PassedTakesOneRow(t: Txn, p: nat, there: bool)
    requires p in Targets(t)
    ensures Targets(Passed(t, p, there)) == Targets(t) - {p}
    ensures Doomed(Passed(t, p, there)) == if there then Doomed(t) + {p} else Doomed(t)
    ensures forall u :: HoldsToken(Passed(t, p, there), u) == HoldsToken(t, u) && HoldsKey(Passed(t, p, there), u) == HoldsKey(t, u)
    ensures !t.Redeem? && !Passed(t, p, there).Redeem?
    ensures forall s, row :: Chooses(s, Passed(t, p, there), row) == Chooses(s, t, row)
  {
  }

  lemma DeletePairingKeepsLocks(s: State, t: nat, p: nat)
    requires LocksSound(s) && Enabled(s, DeletePairing(t, p))
    ensures LocksSound(Do(s, DeletePairing(t, p)))
  {
    var q := Passed(s.txns[t], p, p in s.rows);
    PassedTakesOneRow(s.txns[t], p, p in s.rows);
    assert DeleteSound(s, s.txns[t]);
    StatementKeepsLocks(s, Do(s, DeletePairing(t, p)), t, q);
  }

  /** An end removes at most the rows its own transaction holds. */
  lemma EndKeepsLocks(s: State, s': State, t: nat)
    requires LocksSound(s) && t in s.txns && s'.txns == s.txns - {t}
    requires s'.issued == s.issued && s'.now == s.now && s'.used == s.used
    requires forall d :: d in s.rows && !HoldsRow(s.txns[t], d) ==> d in s'.rows
    requires forall d :: d in s'.rows ==> d in s.rows && s'.rows[d] == s.rows[d]
    ensures LocksSound(s')
  {
    forall o | o in s'.txns ensures RedeemSound(s', s'.txns[o]) && DeleteSound(s', s'.txns[o]) {
      assert Apart(s.txns[t], s.txns[o]);
      UntouchedTxnKeepsRows(s, s', s.txns[o]);
    }
  }

  lemma UntouchedTxnKeepsRows(s: State, s': State, t: Txn)
    requires RedeemSound(s, t) && DeleteSound(s, t) && s'.issued == s.issued && s'.now == s.now
    requires forall d :: d in s'.rows ==> d in s.rows && s'.rows[d] == s.rows[d]
    requires forall d :: d in s.rows && HoldsRow(t, d) ==> d in s'.rows
    ensures RedeemSound(s', t) && DeleteSound(s', t)
  {
    if t.Redeem? && !t.redeem.Waiting? {
      assert HoldsRow(t, t.device);
    }
    forall d | d in Doomed(t) ensures HoldsRow(t, d) {
    }
  }

  lemma CommitKeepsLocks(s: State, t: nat)
    requires LocksSound(s) && Enabled(s, Commit(t))
    ensures LocksSound(Do(s, Commit(t)))
  {
    EndKeepsLocks(s, Do(s, Commit(t)), t);
  }

  lemma AbortKeepsLocks(s: State, t: nat)
    requires LocksSound(s) && Enabled(s, Abort(t))
    ensures LocksSound(Do(s, Abort(t)))
  {
    EndKeepsLocks(s, Do(s, Abort(t)), t);
  }

  lemma StepKeepsLocks(s: State, a: Action)
    requires LocksSound(s) && Enabled(s, a)
    ensures LocksSound(Do(s, a))
  {
    if a.BeginRedeem? || a.BeginRevoke? || a.BeginPurge? {
      BeginKeepsLocks(s, a);
    } else if a.Select? {
      SelectKeepsLocks(s, a.txn);
    } else if a.GetToken? {
      GetKeepsLocks(s, a.txn);
    } else if a.InsertToken? {
      InsertKeepsLocks(s, a.txn, a.key);
    } else if a.TakeKey? {
      TakeKeyKeepsLocks(s, a.txn);
    } else if a.DeleteTokens? {
      DeleteTokensKeepsLocks(s, a.txn);
    } else if a.StartPairingDelete? {
      StartDeleteKeepsLocks(s, a.txn);
    } else if a.DeletePairing? {
      DeletePairingKeepsLocks(s, a.txn, a.device);
    } else if a.Commit? {
      CommitKeepsLocks(s, a.txn);
    } else if a.Abort? {
      AbortKeepsLocks(s, a.txn);
    } else if a.Approve? || a.Deny? {
      DecideKeepsLocks(s, a);
    } else {
      RowlessKeepsLocks(s, a);
    }
  }

  // ---------------------------------------------------------------- decisions and answers

  predicate Decides(e: Event, p: nat) {
    (e.WasApproved? || e.WasDenied?) && e.device == p
  }

  predicate Answers(e: Event, p: nat) {
    (e.AnsweredApproved? || e.AnsweredDenied?) && e.device == p
  }

  /** What a logged event says about its row now. */
  predicate EventHolds(s: State, e: Event) {
    match e
    case WasApproved(p, u) => p in s.issued && (p in s.rows ==> s.rows[p].status.Approved? && s.rows[p].user == Some(u))
    case WasDenied(p) => p in s.issued && (p in s.rows ==> s.rows[p].status.Denied?)
    case AnsweredDenied(p) => p in s.issued && p !in s.rows
    case AnsweredApproved(p, _, _, at, expires) => p in s.issued && p !in s.rows && at < expires
    case PairingDeleteStarted(_, _) => true
  }

  ghost predicate Backed(log: seq<Event>, p: nat, row: Row) {
    match row.status
    case Pending => true
    case Approved => row.user.Some? && WasApproved(p, row.user.value) in log
    case Denied => WasDenied(p) in log
  }

  ghost predicate DecisionsSound(s: State) {
    && (forall e :: e in s.log ==> EventHolds(s, e))
    && (forall p :: p in s.rows ==> Backed(s.log, p, s.rows[p]))
    && (forall i, j, p :: 0 <= i < j < |s.log| && Decides(s.log[i], p) ==> !Decides(s.log[j], p))
    && (forall i, j, p :: 0 <= i < j < |s.log| && Answers(s.log[i], p) ==> !Answers(s.log[j], p))
    && (forall k :: 0 <= k < |s.log| && s.log[k].AnsweredApproved? ==>
          WasApproved(s.log[k].device, s.log[k].user) in s.log[..k])
  }

  /** An approved or denied row's decision is logged; appending about an undecided, unanswered
      device keeps every device to one decision and one answer. */
  lemma AppendKeepsDecisions(s: State, s': State, e: Event)
    requires DecisionsSound(s) && s'.log == s.log + [e]
    requires forall x :: x in s.log + [e] ==> EventHolds(s', x)
    requires forall p :: p in s'.rows ==> Backed(s'.log, p, s'.rows[p])
    requires forall x, p :: x in s.log && Decides(x, p) ==> !Decides(e, p)
    requires forall x, p :: x in s.log && Answers(x, p) ==> !Answers(e, p)
    requires e.AnsweredApproved? ==> WasApproved(e.device, e.user) in s.log
    ensures DecisionsSound(s')
  {
    forall k | 0 <= k < |s'.log| && s'.log[k].AnsweredApproved?
      ensures WasApproved(s'.log[k].device, s'.log[k].user) in s'.log[..k]
    {
      assert s'.log[..k] == if k < |s.log| then s.log[..k] else s.log;
    }
  }

  /** Deciding a pending row: the row now carries the decision, and no earlier event was about it. */
  lemma DecisionKeepsDecisions(s: State, s': State, p: nat, e: Event)
    requires LocksSound(s) && DecisionsSound(s) && Decidable(s.rows, p)
    requires s'.log == s.log + [e] && s'.issued == s.issued && s'.rows.Keys == s.rows.Keys
    requires forall q :: q in s.rows && q != p ==> s'.rows[q] == s.rows[q]
    requires e == (if s'.rows[p].user.Some? then WasApproved(p, s'.rows[p].user.value) else WasDenied(p))
    requires s'.rows[p].status == if s'.rows[p].user.Some? then Approved else Denied
    ensures DecisionsSound(s')
  {
    forall x, q | x in s.log && Decides(x, q) ensures !Decides(e, q) {
      assert EventHolds(s, x);
    }
    forall q | q in s'.rows ensures Backed(s'.log, q, s'.rows[q]) {
      assert e in s'.log;
      assert q != p ==> Backed(s.log, q, s.rows[q]);
    }
    forall x | x in s.log + [e] ensures EventHolds(s', x) {
      assert x in s.log ==> EventHolds(s, x);
    }
    AppendKeepsDecisions(s, s', e);
  }

  lemma DecideKeepsDecisions(s: State, a: Action)
    requires LocksSound(s) && DecisionsSound(s) && Enabled(s, a) && (a.Approve? || a.Deny?)
    ensures DecisionsSound(Do(s, a))
  {
    if Decidable(s.rows, a.device) {
      assert WellFormed(s.rows[a.device]);
      DecisionKeepsDecisions(s, Do(s, a), a.device, if a.Approve? then WasApproved(a.device, a.user) else WasDenied(a.device));
    }
  }

  /** Answering consumes the row, which no earlier answer was about. */
  lemma AnswerKeepsDecisions(s: State, s': State, p: nat, e: Event)
    requires LocksSound(s) && DecisionsSound(s) && p in s.rows
    requires s'.log == s.log + [e] && s'.issued == s.issued && s'.rows == s.rows - {p}
    requires e == AnsweredDenied(p) || (e.AnsweredApproved? && e.device == p && e.at < e.expires && s.rows[p].user == Some(e.user))
    ensures DecisionsSound(s')
  {
    assert Backed(s.log, p, s.rows[p]) && WellFormed(s.rows[p]);
    forall x, q | x in s.log && Answers(x, q) ensures !Answers(e, q) {
      assert EventHolds(s, x);
    }
    forall x | x in s.log + [e] ensures EventHolds(s', x) {
      assert x in s.log ==> EventHolds(s, x);
    }
    forall q | q in s'.rows ensures Backed(s'.log, q, s'.rows[q]) {
      assert Backed(s.log, q, s.rows[q]);
    }
    AppendKeepsDecisions(s, s', e);
  }

  lemma CommitKeepsDecisions(s: State, t: nat)
    requires LocksSound(s) && DecisionsSound(s) && Enabled(s, Commit(t))
    ensures DecisionsSound(Do(s, Commit(t)))
  {
    var s' := Do(s, Commit(t));
    assert RedeemSound(s, s.txns[t]);
    if s.txns[t].Redeem? && s'.log != s.log {
      assert WellFormed(s.rows[s.txns[t].device]);
      AnswerKeepsDecisions(s, s', s.txns[t].device, s'.log[|s.log|]);
    } else {
      FewerRowsKeepDecisions(s, s');
    }
  }

  lemma FewerRowsKeepDecisions(s: State, s': State)
    requires DecisionsSound(s) && s'.log == s.log && s.issued <= s'.issued
    requires forall p :: p in s'.rows ==> p in s.rows && s'.rows[p] == s.rows[p]
    ensures DecisionsSound(s')
  {
    forall x | x in s.log ensures EventHolds(s', x) {
      assert EventHolds(s, x);
    }
    forall q | q in s'.rows ensures Backed(s'.log, q, s'.rows[q]) {
      assert Backed(s.log, q, s.rows[q]);
    }
  }

  lemma StartKeepsDecisions(s: State, t: nat)
    requires DecisionsSound(s) && Enabled(s, StartPairingDelete(t))
    ensures DecisionsSound(Do(s, StartPairingDelete(t)))
  {
    var s' := Do(s, StartPairingDelete(t));
    var e := PairingDeleteStarted(t, s.txns[t].user);
    forall x | x in s.log + [e] ensures EventHolds(s', x) {
      assert x in s.log ==> EventHolds(s, x);
    }
    forall q | q in s'.rows ensures Backed(s'.log, q, s'.rows[q]) {
      assert Backed(s.log, q, s.rows[q]);
    }
    AppendKeepsDecisions(s, s', e);
  }

  lemma CreateKeepsDecisions(s: State, a: Action)
    requires LocksSound(s) && DecisionsSound(s) && Enabled(s, a) && a.Create?
    ensures DecisionsSound(Do(s, a))
  {
    var s' := Do(s, a);
    forall x | x in s.log ensures EventHolds(s', x) {
      assert EventHolds(s, x);
    }
    forall p | p in s'.rows ensures Backed(s'.log, p, s'.rows[p]) {
      assert p in s.rows ==> Backed(s.log, p, s.rows[p]);
    }
  }

  lemma UnloggedKeepsDecisions(s: State, a: Action)
    requires DecisionsSound(s) && Enabled(s, a)
    requires !a.Create? && !a.Approve? && !a.Deny? && !a.Commit? && !a.StartPairingDelete?
    ensures DecisionsSound(Do(s, a))
  {
    FewerRowsKeepDecisions(s, Do(s, a));
  }

  lemma StepKeepsDecisions(s: State, a: Action)
    requires LocksSound(s) && DecisionsSound(s) && Enabled(s, a)
    ensures DecisionsSound(Do(s, a))
  {
    if a.Approve? || a.Deny? {
      DecideKeepsDecisions(s, a);
    } else if a.Commit? {
      CommitKeepsDecisions(s, a.txn);
    } else if a.StartPairingDelete? {
      StartKeepsDecisions(s, a.txn);
    } else if a.Create? {
      CreateKeepsDecisions(s, a);
    } else {
      UnloggedKeepsDecisions(s, a);
    }
  }
}
