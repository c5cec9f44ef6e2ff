/** When pairings come, change and go, over whole runs. */
module PairingHistory {
  import opened Options
  import opened Pairings
  import opened PairingRuns
  import opened TokenSweep

  lemma RowLocksHold(states: seq<State>, actions: seq<Action>, i: nat)
    requires IsRun(states, actions) && Quiet(states[0]) && i <= |actions|
    ensures LocksSound(states[i])
  {
    RunsKeepTokens(states, actions, i);
  }

  // ---------------------------------------------------------------- how a pairing goes

  /** The step answers its poll, with the decision it carries. */
  predicate AnsweredAway(before: State, after: State, p: nat)
    requires p in before.rows
  {
    || (before.rows[p].status == Denied && after.log == before.log + [AnsweredDenied(p)])
    || (before.rows[p].status == Approved && |after.log| == |before.log| + 1 && after.log[..|before.log|] == before.log
        && after.log[|before.log|].AnsweredApproved? && after.log[|before.log|].device == p
        && before.rows[p].user == Some(after.log[|before.log|].user))
  }

  /** The step commits a purge once the pairing has expired, or a revocation of its user. */
  predicate DeletedAway(before: State, a: Action, p: nat)
    requires p in before.rows
  {
    && a.Commit? && a.txn in before.txns
    && ((before.txns[a.txn].Purge? && before.rows[p].expires <= before.now)
        || (before.txns[a.txn].Revoke? && before.rows[p].user == Some(before.txns[a.txn].user)))
  }

  lemma CommitTakes(s: State, t: nat, p: nat)
    requires LocksSound(s) && Enabled(s, Commit(t)) && p in s.rows
    ensures p in Do(s, Commit(t)).rows ==> Do(s, Commit(t)).rows[p] == s.rows[p]
    ensures p !in Do(s, Commit(t)).rows ==> AnsweredAway(s, Do(s, Commit(t)), p) || DeletedAway(s, Commit(t), p)
  {
    assert RedeemSound(s, s.txns[t]) && DeleteSound(s, s.txns[t]);
    assert WellFormed(s.rows[p]);
  }

  predicate SameTerms(row: Row, later: Row) {
    later.code == row.code && later.expires == row.expires
  }

  lemma DecisionKeepsTerms(s: State, a: Action, p: nat)
    requires Enabled(s, a) && (a.Approve? || a.Deny?) && p in s.rows
    ensures p in Do(s, a).rows && SameTerms(s.rows[p], Do(s, a).rows[p])
  {
  }

  lemma CreateKeepsRows(s: State, p: nat, code: nat, ttl: nat, q: nat)
    requires LocksSound(s) && Enabled(s, Create(p, code, ttl)) && q in s.rows
    ensures q in Do(s, Create(p, code, ttl)).rows && Do(s, Create(p, code, ttl)).rows[q] == s.rows[q]
  {
  }

  lemma OthersKeepRows(s: State, a: Action)
    requires Enabled(s, a) && !a.Create? && !a.Approve? && !a.Deny? && !a.Commit?
    ensures Do(s, a).rows == s.rows
  {
  }

  lemma StepKeepsRow(s: State, a: Action, p: nat)
    requires LocksSound(s) && Enabled(s, a) && p in s.rows
    ensures if p in Do(s, a).rows then SameTerms(s.rows[p], Do(s, a).rows[p])
            else AnsweredAway(s, Do(s, a), p) || DeletedAway(s, a, p)
  {
    if a.Commit? {
      CommitTakes(s, a.txn, p);
    } else if a.Approve? || a.Deny? {
      DecisionKeepsTerms(s, a, p);
    } else if a.Create? {
      CreateKeepsRows(s, a.device, a.code, a.ttl, p);
    } else {
      OthersKeepRows(s, a);
    }
  }

  /** Step k of the run takes pairing p away in one of the three ways. */
  ghost predicate GoesAt(states: seq<State>, actions: seq<Action>, k: nat, p: nat)
    requires k < |actions| < |states|
  {
    && p in states[k].rows && p !in states[k + 1].rows
    && (AnsweredAway(states[k], states[k + 1], p) || DeletedAway(states[k], actions[k], p))
  }

  /** A pairing stays, with its code and its expiry, until a step answers its poll, commits a purge after
      it has expired, or commits a revocation of its user. */
  lemma {:induction false} PairingsStay(states: seq<State>, actions: seq<Action>, i: nat, j: nat, p: nat)
    requires IsRun(states, actions) && Quiet(states[0]) && i <= j <= |actions| && p in states[i].rows
    ensures (p in states[j].rows && states[j].rows[p].code == states[i].rows[p].code
                                 && states[j].rows[p].expires == states[i].rows[p].expires)
            || exists k :: i <= k < j && GoesAt(states, actions, k, p)
    decreases j
  {
    if i < j {
      PairingsStay(states, actions, i, j - 1, p);
      if p in states[j - 1].rows {
        RowLocksHold(states, actions, j - 1);
        StepKeepsRow(states[j - 1], actions[j - 1], p);
        assert p !in states[j].rows ==> GoesAt(states, actions, j - 1, p);
      }
    }
  }

  // ---------------------------------------------------------------- how it comes and changes

  /** A pairing only comes as a pending one, under a new device code and a pairing code no other has. */
  lemma PairingsComePending(states: seq<State>, actions: seq<Action>, i: nat, p: nat)
    requires IsRun(states, actions) && Quiet(states[0]) && i < |actions|
    requires p !in states[i].rows && p in states[i + 1].rows
    ensures forall k :: 0 <= k <= i ==> p !in states[k].rows
    ensures forall q :: q in states[i].rows ==> states[i].rows[q].code != states[i + 1].rows[p].code
    ensures exists code, ttl :: actions[i] == Create(p, code, ttl) && states[i + 1].rows[p] == Row(code, Pending, None, states[i].now + ttl)
  {
    RowLocksHold(states, actions, i);
    ComesByCreate(states[i], actions[i], p);
    forall k: nat | k <= i ensures p !in states[k].rows {
      RowLocksHold(states, actions, k);
      IssuedStays(states, actions, k, i, p);
    }
  }

  lemma ComesByCreate(s: State, a: Action, p: nat)
    requires LocksSound(s) && Enabled(s, a) && p !in s.rows && p in Do(s, a).rows
    ensures a.Create? && a.device == p && p !in s.issued
    ensures Do(s, a).rows[p] == Row(a.code, Pending, None, s.now + a.ttl)
    ensures forall q :: q in s.rows ==> s.rows[q].code != a.code
  {
    if !a.Create? && !a.Approve? && !a.Deny? && !a.Commit? {
      OthersKeepRows(s, a);
    }
  }

  lemma IssuedStep(s: State, a: Action)
    requires Enabled(s, a)
    ensures s.issued <= Do(s, a).issued
  {
  }

  lemma {:induction false} IssuedStays(states: seq<State>, actions: seq<Action>, i: nat, j: nat, p: nat)
    requires IsRun(states, actions) && i <= j <= |actions|
    ensures p in states[i].issued ==> p in states[j].issued
    decreases j
  {
    if i < j {
      IssuedStays(states, actions, i, j - 1, p);
      IssuedStep(states[j - 1], actions[j - 1]);
    }
  }

  /** A decision of a pending pairing is stored and logged, one of any other changes nothing. */
  lemma ApprovalApplies(s: State, p: nat, u: nat)
    requires Enabled(s, Approve(p, u))
    ensures var s' := Do(s, Approve(p, u));
            if p in s.rows && s.rows[p].status == Pending then
              s'.rows == s.rows[p := Row(s.rows[p].code, Approved, Some(u), s.rows[p].expires)] && s'.log == s.log + [WasApproved(p, u)]
            else s' == s
  {
  }

  lemma DenialApplies(s: State, p: nat)
    requires Enabled(s, Deny(p))
    ensures var s' := Do(s, Deny(p));
            if p in s.rows && s.rows[p].status == Pending then
              s'.rows == s.rows[p := Row(s.rows[p].code, Denied, None, s.rows[p].expires)] && s'.log == s.log + [WasDenied(p)]
            else s' == s
  {
  }

  /** A pairing that stays changes only by the decision of a pending one. */
  lemma ChangesAreDecisions(states: seq<State>, actions: seq<Action>, i: nat, p: nat)
    requires IsRun(states, actions) && Quiet(states[0]) && i < |actions|
    requires p in states[i].rows && p in states[i + 1].rows && states[i + 1].rows[p] != states[i].rows[p]
    ensures states[i].rows[p].status == Pending
    ensures (actions[i].Approve? && actions[i].device == p && states[i + 1].rows[p].status == Approved
             && states[i + 1].rows[p].user == Some(actions[i].user))
            || (actions[i] == Deny(p) && states[i + 1].rows[p].status == Denied && states[i + 1].rows[p].user == None)
  {
    RowLocksHold(states, actions, i);
    var s, a := states[i], actions[i];
    if a.Commit? {
      CommitTakes(s, a.txn, p);
    } else if a.Create? {
      CreateKeepsRows(s, a.device, a.code, a.ttl, p);
    } else if a.Approve? {
      ApprovalApplies(s, a.device, a.user);
    } else if a.Deny? {
      DenialApplies(s, a.device);
    } else {
      OthersKeepRows(s, a);
    }
  }

  // ---------------------------------------------------------------- what a delete of many rows takes

  /** While transaction t is open it has taken p, still wants it, or p has gone. */
  ghost predicate OnItsWay(s: State, t: nat, p: nat) {
    t in s.txns ==> p in Targets(s.txns[t]) || p in Doomed(s.txns[t]) || p !in s.rows
  }

  predicate DeletesMany(t: Txn) {
    t.Purge? || (t.Revoke? && t.revoke.Deleting?)
  }

  lemma TakingARow(s: State, t: nat, q: nat, p: nat, o: nat)
    requires t in s.txns && DeletesMany(s.txns[t]) && OnItsWay(s, t, p) && Enabled(s, DeletePairing(o, q))
    ensures var s' := Do(s, DeletePairing(o, q)); t in s'.txns && DeletesMany(s'.txns[t]) && OnItsWay(s', t, p)
  {
    if o == t {
      PassedTakesOneRow(s.txns[t], q, q in s.rows);
    }
  }

  lemma OthersKeepDelete(s: State, a: Action, t: nat)
    requires Enabled(s, a) && !a.DeletePairing? && a != Commit(t) && a != Abort(t)
    requires t in s.used && t in s.txns && DeletesMany(s.txns[t])
    ensures t in Do(s, a).txns && Do(s, a).txns[t] == s.txns[t]
  {
  }

  lemma GoneStays(s: State, a: Action, p: nat)
    requires LocksSound(s) && Enabled(s, a) && p in s.issued
    ensures p !in s.rows ==> p !in Do(s, a).rows
  {
    if p !in s.rows && p in Do(s, a).rows {
      ComesByCreate(s, a, p);
    }
  }

  lemma DeleteStep(s: State, a: Action, t: nat, p: nat)
    requires LocksSound(s) && Enabled(s, a) && p in s.issued && a != Commit(t) && a != Abort(t)
    requires t in s.txns && DeletesMany(s.txns[t]) && OnItsWay(s, t, p)
    ensures t in Do(s, a).txns && DeletesMany(Do(s, a).txns[t]) && OnItsWay(Do(s, a), t, p)
  {
    GoneStays(s, a, p);
    if a.DeletePairing? {
      TakingARow(s, t, a.device, p, a.txn);
    } else {
      OthersKeepDelete(s, a, t);
    }
  }

  lemma EndedStaysAway(s: State, a: Action, t: nat)
    requires Enabled(s, a) && t in s.used && t !in s.txns
    ensures t in Do(s, a).used && t !in Do(s, a).txns
  {
  }

  lemma UsedStays(s: State, a: Action)
    requires Enabled(s, a)
    ensures s.used <= Do(s, a).used
  {
  }

  lemma {:induction false} StaysOnItsWay(states: seq<State>, actions: seq<Action>, i: nat, j: nat, t: nat, p: nat)
    requires IsRun(states, actions) && Quiet(states[0]) && i <= j <= |actions|
    requires t in states[i].used && p in states[i].issued
    requires t in states[i].txns && DeletesMany(states[i].txns[t]) && OnItsWay(states[i], t, p)
    ensures t in states[j].used && p in states[j].issued
    ensures t in states[j].txns ==> DeletesMany(states[j].txns[t]) && OnItsWay(states[j], t, p)
    decreases j
  {
    if i < j {
      StaysOnItsWay(states, actions, i, j - 1, t, p);
      var s, a := states[j - 1], actions[j - 1];
      RowLocksHold(states, actions, j - 1);
      UsedStays(s, a);
      IssuedStep(s, a);
      if t !in s.txns {
        EndedStaysAway(s, a, t);
      } else if a != Commit(t) && a != Abort(t) {
        DeleteStep(s, a, t, p);
      } else {
        assert t !in Do(s, a).txns;
      }
    }
  }

  lemma CommittedDeleteTakes(s: State, t: nat, p: nat)
    requires Enabled(s, Commit(t)) && DeletesMany(s.txns[t]) && OnItsWay(s, t, p)
    ensures p !in Do(s, Commit(t)).rows
  {
  }

  lemma BegunDeleteTakes(states: seq<State>, actions: seq<Action>, i: nat, j: nat, t: nat, p: nat)
    requires IsRun(states, actions) && Quiet(states[0]) && i <= j < |actions| && actions[j] == Commit(t)
    requires t in states[i].used && p in states[i].issued
    requires t in states[i].txns && DeletesMany(states[i].txns[t]) && OnItsWay(states[i], t, p)
    ensures p !in states[j + 1].rows
  {
    StaysOnItsWay(states, actions, i, j, t, p);
    CommittedDeleteTakes(states[j], t, p);
  }

  lemma PurgeBegins(s: State, t: nat, cutoff: int, p: nat)
    requires Enabled(s, BeginPurge(t, cutoff)) && p in s.rows && s.rows[p].expires <= cutoff
    ensures var s' := Do(s, BeginPurge(t, cutoff)); t in s'.txns && DeletesMany(s'.txns[t]) && OnItsWay(s', t, p) && t in s'.used
  {
  }

  lemma PairingDeleteBegins(s: State, t: nat, p: nat)
    requires LocksSound(s) && Enabled(s, StartPairingDelete(t)) && p in s.rows && s.rows[p].user == Some(s.txns[t].user)
    ensures var s' := Do(s, StartPairingDelete(t));
            t in s'.used && p in s'.issued && t in s'.txns && DeletesMany(s'.txns[t]) && OnItsWay(s', t, p)
  {
  }

  /** A purge that commits leaves none of the pairings that had expired, by its clock, when it began. */
  lemma PurgeTakesTheExpired(states: seq<State>, actions: seq<Action>, i: nat, j: nat, t: nat, cutoff: int, p: nat)
    requires IsRun(states, actions) && Quiet(states[0]) && i < j < |actions|
    requires actions[i] == BeginPurge(t, cutoff) && actions[j] == Commit(t)
    requires p in states[i].rows && states[i].rows[p].expires <= cutoff
    ensures p !in states[j + 1].rows
  {
    RowLocksHold(states, actions, i);
    IssuedStep(states[i], actions[i]);
    PurgeBegins(states[i], t, cutoff, p);
    BegunDeleteTakes(states, actions, i + 1, j, t, p);
  }

  /** A revocation that commits leaves none of the pairings its user had when its pairing delete began. */
  lemma RevocationTakesTheUsers(states: seq<State>, actions: seq<Action>, i: nat, j: nat, t: nat, p: nat)
    requires IsRun(states, actions) && Quiet(states[0]) && i < j < |actions|
    requires actions[i] == StartPairingDelete(t) && actions[j] == Commit(t)
    requires p in states[i].rows && t in states[i].txns && states[i].txns[t].Revoke?
    requires states[i].rows[p].user == Some(states[i].txns[t].user)
    ensures p !in states[j + 1].rows
  {
    RowLocksHold(states, actions, i);
    PairingDeleteBegins(states[i], t, p);
    assert states[i + 1] == Do(states[i], actions[i]);
    BegunDeleteTakes(states, actions, i + 1, j, t, p);
  }

  // ---------------------------------------------------------------- what can happen next

  /** Polls, revocations and purges can begin in any state, a sweep exactly after a committed revocation of the
      same user; and with no transaction open nothing waits. */
  lemma RequestsCanBegin(s: State, t: nat, p: nat, u: nat, first: nat, cutoff: int)
    requires t !in s.used && cutoff <= s.now
    ensures Enabled(s, BeginRedeem(t, p)) && Enabled(s, BeginRevoke(t, u, None)) && Enabled(s, BeginPurge(t, cutoff))
    ensures Enabled(s, BeginRevoke(t, u, Some(first))) <==> first in s.passes && s.passes[first].user == u
    ensures s.txns == map[] ==> Enabled(s, Approve(p, u)) && Enabled(s, Deny(p)) && Enabled(s, Logout(u))
  {
  }
}
