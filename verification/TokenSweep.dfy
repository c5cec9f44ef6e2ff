/** Token keys over every run of the pairing transactions, and what a recovery's first pass and its
    post-commit sweep leave behind. */
module TokenSweep {
  import opened Options
  import opened Pairings
  import opened PairingRuns

  // ---------------------------------------------------------------- where a key can be

  /** At most u's row can still carry the key. */
  predicate OnlyFor(tokens: map<nat, nat>, key: nat, u: nat) {
    forall v :: v in tokens && tokens[v] == key ==> v == u
  }

  predicate Absent(tokens: map<nat, nat>, key: nat) {
    forall v :: v in tokens ==> tokens[v] != key
  }

  /** A poll that has found or inserted the token it will answer with. */
  predicate HoldsAnswerKey(t: Txn) {
    t.Redeem? && t.redeem.Keyed?
  }

  ghost predicate RedeemKeySound(s: State, t: Txn) {
    HoldsAnswerKey(t) ==>
      && t.redeem.key in s.minted && t.redeem.row.user.Some?
      && OnlyFor(s.tokens, t.redeem.key, t.redeem.row.user.value)
      && (t.redeem.inserted ==> Absent(s.tokens, t.redeem.key))
  }

  predicate AnswerKeySound(s: State, e: Event) {
    e.AnsweredApproved? ==> e.key in s.minted && OnlyFor(s.tokens, e.key, e.user)
  }

  /** An uncommitted insert's key is in no answer and no other redeem's hands. */
  ghost predicate UncommittedKeysPrivate(s: State) {
    && (forall t, o :: t in s.txns && o in s.txns && t != o && HoldsAnswerKey(s.txns[t]) && HoldsAnswerKey(s.txns[o]) && s.txns[t].redeem.inserted ==>
          s.txns[t].redeem.key != s.txns[o].redeem.key)
    && (forall t, e :: t in s.txns && HoldsAnswerKey(s.txns[t]) && s.txns[t].redeem.inserted && e in s.log && e.AnsweredApproved? ==>
          e.key != s.txns[t].redeem.key)
  }

  ghost predicate KeysSound(s: State) {
    && (forall u :: u in s.tokens ==> s.tokens[u] in s.minted)
    && (forall u :: u in s.tokens ==> OnlyFor(s.tokens, s.tokens[u], u))
    && (forall t :: t in s.txns ==> RedeemKeySound(s, s.txns[t]))
    && (forall e :: e in s.log ==> AnswerKeySound(s, e))
    && UncommittedKeysPrivate(s)
  }

  /** Statements that leave tokens, drawn keys and keyed redeems alone. */
  lemma QuietStepKeepsKeys(s: State, s': State)
    requires KeysSound(s) && s'.tokens == s.tokens && s'.minted == s.minted
    requires forall t :: t in s'.txns && HoldsAnswerKey(s'.txns[t]) ==> t in s.txns && s.txns[t] == s'.txns[t]
    requires forall e :: e in s'.log && e.AnsweredApproved? ==> e in s.log
    ensures KeysSound(s')
  {
    forall t | t in s'.txns ensures RedeemKeySound(s', s'.txns[t]) {
      assert t in s.txns ==> RedeemKeySound(s, s.txns[t]);
    }
    forall e | e in s'.log ensures AnswerKeySound(s', e) {
      assert e in s.log ==> AnswerKeySound(s, e);
    }
  }

  lemma AutocommitKeepsKeys(s: State, a: Action)
    requires KeysSound(s) && Enabled(s, a) && (a.Login? || a.Logout?)
    ensures KeysSound(Do(s, a))
  {
    var s' := Do(s, a);
    forall t | t in s'.txns ensures RedeemKeySound(s', s'.txns[t]) {
      assert RedeemKeySound(s, s.txns[t]);
    }
    forall e | e in s'.log ensures AnswerKeySound(s', e) {
      assert AnswerKeySound(s, e);
    }
  }

  lemma GetKeepsKeys(s: State, t: nat)
    requires KeysSound(s) && Enabled(s, GetToken(t))
    ensures KeysSound(Do(s, GetToken(t)))
  {
    var s' := Do(s, GetToken(t));
    forall o | o in s'.txns ensures RedeemKeySound(s', s'.txns[o]) {
      assert RedeemKeySound(s, s.txns[o]);
    }
    forall e | e in s'.log ensures AnswerKeySound(s', e) {
      assert AnswerKeySound(s, e);
    }
  }

  lemma InsertKeepsKeys(s: State, t: nat, key: nat)
    requires KeysSound(s) && Enabled(s, InsertToken(t, key))
    ensures KeysSound(Do(s, InsertToken(t, key)))
  {
    var s' := Do(s, InsertToken(t, key));
    forall o | o in s'.txns ensures RedeemKeySound(s', s'.txns[o]) {
      assert RedeemKeySound(s, s.txns[o]);
    }
    forall e | e in s'.log ensures AnswerKeySound(s', e) {
      assert AnswerKeySound(s, e);
    }
    forall o | o in s.txns ensures RedeemKeySound(s, s.txns[o]) {
    }
  }

  /** Publishing a redeem's key, found or inserted, and its answer. */
  lemma RedeemKeepsOwners(s: State, t: nat)
    requires KeysSound(s) && Enabled(s, Commit(t)) && HoldsAnswerKey(s.txns[t])
    ensures var s' := Do(s, Commit(t));
            && (forall u :: u in s'.tokens ==> s'.tokens[u] in s'.minted && OnlyFor(s'.tokens, s'.tokens[u], u))
            && (forall e :: e in s'.log ==> AnswerKeySound(s', e))
  {
    assert RedeemKeySound(s, s.txns[t]);
    forall e | e in Do(s, Commit(t)).log ensures AnswerKeySound(Do(s, Commit(t)), e) {
      assert e in s.log ==> AnswerKeySound(s, e);
    }
  }

  lemma RedeemKeepsPrivate(s: State, t: nat)
    requires KeysSound(s) && Enabled(s, Commit(t)) && HoldsAnswerKey(s.txns[t])
    ensures var s' := Do(s, Commit(t));
            UncommittedKeysPrivate(s') && forall o :: o in s'.txns ==> RedeemKeySound(s', s'.txns[o])
  {
    var s' := Do(s, Commit(t));
    assert RedeemKeySound(s, s.txns[t]);
    forall o | o in s'.txns ensures RedeemKeySound(s', s'.txns[o]) {
      assert RedeemKeySound(s, s.txns[o]);
    }
  }

  lemma RedeemKeepsKeys(s: State, t: nat)
    requires KeysSound(s) && Enabled(s, Commit(t)) && HoldsAnswerKey(s.txns[t])
    ensures KeysSound(Do(s, Commit(t)))
  {
    RedeemKeepsOwners(s, t);
    RedeemKeepsPrivate(s, t);
  }

  lemma FewerTokensKeepKeys(s: State, s': State)
    requires KeysSound(s) && s'.minted == s.minted
    requires forall u :: u in s'.tokens ==> u in s.tokens && s'.tokens[u] == s.tokens[u]
    requires forall t :: t in s'.txns ==> t in s.txns && s.txns[t] == s'.txns[t]
    requires forall e :: e in s'.log && e.AnsweredApproved? ==> e in s.log
    ensures KeysSound(s')
  {
    forall t | t in s'.txns ensures RedeemKeySound(s', s'.txns[t]) {
      assert RedeemKeySound(s, s.txns[t]);
    }
    forall e | e in s'.log ensures AnswerKeySound(s', e) {
      assert e in s.log ==> AnswerKeySound(s, e);
    }
  }

  lemma TokenFreeStepKeepsKeys(s: State, a: Action)
    requires KeysSound(s) && Enabled(s, a)
    requires !a.Login? && !a.Logout? && !a.GetToken? && !a.InsertToken? && !a.Commit?
    ensures KeysSound(Do(s, a))
  {
    QuietStepKeepsKeys(s, Do(s, a));
  }

  lemma UnkeyedCommitKeepsKeys(s: State, t: nat)
    requires KeysSound(s) && Enabled(s, Commit(t)) && !HoldsAnswerKey(s.txns[t])
    ensures KeysSound(Do(s, Commit(t)))
  {
    FewerTokensKeepKeys(s, Do(s, Commit(t)));
  }

  lemma StepKeepsKeys(s: State, a: Action)
    requires LocksSound(s) && KeysSound(s) && Enabled(s, a)
    ensures KeysSound(Do(s, a))
  {
    if a.Login? || a.Logout? {
      AutocommitKeepsKeys(s, a);
    } else if a.GetToken? {
      GetKeepsKeys(s, a.txn);
    } else if a.InsertToken? {
      InsertKeepsKeys(s, a.txn, a.key);
    } else if a.Commit? {
      if HoldsAnswerKey(s.txns[a.txn]) {
        RedeemKeepsKeys(s, a.txn);
      } else {
        UnkeyedCommitKeepsKeys(s, a.txn);
      }
    } else {
      TokenFreeStepKeepsKeys(s, a);
    }
  }

  // ---------------------------------------------------------------- what a pass covers

  /** A pairing a pass covers was approved for its user, and is gone or about to be; the pass deletes
      no other. */
  ghost predicate CoverSound(s: State, t: Txn) {
    t.Revoke? && t.revoke.Deleting? ==>
      && t.revoke.targets <= t.revoke.covered
      && forall p :: p in t.revoke.covered ==>
           && p in s.issued && WasApproved(p, t.user) in s.log
           && (p in s.rows ==> p in t.revoke.targets + t.revoke.doomed)
  }

  ghost predicate PassSound(s: State, pass: Pass) {
    forall p :: p in pass.covered ==> p in s.issued && p !in s.rows && WasApproved(p, pass.user) in s.log
  }

  ghost predicate CoversSound(s: State) {
    && (forall t :: t in s.txns ==> CoverSound(s, s.txns[t]))
    && (forall a :: a in s.passes ==> a in s.used && PassSound(s, s.passes[a]))
    && (forall t :: t in s.txns ==> t !in s.passes)
  }

  lemma ApprovedForIsLogged(log: seq<Event>, u: nat, p: nat)
    ensures p in ApprovedFor(log, u) <==> WasApproved(p, u) in log
  {
    if WasApproved(p, u) in log {
      var k :| 0 <= k < |log| && log[k] == WasApproved(p, u);
      assert log[k].device in ApprovedFor(log, u);
    }
  }

  /** The snapshot of the pairing delete sees every covered pairing that still exists. */
  lemma StartKeepsCovers(s: State, t: nat)
    requires LocksSound(s) && DecisionsSound(s) && CoversSound(s) && Enabled(s, StartPairingDelete(t))
    ensures CoversSound(Do(s, StartPairingDelete(t)))
  {
    var s', u := Do(s, StartPairingDelete(t)), s.txns[t].user;
    forall p | p in ApprovedFor(s.log, u)
      ensures p in s.issued && WasApproved(p, u) in s'.log && (p in s.rows ==> p in OwnedBy(s.rows, u))
    {
      ApprovedForIsLogged(s.log, u, p);
      assert EventHolds(s, WasApproved(p, u));
    }
    forall p | p in OwnedBy(s.rows, u) ensures p in ApprovedFor(s.log, u) {
      assert Backed(s.log, p, s.rows[p]) && WellFormed(s.rows[p]);
      ApprovedForIsLogged(s.log, u, p);
    }
    OtherTxnsKeepCovers(s, s', t);
  }

  lemma OtherTxnsKeepCovers(s: State, s': State, t: nat)
    requires CoversSound(s) && s.log <= s'.log && s'.issued == s.issued && s'.used == s.used && s'.passes == s.passes
    requires s'.rows.Keys <= s.rows.Keys
    requires forall o :: o in s'.txns && o != t ==> o in s.txns && s.txns[o] == s'.txns[o]
    requires t in s'.txns ==> t in s.txns && CoverSound(s', s'.txns[t])
    ensures CoversSound(s')
  {
    forall o | o in s'.txns ensures CoverSound(s', s'.txns[o]) {
      assert o != t ==> CoverSound(s, s.txns[o]);
    }
    forall a | a in s'.passes ensures PassSound(s', s'.passes[a]) {
      assert PassSound(s, s.passes[a]);
    }
  }

  lemma RevokeCommitKeepsCovers(s: State, t: nat)
    requires LocksSound(s) && CoversSound(s) && Enabled(s, Commit(t)) && s.txns[t].Revoke?
    ensures CoversSound(Do(s, Commit(t)))
  {
    var s' := Do(s, Commit(t));
    assert CoverSound(s, s.txns[t]);
    forall o | o in s'.txns ensures CoverSound(s', s'.txns[o]) {
      assert CoverSound(s, s.txns[o]);
    }
    forall a | a in s'.passes ensures PassSound(s', s'.passes[a]) {
      assert a in s.passes ==> PassSound(s, s.passes[a]);
    }
  }

  lemma CommitKeepsCovers(s: State, t: nat)
    requires LocksSound(s) && CoversSound(s) && Enabled(s, Commit(t))
    ensures CoversSound(Do(s, Commit(t)))
  {
    if s.txns[t].Revoke? {
      RevokeCommitKeepsCovers(s, t);
    } else {
      OtherTxnsKeepCovers(s, Do(s, Commit(t)), t);
    }
  }

  lemma AutocommitKeepsCovers(s: State, a: Action)
    requires CoversSound(s) && Enabled(s, a)
    requires a.Tick? || a.Create? || a.Approve? || a.Deny? || a.Login? || a.Logout?
    ensures CoversSound(Do(s, a))
  {
    var s' := Do(s, a);
    forall o | o in s'.txns ensures CoverSound(s', s'.txns[o]) {
      assert CoverSound(s, s.txns[o]);
    }
    forall x | x in s'.passes ensures PassSound(s', s'.passes[x]) {
      assert PassSound(s, s.passes[x]);
    }
  }

  lemma BeginKeepsCovers(s: State, a: Action)
    requires CoversSound(s) && Enabled(s, a) && (a.BeginRedeem? || a.BeginRevoke? || a.BeginPurge?)
    ensures CoversSound(Do(s, a))
  {
    var s' := Do(s, a);
    forall o | o in s'.txns ensures CoverSound(s', s'.txns[o]) {
      assert o in s.txns ==> CoverSound(s, s.txns[o]);
    }
    forall x | x in s'.passes ensures PassSound(s', s'.passes[x]) {
      assert PassSound(s, s.passes[x]);
    }
  }

  lemma StatementKeepsCovers(s: State, a: Action)
    requires CoversSound(s) && Enabled(s, a)
    requires a.Select? || a.GetToken? || a.InsertToken? || a.TakeKey? || a.DeleteTokens? || a.DeletePairing? || a.Abort?
    ensures CoversSound(Do(s, a))
  {
    assert CoverSound(s, s.txns[a.txn]);
    OtherTxnsKeepCovers(s, Do(s, a), a.txn);
  }

  lemma StepKeepsCovers(s: State, a: Action)
    requires LocksSound(s) && DecisionsSound(s) && CoversSound(s) && Enabled(s, a)
    ensures CoversSound(Do(s, a))
  {
    if a.BeginRedeem? || a.BeginRevoke? || a.BeginPurge? {
      BeginKeepsCovers(s, a);
    } else if a.StartPairingDelete? {
      StartKeepsCovers(s, a.txn);
    } else if a.Commit? {
      CommitKeepsCovers(s, a.txn);
    } else if a.Tick? || a.Create? || a.Approve? || a.Deny? || a.Login? || a.Logout? {
      AutocommitKeepsCovers(s, a);
    } else {
      StatementKeepsCovers(s, a);
    }
  }

  // ---------------------------------------------------------------- the sweep

  /** While it runs, a sweep that has issued its token delete either finds an answered key gone, or
      is about to delete it under the token row's lock. */
  ghost predicate SweepSound(s: State, t: Txn) {
    t.Revoke? && t.follows.Some? ==>
      && t.follows.value in s.passes && s.passes[t.follows.value].user == t.user
      && (t.revoke.TokensDeleted? || t.revoke.Deleting? ==>
            forall e :: e in s.log && e.AnsweredApproved? && e.device in s.passes[t.follows.value].covered ==>
              (t.revoke.had && OnlyFor(s.tokens, e.key, t.user)) || Absent(s.tokens, e.key))
  }

  /** After a sweep has committed, nothing its first pass covered has a key left. */
  ghost predicate SweptClean(s: State, pass: Pass) {
    pass.follows.Some? ==>
      && pass.follows.value in s.passes && s.passes[pass.follows.value].user == pass.user
      && forall e :: e in s.log && e.AnsweredApproved? && e.device in s.passes[pass.follows.value].covered ==>
           Absent(s.tokens, e.key)
  }

  ghost predicate SweepsSound(s: State) {
    && (forall t :: t in s.txns ==> SweepSound(s, s.txns[t]))
    && (forall a :: a in s.passes ==> SweptClean(s, s.passes[a]))
  }

  /** No new answer is about a pairing some pass covers, and no new token has an answered key. */
  ghost predicate NothingRevived(s: State, s': State) {
    && (forall a :: a in s.passes ==> a in s'.passes && s'.passes[a] == s.passes[a])
    && (forall e, a :: e in s'.log && e.AnsweredApproved? && e !in s.log && a in s.passes ==>
          e.device !in s.passes[a].covered)
    && (forall e, u :: e in s.log && e.AnsweredApproved? && u in s'.tokens && s'.tokens[u] == e.key ==>
          u in s.tokens && s.tokens[u] == e.key)
  }

  lemma QuietStepKeepsSweeps(s: State, s': State)
    requires SweepsSound(s) && NothingRevived(s, s') && s'.passes == s.passes
    requires forall t :: t in s'.txns ==> t in s.txns && SweepStageKept(s.txns[t], s'.txns[t])
    ensures SweepsSound(s')
  {
    forall t | t in s'.txns ensures SweepSound(s', s'.txns[t]) {
      assert SweepSound(s, s.txns[t]);
    }
    forall a | a in s'.passes ensures SweptClean(s', s'.passes[a]) {
      assert SweptClean(s, s.passes[a]);
    }
  }

  /** The transaction's obligations as a sweep did not start with this step. */
  predicate SweepStageKept(t: Txn, t': Txn) {
    t'.Revoke? && t'.follows.Some? ==>
      && t.Revoke? && t.follows == t'.follows && t.user == t'.user
      && (t'.revoke.TokensDeleted? || t'.revoke.Deleting? ==>
            (t.revoke.TokensDeleted? || t.revoke.Deleting?) && t.revoke.had == t'.revoke.had)
  }

  ghost predicate TokensSound(s: State) {
    LocksSound(s) && DecisionsSound(s) && KeysSound(s) && CoversSound(s) && SweepsSound(s)
  }

  lemma LoginRevivesNothing(s: State, a: Action)
    requires KeysSound(s) && Enabled(s, a) && a.Login?
    ensures NothingRevived(s, Do(s, a))
  {
    forall e | e in s.log && e.AnsweredApproved? ensures e.key in s.minted {
      assert AnswerKeySound(s, e);
    }
  }

  /** An answer is about a pairing that was still there, so no pass covers it. */
  lemma NewAnswerIsUncovered(s: State, t: nat, e: Event, x: nat)
    requires LocksSound(s) && CoversSound(s) && Enabled(s, Commit(t)) && s.txns[t].Redeem?
    requires e in Do(s, Commit(t)).log && e.AnsweredApproved? && e !in s.log && x in s.passes
    ensures e.device !in s.passes[x].covered
  {
    assert RedeemSound(s, s.txns[t]) && PassSound(s, s.passes[x]);
  }

  /** A new token's key was private until now. */
  lemma NewTokenIsUnanswered(s: State, t: nat, e: Event, u: nat)
    requires KeysSound(s) && Enabled(s, Commit(t)) && s.txns[t].Redeem?
    requires e in s.log && e.AnsweredApproved? && u in Do(s, Commit(t)).tokens && Do(s, Commit(t)).tokens[u] == e.key
    ensures u in s.tokens && s.tokens[u] == e.key
  {
  }

  lemma RedeemRevivesNothing(s: State, t: nat)
    requires LocksSound(s) && KeysSound(s) && CoversSound(s) && Enabled(s, Commit(t)) && s.txns[t].Redeem?
    ensures NothingRevived(s, Do(s, Commit(t)))
  {
    var s' := Do(s, Commit(t));
    forall e, x | e in s'.log && e.AnsweredApproved? && e !in s.log && x in s.passes ensures e.device !in s.passes[x].covered {
      NewAnswerIsUncovered(s, t, e, x);
    }
    forall e, u | e in s.log && e.AnsweredApproved? && u in s'.tokens && s'.tokens[u] == e.key
      ensures u in s.tokens && s.tokens[u] == e.key
    {
      NewTokenIsUnanswered(s, t, e, u);
    }
  }

  /** Both the answer and the covering pass go back to the one decision of that pairing. */
  lemma CoveredAnswerIsForPassUser(s: State, a: nat, e: Event)
    requires DecisionsSound(s) && CoversSound(s) && a in s.passes
    requires e in s.log && e.AnsweredApproved? && e.device in s.passes[a].covered
    ensures e.user == s.passes[a].user
  {
    assert PassSound(s, s.passes[a]);
    var k :| 0 <= k < |s.log| && s.log[k] == e;
    var i :| 0 <= i < k && s.log[i] == WasApproved(e.device, e.user);
    var j :| 0 <= j < |s.log| && s.log[j] == WasApproved(e.device, s.passes[a].user);
    assert Decides(s.log[i], e.device) && Decides(s.log[j], e.device);
  }

  lemma DeleteTokensKeepsSweeps(s: State, t: nat)
    requires TokensSound(s) && Enabled(s, DeleteTokens(t))
    ensures SweepsSound(Do(s, DeleteTokens(t)))
  {
    var s', p := Do(s, DeleteTokens(t)), s.txns[t];
    assert SweepSound(s, p);
    if p.follows.Some? {
      var covered := s.passes[p.follows.value].covered;
      forall e | e in s.log && e.AnsweredApproved? && e.device in covered
        ensures (p.user in s.tokens && OnlyFor(s.tokens, e.key, p.user)) || Absent(s.tokens, e.key)
      {
        CoveredAnswerIsForPassUser(s, p.follows.value, e);
        assert AnswerKeySound(s, e);
      }
    }
    assert SweepSound(s', s'.txns[t]);
    forall o | o in s'.txns ensures SweepSound(s', s'.txns[o]) {
      assert SweepSound(s, s.txns[o]);
    }
    forall a | a in s'.passes ensures SweptClean(s', s'.passes[a]) {
      assert SweptClean(s, s.passes[a]);
    }
  }

  lemma RevokeCommitKeepsSweeps(s: State, t: nat)
    requires SweepsSound(s) && CoversSound(s) && Enabled(s, Commit(t)) && s.txns[t].Revoke?
    ensures SweepsSound(Do(s, Commit(t)))
  {
    var s' := Do(s, Commit(t));
    assert SweepSound(s, s.txns[t]);
    forall o | o in s'.txns ensures SweepSound(s', s'.txns[o]) {
      assert SweepSound(s, s.txns[o]);
    }
    forall a | a in s'.passes ensures SweptClean(s', s'.passes[a]) {
      assert a in s.passes ==> SweptClean(s, s.passes[a]);
    }
  }

  lemma BeginKeepsSweeps(s: State, a: Action)
    requires SweepsSound(s) && Enabled(s, a) && (a.BeginRedeem? || a.BeginRevoke? || a.BeginPurge?)
    ensures SweepsSound(Do(s, a))
  {
    var s' := Do(s, a);
    forall o | o in s'.txns ensures SweepSound(s', s'.txns[o]) {
      assert o != a.txn ==> SweepSound(s, s.txns[o]);
    }
    forall x | x in s'.passes ensures SweptClean(s', s'.passes[x]) {
      assert SweptClean(s, s.passes[x]);
    }
  }

  lemma StagesKept(s: State, a: Action)
    requires Enabled(s, a) && !a.DeleteTokens? && !a.BeginRedeem? && !a.BeginRevoke? && !a.BeginPurge?
    ensures forall t :: t in Do(s, a).txns ==> t in s.txns && SweepStageKept(s.txns[t], Do(s, a).txns[t])
  {
  }

  lemma PassesKept(s: State, a: Action)
    requires Enabled(s, a) && !(a.Commit? && s.txns[a.txn].Revoke?)
    ensures Do(s, a).passes == s.passes
  {
  }

  lemma OtherStepsReviveNothing(s: State, a: Action)
    requires Enabled(s, a) && !a.Login? && (a.Commit? ==> s.txns[a.txn].Purge?)
    ensures NothingRevived(s, Do(s, a))
  {
  }

  lemma RevivesNothing(s: State, a: Action)
    requires LocksSound(s) && KeysSound(s) && CoversSound(s) && Enabled(s, a)
    requires !(a.Commit? && s.txns[a.txn].Revoke?)
    ensures NothingRevived(s, Do(s, a))
  {
    if a.Login? {
      LoginRevivesNothing(s, a);
    } else if a.Commit? && s.txns[a.txn].Redeem? {
      RedeemRevivesNothing(s, a.txn);
    } else {
      OtherStepsReviveNothing(s, a);
    }
  }

  lemma StepKeepsSweeps(s: State, a: Action)
    requires TokensSound(s) && Enabled(s, a)
    ensures SweepsSound(Do(s, a))
  {
    if a.DeleteTokens? {
      DeleteTokensKeepsSweeps(s, a.txn);
    } else if a.BeginRedeem? || a.BeginRevoke? || a.BeginPurge? {
      BeginKeepsSweeps(s, a);
    } else if a.Commit? && s.txns[a.txn].Revoke? {
      RevokeCommitKeepsSweeps(s, a.txn);
    } else {
      StagesKept(s, a);
      RevivesNothing(s, a);
      PassesKept(s, a);
      QuietStepKeepsSweeps(s, Do(s, a));
    }
  }

  lemma StepKeepsTokens(s: State, a: Action)
    requires TokensSound(s) && Enabled(s, a)
    ensures TokensSound(Do(s, a))
  {
    StepKeepsLocks(s, a);
    StepKeepsDecisions(s, a);
    StepKeepsKeys(s, a);
    StepKeepsCovers(s, a);
    StepKeepsSweeps(s, a);
  }

  lemma QuietIsSound(s: State)
    requires Quiet(s)
    ensures TokensSound(s)
  {
  }

  lemma {:induction false} RunsKeepTokens(states: seq<State>, actions: seq<Action>, i: nat)
    requires IsRun(states, actions) && Quiet(states[0]) && i <= |actions|
    ensures TokensSound(states[i])
  {
    if i == 0 {
      QuietIsSound(states[0]);
    } else {
      RunsKeepTokens(states, actions, i - 1);
      StepKeepsTokens(states[i - 1], actions[i - 1]);
    }
  }
}
