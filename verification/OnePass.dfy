/** What a single revocation guarantees when no second one follows it: exactly when a key redeemed for an
    earlier approval outlives it. */
module OnePass {
  import opened Options
  import opened Pairings
  import opened PairingRuns
  import opened TokenSweep
  import opened TokenHistory

  // ---------------------------------------------------------------- keys that are gone

  lemma EndedRevokeRevivesNothing(s: State, t: nat)
    requires Enabled(s, Commit(t)) && s.txns[t].Revoke?
    ensures forall u :: u in Do(s, Commit(t)).tokens ==> u in s.tokens && Do(s, Commit(t)).tokens[u] == s.tokens[u]
  {
  }

  lemma UnrevivedStaysAbsent(s: State, s': State, e: Event)
    requires NothingRevived(s, s') && e in s.log && e.AnsweredApproved? && Absent(s.tokens, e.key)
    ensures Absent(s'.tokens, e.key)
  {
  }

  lemma RevokeKeepsAbsent(s: State, t: nat, e: Event)
    requires Enabled(s, Commit(t)) && s.txns[t].Revoke? && e in s.log
    requires e.AnsweredApproved? && Absent(s.tokens, e.key)
    ensures e in Do(s, Commit(t)).log && Absent(Do(s, Commit(t)).tokens, e.key)
  {
    EndedRevokeRevivesNothing(s, t);
  }

  lemma LogKept(s: State, a: Action)
    requires Enabled(s, a)
    ensures s.log <= Do(s, a).log
  {
  }

  lemma StepKeepsAbsent(s: State, a: Action, e: Event)
    requires LocksSound(s) && KeysSound(s) && CoversSound(s) && Enabled(s, a)
    requires e in s.log && e.AnsweredApproved? && Absent(s.tokens, e.key)
    ensures e in Do(s, a).log && Absent(Do(s, a).tokens, e.key)
  {
    if a.Commit? && s.txns[a.txn].Revoke? {
      RevokeKeepsAbsent(s, a.txn, e);
    } else {
      LogKept(s, a);
      RevivesNothing(s, a);
      UnrevivedStaysAbsent(s, Do(s, a), e);
    }
  }

  /** An answered key that is no token once is none ever after. */
  lemma {:induction false} GoneForGood(states: seq<State>, actions: seq<Action>, i: nat, j: nat, e: Event)
    requires IsRun(states, actions) && Quiet(states[0]) && i <= j <= |actions|
    requires e in states[i].log && e.AnsweredApproved? && e.key !in states[i].tokens.Values
    ensures e in states[j].log && e.key !in states[j].tokens.Values
    decreases j
  {
    if i < j {
      GoneForGood(states, actions, i, j - 1, e);
      RunsKeepTokens(states, actions, j - 1);
      StepKeepsAbsent(states[j - 1], actions[j - 1], e);
    }
  }

  // ---------------------------------------------------------------- a pass that found a token

  ghost predicate PassClean(s: State, pass: Pass) {
    pass.had ==> forall e :: e in s.log && e.AnsweredApproved? && e.device in pass.covered ==> Absent(s.tokens, e.key)
  }

  ghost predicate PassesClean(s: State) {
    forall t :: t in s.passes ==> PassClean(s, s.passes[t])
  }

  lemma CommitMakesPassClean(s: State, t: nat)
    requires TokensSound(s) && Enabled(s, Commit(t)) && s.txns[t].Revoke?
    ensures PassClean(Do(s, Commit(t)), Do(s, Commit(t)).passes[t])
  {
    var s' := Do(s, Commit(t));
    StepKeepsTokens(s, Commit(t));
    forall e | e in s'.log && e.AnsweredApproved? && e.device in s'.passes[t].covered && s'.passes[t].had
      ensures Absent(s'.tokens, e.key)
    {
      CoveredAnswerIsForPassUser(s', t, e);
      assert AnswerKeySound(s', e);
    }
  }

  lemma RevokeCommitKeepsPassesClean(s: State, t: nat)
    requires TokensSound(s) && PassesClean(s) && Enabled(s, Commit(t)) && s.txns[t].Revoke?
    ensures PassesClean(Do(s, Commit(t)))
  {
    CommitMakesPassClean(s, t);
    EndedRevokeRevivesNothing(s, t);
    forall o | o in Do(s, Commit(t)).passes && o != t ensures PassClean(Do(s, Commit(t)), Do(s, Commit(t)).passes[o]) {
      assert PassClean(s, s.passes[o]);
    }
  }

  lemma UnrevivedStayClean(s: State, s': State)
    requires PassesClean(s) && NothingRevived(s, s') && s'.passes == s.passes
    ensures PassesClean(s')
  {
    forall t | t in s'.passes ensures PassClean(s', s'.passes[t]) {
      assert PassClean(s, s.passes[t]);
    }
  }

  lemma StepKeepsPassesClean(s: State, a: Action)
    requires TokensSound(s) && PassesClean(s) && Enabled(s, a)
    ensures PassesClean(Do(s, a))
  {
    if a.Commit? && s.txns[a.txn].Revoke? {
      RevokeCommitKeepsPassesClean(s, a.txn);
    } else {
      RevivesNothing(s, a);
      PassesKept(s, a);
      UnrevivedStayClean(s, Do(s, a));
    }
  }

  lemma {:induction false} RunsKeepPassesClean(states: seq<State>, actions: seq<Action>, i: nat)
    requires IsRun(states, actions) && Quiet(states[0]) && i <= |actions|
    ensures PassesClean(states[i])
  {
    if i > 0 {
      RunsKeepPassesClean(states, actions, i - 1);
      RunsKeepTokens(states, actions, i - 1);
      StepKeepsPassesClean(states[i - 1], actions[i - 1]);
    }
  }

  /** A committed revocation whose token delete found a token leaves none of the keys handed out for the
      pairings it covers, in any later state of any run: it held the token row until it committed, so no
      poll could insert another. */
  lemma OnePassWithTokenSuffices(states: seq<State>, actions: seq<Action>, i: nat, t: nat, e: Event)
    requires IsRun(states, actions) && Quiet(states[0]) && i <= |actions|
    requires t in states[i].passes && states[i].passes[t].had
    requires e in states[i].log && e.AnsweredApproved? && e.device in states[i].passes[t].covered
    ensures e.key !in states[i].tokens.Values
  {
    RunsKeepPassesClean(states, actions, i);
    assert PassClean(states[i], states[i].passes[t]);
  }

  // ---------------------------------------------------------------- a pass that found none

  /** The step that makes key the token of u: a login, or the commit of a poll that inserted it. */
  predicate Publishes(s: State, a: Action, u: nat, key: nat) {
    || (a == Login(u, key) && u !in s.tokens)
    || (a.Commit? && a.txn in s.txns && HoldsAnswerKey(s.txns[a.txn]) && s.txns[a.txn].redeem.inserted
        && s.txns[a.txn].redeem.key == key && s.txns[a.txn].redeem.row.user == Some(u))
  }

  predicate IsToken(s: State, u: nat, key: nat) {
    u in s.tokens && s.tokens[u] == key
  }

  lemma CommitPublishes(s: State, t: nat, u: nat, key: nat)
    requires KeysSound(s) && Enabled(s, Commit(t)) && !IsToken(s, u, key) && IsToken(Do(s, Commit(t)), u, key)
    ensures Publishes(s, Commit(t), u, key)
  {
    assert RedeemKeySound(s, s.txns[t]);
  }

  lemma LoginPublishes(s: State, a: Action, u: nat, key: nat)
    requires Enabled(s, a) && !a.Commit? && !IsToken(s, u, key) && IsToken(Do(s, a), u, key)
    ensures Publishes(s, a, u, key)
  {
  }

  lemma TokenAppears(s: State, a: Action, u: nat, key: nat)
    requires KeysSound(s) && Enabled(s, a) && !IsToken(s, u, key) && IsToken(Do(s, a), u, key)
    ensures Publishes(s, a, u, key)
  {
    if a.Commit? {
      CommitPublishes(s, a.txn, u, key);
    } else {
      LoginPublishes(s, a, u, key);
    }
  }

  lemma LogoutRemoves(s: State, u: nat, key: nat)
    requires Enabled(s, Logout(u))
    ensures !IsToken(Do(s, Logout(u)), u, key)
  {
  }

  lemma PublishedIsToken(s: State, a: Action, u: nat, key: nat)
    requires Enabled(s, a) && Publishes(s, a, u, key)
    ensures IsToken(Do(s, a), u, key)
  {
  }

  lemma CommitKeepsToken(s: State, o: nat, u: nat, key: nat)
    requires KeysSound(s) && HeldTokensSound(s) && Enabled(s, Commit(o)) && IsToken(s, u, key)
    requires !(PastTokenDelete(s, o) && s.txns[o].user == u && s.txns[o].revoke.had)
    ensures IsToken(Do(s, Commit(o)), u, key)
  {
    assert RedeemKeySound(s, s.txns[o]) && HeldTokenSound(s, s.txns[o]);
  }

  /** While a revocation of u is past a token delete that found nothing, only a logout removes u's token. */
  lemma TokenStays(s: State, a: Action, u: nat, key: nat, t: nat)
    requires LocksSound(s) && KeysSound(s) && HeldTokensSound(s) && Enabled(s, a) && IsToken(s, u, key)
    requires PastTokenDelete(s, t) && s.txns[t].user == u && !s.txns[t].revoke.had && a != Logout(u)
    ensures IsToken(Do(s, a), u, key)
  {
    if a.Commit? {
      assert HoldsKey(s.txns[t], u);
      if a.txn != t {
        assert Apart(s.txns[a.txn], s.txns[t]);
      }
      CommitKeepsToken(s, a.txn, u, key);
    } else {
      OnlyLogoutRemoves(s, a, u, key);
    }
  }

  lemma OnlyLogoutRemoves(s: State, a: Action, u: nat, key: nat)
    requires Enabled(s, a) && IsToken(s, u, key) && !a.Commit? && a != Logout(u)
    ensures IsToken(Do(s, a), u, key)
  {
  }

  predicate NoLogout(actions: seq<Action>, k: nat, c: nat, u: nat) {
    forall j :: k < j < c && j < |actions| ==> actions[j] != Logout(u)
  }

  /** A key that is u's token was so before, or this step published it. */
  lemma TokenStep(s: State, a: Action, u: nat, key: nat)
    requires KeysSound(s) && Enabled(s, a) && IsToken(Do(s, a), u, key)
    ensures (IsToken(s, u, key) && a != Logout(u)) || (!IsToken(s, u, key) && Publishes(s, a, u, key))
  {
    if !IsToken(s, u, key) {
      TokenAppears(s, a, u, key);
    } else if a == Logout(u) {
      LogoutRemoves(s, u, key);
    }
  }

  lemma TokenStepInRun(states: seq<State>, actions: seq<Action>, k: nat, u: nat, key: nat)
    requires IsRun(states, actions) && Quiet(states[0]) && k < |actions| && IsToken(states[k + 1], u, key)
    ensures (IsToken(states[k], u, key) && actions[k] != Logout(u))
            || (!IsToken(states[k], u, key) && Publishes(states[k], actions[k], u, key))
  {
    RunsKeepTokens(states, actions, k);
    TokenStep(states[k], actions[k], u, key);
  }

  lemma {:induction false} TokenWasPublished(states: seq<State>, actions: seq<Action>, d: nat, c: nat, u: nat, key: nat)
    returns (k: nat)
    requires IsRun(states, actions) && Quiet(states[0]) && d < c <= |actions|
    requires !IsToken(states[d + 1], u, key) && IsToken(states[c], u, key)
    ensures d < k < c && Publishes(states[k], actions[k], u, key) && NoLogout(actions, k, c, u)
    decreases c
  {
    k := c - 1;
    TokenStepInRun(states, actions, k, u, key);
    if IsToken(states[k], u, key) {
      k := TokenWasPublished(states, actions, d, c - 1, u, key);
    }
  }

  lemma {:induction false} PublishedStays(states: seq<State>, actions: seq<Action>, k: nat, c: nat, u: nat, key: nat, t: nat)
    requires IsRun(states, actions) && Quiet(states[0]) && k < c <= |actions|
    requires Publishes(states[k], actions[k], u, key) && NoLogout(actions, k, c, u)
    requires forall j :: k <= j < c ==> PastTokenDelete(states[j], t) && states[j].txns[t].user == u && !states[j].txns[t].revoke.had
    ensures IsToken(states[c], u, key)
    decreases c
  {
    if k + 1 == c {
      PublishedIsToken(states[k], actions[k], u, key);
    } else {
      PublishedStays(states, actions, k, c - 1, u, key, t);
      RunsHoldTokens(states, actions, c - 1);
      TokenStays(states[c - 1], actions[c - 1], u, key, t);
    }
  }

  /** Some login or poll made key the token of u between two steps, and nobody logged u out since. */
  ghost predicate PublishedBetween(states: seq<State>, actions: seq<Action>, d: nat, c: nat, u: nat, key: nat)
    requires |states| == |actions| + 1 && c <= |actions|
  {
    exists k :: d < k < c && Publishes(states[k], actions[k], u, key) && NoLogout(actions, k, c, u)
  }

  /** The revocation about to commit, and an answer about a pairing it covers. */
  predicate CoversAnswer(s: State, t: nat, e: Event) {
    && t in s.txns && s.txns[t].Revoke? && s.txns[t].revoke.Deleting?
    && e in s.log && e.AnsweredApproved? && e.device in s.txns[t].revoke.covered
  }

  lemma CoveredAnswerKey(s: State, t: nat, e: Event)
    requires TokensSound(s) && Enabled(s, Commit(t)) && CoversAnswer(s, t, e)
    ensures e.user == s.txns[t].user && OnlyFor(Do(s, Commit(t)).tokens, e.key, s.txns[t].user)
  {
    StepKeepsTokens(s, Commit(t));
    CoveredAnswerIsForPassUser(Do(s, Commit(t)), t, e);
    assert AnswerKeySound(Do(s, Commit(t)), e);
  }

  lemma RevokeCommitTokens(s: State, t: nat, u: nat, key: nat)
    requires Enabled(s, Commit(t)) && s.txns[t].Revoke? && s.txns[t].user == u
    ensures IsToken(Do(s, Commit(t)), u, key) <==> !s.txns[t].revoke.had && IsToken(s, u, key)
  {
  }

  /** When a revocation commits, a key handed out for a pairing it covers is still a token exactly when its
      token delete found none and that key was committed after it, by a poll or by a login that a poll then
      found, with no logout since. */
  lemma OnePassExactly(states: seq<State>, actions: seq<Action>, c: nat, t: nat, e: Event) returns (d: nat)
    requires IsRun(states, actions) && Quiet(states[0]) && c < |actions|
    requires actions[c] == Commit(t) && CoversAnswer(states[c], t, e)
    ensures d < c && actions[d] == DeleteTokens(t)
    ensures e.key in states[c + 1].tokens.Values <==>
              states[c].txns[t].user !in states[d].tokens
              && PublishedBetween(states, actions, d, c, states[c].txns[t].user, e.key)
  {
    var u := states[c].txns[t].user;
    RunsKeepTokens(states, actions, c);
    CoveredAnswerKey(states[c], t, e);
    d := DeletedSince(states, actions, c, t);
    RevokeCommitTokens(states[c], t, u, e.key);
    assert e.key in states[c + 1].tokens.Values <==> IsToken(states[c + 1], u, e.key);
    if u !in states[d].tokens {
      assert states[d + 1] == Do(states[d], DeleteTokens(t));
      assert !IsToken(states[d + 1], u, e.key);
      if IsToken(states[c], u, e.key) {
        var k := TokenWasPublished(states, actions, d, c, u, e.key);
      }
      if k :| d < k < c && Publishes(states[k], actions[k], u, e.key) && NoLogout(actions, k, c, u) {
        PublishedStays(states, actions, k, c, u, e.key, t);
      }
    }
  }

  lemma CommitRecordsPass(s: State, t: nat)
    requires Enabled(s, Commit(t)) && s.txns[t].Revoke?
    ensures t in Do(s, Commit(t)).passes && Do(s, Commit(t)).log == s.log
    ensures Do(s, Commit(t)).passes[t].covered == s.txns[t].revoke.covered
  {
  }

  lemma UnrevivedLogsNothingCovered(s: State, s': State, t: nat, e: Event)
    requires NothingRevived(s, s') && t in s.passes
    requires e in s'.log && e.AnsweredApproved? && e.device in s.passes[t].covered
    ensures e in s.log
  {
  }

  lemma StepLogsNothingCovered(s: State, a: Action, t: nat, e: Event)
    requires LocksSound(s) && KeysSound(s) && CoversSound(s) && Enabled(s, a) && t in s.passes
    requires e in Do(s, a).log && e.AnsweredApproved? && e.device in s.passes[t].covered
    ensures e in s.log
  {
    if a.Commit? && s.txns[a.txn].Revoke? {
      CommitRecordsPass(s, a.txn);
    } else {
      RevivesNothing(s, a);
      UnrevivedLogsNothingCovered(s, Do(s, a), t, e);
    }
  }

  lemma NothingCoveredInRun(states: seq<State>, actions: seq<Action>, k: nat, t: nat, e: Event)
    requires IsRun(states, actions) && Quiet(states[0]) && k < |actions| && t in states[k].passes
    requires e in states[k + 1].log && e.AnsweredApproved? && e.device in states[k].passes[t].covered
    ensures e in states[k].log
  {
    RunsKeepTokens(states, actions, k);
    assert states[k + 1] == Do(states[k], actions[k]);
    StepLogsNothingCovered(states[k], actions[k], t, e);
  }

  /** Once the revocation has committed, its coverage is settled: no later answer is about a pairing in it. */
  lemma {:induction false} CoveredAnswersAreOld(states: seq<State>, actions: seq<Action>, c: nat, i: nat, t: nat, e: Event)
    requires IsRun(states, actions) && Quiet(states[0]) && c < i <= |actions|
    requires actions[c] == Commit(t) && t in states[c].txns && states[c].txns[t].Revoke? && states[c].txns[t].revoke.Deleting?
    requires e in states[i].log && e.AnsweredApproved? && e.device in states[c].txns[t].revoke.covered
    ensures CoversAnswer(states[c], t, e)
    ensures t in states[i].passes && states[i].passes[t].covered == states[c].txns[t].revoke.covered
    decreases i
  {
    CommitRecordsPass(states[c], t);
    PassStays(states, actions, c, i, t);
    if i > c + 1 {
      PassStays(states, actions, c, i - 1, t);
      NothingCoveredInRun(states, actions, i - 1, t, e);
      CoveredAnswersAreOld(states, actions, c, i - 1, t, e);
    }
  }

  lemma {:induction false} PassStays(states: seq<State>, actions: seq<Action>, c: nat, i: nat, t: nat)
    requires IsRun(states, actions) && Quiet(states[0]) && c < i <= |actions|
    requires actions[c] == Commit(t) && t in states[c].txns && states[c].txns[t].Revoke? && states[c].txns[t].revoke.Deleting?
    ensures t in states[i].passes && states[i].passes[t].covered == states[c].txns[t].revoke.covered && t !in states[i].txns
    decreases i
  {
    RunsKeepTokens(states, actions, i);
    if i == c + 1 {
      CommitRecordsPass(states[c], t);
    } else {
      PassStays(states, actions, c, i - 1, t);
      PassStaysOneStep(states[i - 1], actions[i - 1], t);
    }
  }

  lemma PassStaysOneStep(s: State, a: Action, t: nat)
    requires Enabled(s, a) && t in s.passes && t !in s.txns
    ensures t in Do(s, a).passes && Do(s, a).passes[t] == s.passes[t]
  {
  }

  /** So in any later state, a key handed out for a covered pairing that is still a token already was one
      when the revocation committed, by the way just described. */
  lemma SurvivorsAreThose(states: seq<State>, actions: seq<Action>, c: nat, i: nat, t: nat, e: Event) returns (d: nat)
    requires IsRun(states, actions) && Quiet(states[0]) && c < i <= |actions|
    requires actions[c] == Commit(t) && t in states[c].txns && states[c].txns[t].Revoke? && states[c].txns[t].revoke.Deleting?
    requires e in states[i].log && e.AnsweredApproved? && e.device in states[c].txns[t].revoke.covered
    requires e.key in states[i].tokens.Values
    ensures d < c && actions[d] == DeleteTokens(t) && states[c].txns[t].user !in states[d].tokens
    ensures PublishedBetween(states, actions, d, c, states[c].txns[t].user, e.key)
  {
    CoveredAnswersAreOld(states, actions, c, i, t, e);
    d := OnePassExactly(states, actions, c, t, e);
    CommitRecordsPass(states[c], t);
    if e.key !in states[c + 1].tokens.Values {
      GoneForGood(states, actions, c + 1, i, e);
    }
  }
}
