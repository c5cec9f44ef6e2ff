/** When the token rows of the pairing transactions come and go: under whose lock, and at which step of a
    run. */
module TokenHistory {
  import opened Pairings
  import opened PairingRuns
  import opened TokenSweep

  // ---------------------------------------------------------------- token locks

  /** A revocation holds the token row it deleted, which is still committed; a poll holds the one it
      inserted, which is not. */
  ghost predicate HeldTokensSound(s: State) {
    forall t :: t in s.txns ==> HeldTokenSound(s, s.txns[t])
  }

  ghost predicate HeldTokenSound(s: State, t: Txn) {
    forall u :: HoldsToken(t, u) ==> (u in s.tokens <==> t.Revoke?)
  }

  /** A token row appears or goes only while nobody holds it, or by the commit of its holder. */
  lemma TokenMovesUnderLock(s: State, a: Action, u: nat)
    requires KeysSound(s) && Enabled(s, a)
    ensures (u in s.tokens) != (u in Do(s, a).tokens) ==>
              TokenFree(s, u) || (a.Commit? && HoldsToken(s.txns[a.txn], u))
  {
    if a.Commit? {
      assert RedeemKeySound(s, s.txns[a.txn]);
    }
  }

  lemma HeldTokenStays(s: State, a: Action, t: nat, u: nat)
    requires LocksSound(s) && KeysSound(s) && Enabled(s, a)
    requires t in s.txns && HoldsToken(s.txns[t], u) && a != Commit(t)
    ensures u in s.tokens <==> u in Do(s, a).tokens
  {
    TokenMovesUnderLock(s, a, u);
    if a.Commit? {
      assert Apart(s.txns[a.txn], s.txns[t]);
    }
  }

  /** A token lock is taken by the poll that inserts the row and by the revocation that deletes it. */
  lemma TokenLockStarts(s: State, a: Action, t: nat, u: nat)
    requires Enabled(s, a) && t in Do(s, a).txns && HoldsToken(Do(s, a).txns[t], u)
    requires !(t in s.txns && HoldsToken(s.txns[t], u))
    ensures a.InsertToken? || a.DeleteTokens?
    ensures Do(s, a).tokens == s.tokens && (u in s.tokens <==> Do(s, a).txns[t].Revoke?)
  {
  }

  lemma TokenLockStays(s: State, a: Action, t: nat, u: nat)
    requires Enabled(s, a) && t in Do(s, a).txns && t in s.txns && HoldsToken(s.txns[t], u) && HoldsToken(Do(s, a).txns[t], u)
    ensures s.txns[t].Revoke? == Do(s, a).txns[t].Revoke?
  {
    if a.BeginRedeem? || a.BeginRevoke? || a.BeginPurge? {
      BegunHoldsNoToken(s, a, u);
    }
  }

  lemma BegunHoldsNoToken(s: State, a: Action, u: nat)
    requires Enabled(s, a) && (a.BeginRedeem? || a.BeginRevoke? || a.BeginPurge?)
    ensures !HoldsToken(Do(s, a).txns[a.txn], u)
  {
  }

  lemma CommitEnds(s: State, t: nat)
    requires Enabled(s, Commit(t))
    ensures t !in Do(s, Commit(t)).txns
  {
  }

  lemma HeldTokenStaysSound(s: State, a: Action, t: nat, u: nat)
    requires LocksSound(s) && KeysSound(s) && HeldTokensSound(s) && Enabled(s, a)
    requires t in Do(s, a).txns && HoldsToken(Do(s, a).txns[t], u)
    ensures u in Do(s, a).tokens <==> Do(s, a).txns[t].Revoke?
  {
    if t in s.txns && HoldsToken(s.txns[t], u) {
      TokenLockStays(s, a, t, u);
      if a.Commit? {
        CommitEnds(s, a.txn);
      }
      assert HeldTokenSound(s, s.txns[t]);
      HeldTokenStays(s, a, t, u);
    } else {
      TokenLockStarts(s, a, t, u);
    }
  }

  lemma StepKeepsHeldTokens(s: State, a: Action)
    requires LocksSound(s) && KeysSound(s) && HeldTokensSound(s) && Enabled(s, a)
    ensures HeldTokensSound(Do(s, a))
  {
    var s' := Do(s, a);
    forall t, u | t in s'.txns && HoldsToken(s'.txns[t], u) ensures u in s'.tokens <==> s'.txns[t].Revoke? {
      HeldTokenStaysSound(s, a, t, u);
    }
  }

  lemma {:induction false} RunsHoldTokens(states: seq<State>, actions: seq<Action>, i: nat)
    requires IsRun(states, actions) && Quiet(states[0]) && i <= |actions|
    ensures TokensSound(states[i]) && HeldTokensSound(states[i])
  {
    RunsKeepTokens(states, actions, i);
    if i > 0 {
      RunsHoldTokens(states, actions, i - 1);
      StepKeepsHeldTokens(states[i - 1], actions[i - 1]);
    }
  }

  // ---------------------------------------------------------------- since when

  /** The revocation has issued its token delete. */
  predicate PastTokenDelete(s: State, t: nat) {
    t in s.txns && s.txns[t].Revoke? && (s.txns[t].revoke.TokensDeleted? || s.txns[t].revoke.Deleting?)
  }

  lemma TokenDeleteIsFirst(s: State, a: Action, t: nat)
    requires Enabled(s, a) && PastTokenDelete(Do(s, a), t)
    ensures if a == DeleteTokens(t) then
              t in s.txns && s.txns[t].Revoke? && s.txns[t].user == Do(s, a).txns[t].user
              && Do(s, a).txns[t].revoke.had == (s.txns[t].user in s.tokens)
            else
              PastTokenDelete(s, t) && s.txns[t].user == Do(s, a).txns[t].user
              && s.txns[t].revoke.had == Do(s, a).txns[t].revoke.had
  {
  }

  /** The step at which a revocation deleted its user's token, and whether there was one. */
  lemma {:induction false} DeletedSince(states: seq<State>, actions: seq<Action>, i: nat, t: nat) returns (d: nat)
    requires IsRun(states, actions) && Quiet(states[0]) && i <= |actions| && PastTokenDelete(states[i], t)
    ensures d < i && actions[d] == DeleteTokens(t)
    ensures states[i].txns[t].revoke.had == (states[i].txns[t].user in states[d].tokens)
    ensures forall j :: d < j <= i ==>
              && PastTokenDelete(states[j], t) && states[j].txns[t].user == states[i].txns[t].user
              && states[j].txns[t].revoke.had == states[i].txns[t].revoke.had
  {
    TokenDeleteIsFirst(states[i - 1], actions[i - 1], t);
    d := i - 1;
    if actions[i - 1] != DeleteTokens(t) {
      d := DeletedSince(states, actions, i - 1, t);
    }
  }

  // ---------------------------------------------------------------- how a token comes and goes

  /** A user's token comes by a login or by the commit of a poll that answers with it, keeps its key while it
      is there, and goes by a logout or by the commit of a revocation of that user. */
  lemma TokensComeAndGo(states: seq<State>, actions: seq<Action>, i: nat, u: nat)
    requires IsRun(states, actions) && Quiet(states[0]) && i < |actions|
    ensures u in states[i].tokens && u !in states[i + 1].tokens ==>
              actions[i] == Logout(u)
              || (actions[i].Commit? && actions[i].txn in states[i].txns && states[i].txns[actions[i].txn].Revoke?
                  && states[i].txns[actions[i].txn].user == u)
    ensures u in states[i].tokens && u in states[i + 1].tokens ==> states[i + 1].tokens[u] == states[i].tokens[u]
    ensures u !in states[i].tokens && u in states[i + 1].tokens ==>
              actions[i] == Login(u, states[i + 1].tokens[u])
              || (actions[i].Commit? && |states[i + 1].log| == |states[i].log| + 1 && states[i + 1].log[|states[i].log|].AnsweredApproved?
                  && states[i + 1].log[|states[i].log|].user == u && states[i + 1].log[|states[i].log|].key == states[i + 1].tokens[u])
  {
    RunsKeepTokens(states, actions, i);
    RunsHoldTokens(states, actions, i);
    var s, a := states[i], actions[i];
    if a.Commit? {
      CommitMovesTokens(s, a.txn, u);
    } else if !a.Login? && !a.Logout? {
      OthersKeepTokens(s, a);
    }
  }

  lemma OthersKeepTokens(s: State, a: Action)
    requires Enabled(s, a) && !a.Login? && !a.Logout? && !a.Commit?
    ensures Do(s, a).tokens == s.tokens
  {
  }

  predicate MovedToken(s: State, s': State, t: nat, u: nat)
    requires t in s.txns
  {
    && (u in s.tokens && u !in s'.tokens ==> s.txns[t].Revoke? && s.txns[t].user == u)
    && (u in s.tokens && u in s'.tokens ==> s'.tokens[u] == s.tokens[u])
    && (u !in s.tokens && u in s'.tokens ==>
          && |s'.log| == |s.log| + 1 && s'.log[|s.log|].AnsweredApproved?
          && s'.log[|s.log|].user == u && s'.log[|s.log|].key == s'.tokens[u])
  }

  lemma PollMovesTokens(s: State, t: nat, u: nat)
    requires Enabled(s, Commit(t)) && s.txns[t].Redeem? && RedeemKeySound(s, s.txns[t]) && HeldTokenSound(s, s.txns[t])
    ensures MovedToken(s, Do(s, Commit(t)), t, u)
  {
    if s.txns[t].redeem.Keyed? && s.txns[t].redeem.inserted {
      assert HoldsToken(s.txns[t], s.txns[t].redeem.row.user.value);
    }
  }

  lemma DeleteMovesTokens(s: State, t: nat, u: nat)
    requires Enabled(s, Commit(t)) && !s.txns[t].Redeem?
    ensures MovedToken(s, Do(s, Commit(t)), t, u)
  {
  }

  lemma CommitMovesTokens(s: State, t: nat, u: nat)
    requires KeysSound(s) && HeldTokensSound(s) && Enabled(s, Commit(t))
    ensures MovedToken(s, Do(s, Commit(t)), t, u)
  {
    if s.txns[t].Redeem? {
      PollMovesTokens(s, t, u);
    } else {
      DeleteMovesTokens(s, t, u);
    }
  }
}
