/** The per-user passkey epoch and the passkey cap, counted against the commit log. */
module Epochs {
  import opened Options
  import opened Accounts
  import opened Credentials

  predicate ChangesPasskeysOf(e: Event, u: nat) {
    (e.PasskeyAdded? && e.user == u) || (e.PasskeyDeleted? && e.user == u)
  }

  /** How many passkeys of u were added or deleted. */
  function Changes(log: seq<Event>, u: nat): nat {
    if log == [] then 0
    else Changes(log[..|log| - 1], u) + if ChangesPasskeysOf(log[|log| - 1], u) then 1 else 0
  }

  function RecoveryAdds(log: seq<Event>, u: nat): nat {
    if log == [] then 0
    else
      var e := log[|log| - 1];
      RecoveryAdds(log[..|log| - 1], u) + if e.PasskeyAdded? && e.user == u && e.origin.Recovering? then 1 else 0
  }

  /** The PasskeyEpoch row as the reset-token generator reads it. */
  function EpochRow(db: Tables, u: nat): Option<nat> {
    if u in db.epochs then Some(db.epochs[u]) else None
  }

  // ---------------------------------------------------------------- the epoch counts every change

  lemma CommitMovesEpoch(rules: EmailRules, db: Tables, p: Program, u: nat)
    requires Relies(rules, db, p) && CanCommit(p)
    ensures EpochRow(Effect(db, p), u) ==
              if ChangesPasskeysOf(Published(p), u) then Some(Epoch(db, u) + 1) else EpochRow(db, u)
  {
  }

  lemma AppendCounts(log: seq<Event>, e: Event, u: nat)
    ensures Changes(log + [e], u) == Changes(log, u) + if ChangesPasskeysOf(e, u) then 1 else 0
    ensures RecoveryAdds(log + [e], u) ==
              RecoveryAdds(log, u) + if e.PasskeyAdded? && e.user == u && e.origin.Recovering? then 1 else 0
  {
    assert (log + [e])[..|log|] == log;
  }

  /** The epoch row after n further changes. */
  function Moved(row: Option<nat>, n: nat): Option<nat> {
    if n == 0 then row else Some((if row.Some? then row.value else 0) + n)
  }

  predicate EpochMoves(before: State, after: State, u: nat) {
    && Changes(after.log, u) >= Changes(before.log, u)
    && EpochRow(after.db, u) == Moved(EpochRow(before.db, u), Changes(after.log, u) - Changes(before.log, u))
  }

  lemma OnlyCommitsPublish(s: State, a: Action)
    requires Enabled(s, a) && !a.Commit?
    ensures Do(s, a).db == s.db && Do(s, a).log == s.log
  {
  }

  lemma CommitStepMovesEpoch(s: State, t: nat, u: nat)
    requires Enabled(s, Commit(t)) && Relies(s.rules, s.db, s.txns[t])
    ensures EpochMoves(s, Do(s, Commit(t)), u)
  {
    CommitMovesEpoch(s.rules, s.db, s.txns[t], u);
    AppendCounts(s.log, Published(s.txns[t]), u);
  }

  lemma StepMovesEpoch(s: State, a: Action, u: nat)
    requires Sound(s) && Enabled(s, a)
    ensures EpochMoves(s, Do(s, a), u)
  {
    if a.Commit? {
      CommitStepMovesEpoch(s, a.txn, u);
    } else {
      OnlyCommitsPublish(s, a);
    }
  }

  lemma RunMovesEpoch(states: seq<State>, actions: seq<Action>, i: nat, u: nat)
    requires IsRun(states, actions) && Quiet(states[0]) && i < |actions|
    ensures EpochMoves(states[i], states[i + 1], u)
  {
    RunsAreSound(states, actions, i);
    StepMovesEpoch(states[i], actions[i], u);
  }

  lemma {:induction false} EpochTracksLog(states: seq<State>, actions: seq<Action>, i: nat, j: nat, u: nat)
    requires IsRun(states, actions) && Quiet(states[0]) && i <= j <= |actions|
    ensures Changes(states[j].log, u) >= Changes(states[i].log, u)
    ensures EpochRow(states[j].db, u) == Moved(EpochRow(states[i].db, u), Changes(states[j].log, u) - Changes(states[i].log, u))
    decreases j
  {
    if i < j {
      EpochTracksLog(states, actions, i, j - 1, u);
      RunMovesEpoch(states, actions, j - 1, u);
    }
  }

  /** In every run the stored epoch has advanced by exactly the number of committed passkey adds
      and deletes of that user; no update is lost. */
  lemma EpochCountsChanges(states: seq<State>, actions: seq<Action>, i: nat, u: nat)
    requires IsRun(states, actions) && Quiet(states[0]) && i <= |actions|
    ensures Epoch(states[i].db, u) == Epoch(states[0].db, u) + Changes(states[i].log, u)
  {
    EpochTracksLog(states, actions, 0, i, u);
  }

  /** The log only grows, and the counts differ exactly when a change of u was logged between. */
  lemma {:induction false} LogGrows(states: seq<State>, actions: seq<Action>, i: nat, j: nat)
    requires IsRun(states, actions) && i <= j <= |actions|
    ensures states[i].log <= states[j].log
    decreases j
  {
    if i < j {
      LogGrows(states, actions, i, j - 1);
      assert states[j] == Do(states[j - 1], actions[j - 1]);
    }
  }

  lemma {:induction false} CountsDifferByLoggedChanges(before: seq<Event>, after: seq<Event>, u: nat)
    requires before <= after
    ensures Changes(before, u) <= Changes(after, u)
    ensures Changes(before, u) == Changes(after, u) <==>
              forall k :: |before| <= k < |after| ==> !ChangesPasskeysOf(after[k], u)
    decreases |after|
  {
    if |before| < |after| {
      var shorter := after[..|after| - 1];
      CountsDifferByLoggedChanges(before, shorter, u);
      assert forall k :: |before| <= k < |shorter| ==> after[k] == shorter[k];
    } else {
      assert before == after;
    }
  }

  // ---------------------------------------------------------------- reset tokens

  /** What AccountRecoveryTokenGenerator signs: Django's own hash value, a colon, and the epoch.
      A signature is identified with the text it covers. */
  function HashValue(base: string, epoch: Option<nat>): string {
    base + ":" + EpochText(epoch)
  }

  function EpochText(epoch: Option<nat>): string {
    match epoch case None => "" case Some(n) => Decimal(n)
  }

  function Decimal(n: nat): string {
    if n < 10 then [DigitOf(n)] else Decimal(n / 10) + [DigitOf(n % 10)]
  }

  function DigitOf(d: nat): char
    requires d < 10
  {
    '0' + d as char
  }

  function Numeral(s: string): int {
    if s == [] then 0 else 10 * Numeral(s[..|s| - 1]) + (s[|s| - 1] as int - '0' as int)
  }

  lemma {:induction false} DecimalReadsBack(n: nat)
    ensures Numeral(Decimal(n)) == n && Decimal(n) != "" && ':' !in Decimal(n)
  {
    if n >= 10 {
      DecimalReadsBack(n / 10);
      assert Decimal(n)[..|Decimal(n)| - 1] == Decimal(n / 10);
    } else {
      assert Decimal(n)[..0] == [];
    }
  }

  lemma EpochTextHasNoColon(e: Option<nat>)
    ensures ':' !in EpochText(e)
    ensures e == if EpochText(e) == "" then None else Some(Numeral(EpochText(e)))
  {
    if e.Some? {
      DecimalReadsBack(e.value);
    }
  }

  lemma NoColonAfterBase(b: string, t: string)
    requires ':' !in t
    ensures forall k :: |b| < k < |b + ":" + t| ==> (b + ":" + t)[k] != ':'
  {
    forall k | |b| < k < |b + ":" + t| ensures (b + ":" + t)[k] != ':' {
      assert (b + ":" + t)[k] == t[k - |b| - 1];
    }
  }

  /** The text after the last colon is the epoch's, so the joined value determines both parts. */
  lemma HashValueIsInjective(b1: string, e1: Option<nat>, b2: string, e2: Option<nat>)
    ensures HashValue(b1, e1) == HashValue(b2, e2) <==> b1 == b2 && e1 == e2
  {
    EpochTextHasNoColon(e1);
    EpochTextHasNoColon(e2);
    if HashValue(b1, e1) == HashValue(b2, e2) {
      var h := HashValue(b1, e1);
      NoColonAfterBase(b1, EpochText(e1));
      NoColonAfterBase(b2, EpochText(e2));
      assert h[|b1|] == ':' && h[|b2|] == ':';
      assert b1 == h[..|b1|] == b2;
      assert EpochText(e1) == h[|b1| + 1..] == EpochText(e2);
    }
  }

  /** A reset token minted in state i verifies in a later state j exactly when its other inputs are
      unchanged and no passkey of the user was added or deleted in between: adding and then deleting
      one does not revive it, and a rolled-back recovery does not spend it. */
  lemma ResetTokenSpentByPasskeyChange(
      states: seq<State>, actions: seq<Action>, i: nat, j: nat, u: nat, mintBase: string, checkBase: string)
    requires IsRun(states, actions) && Quiet(states[0]) && i <= j <= |actions|
    ensures |states[i].log| <= |states[j].log|
    ensures HashValue(mintBase, EpochRow(states[i].db, u)) == HashValue(checkBase, EpochRow(states[j].db, u)) <==>
              && mintBase == checkBase
              && forall k :: |states[i].log| <= k < |states[j].log| ==> !ChangesPasskeysOf(states[j].log[k], u)
  {
    EpochTracksLog(states, actions, i, j, u);
    LogGrows(states, actions, i, j);
    CountsDifferByLoggedChanges(states[i].log, states[j].log, u);
    HashValueIsInjective(mintBase, EpochRow(states[i].db, u), checkBase, EpochRow(states[j].db, u));
  }

  // ---------------------------------------------------------------- the cap

  /** A commit adds at most one passkey; past the cap, only for a recovery. */
  predicate CountMoves(e: Event, u: nat, before: nat, after: nat) {
    if e.PasskeyAdded? && e.user == u then
      after == before + 1 && (!e.origin.Recovering? ==> after <= PASSKEY_MAX_PER_USER)
    else after <= before
  }

  lemma SignupCount(rules: EmailRules, db: Tables, p: Program)
    requires p.PasskeySignup? && Consistent(db) && Relies(rules, db, p) && CanCommit(p)
    ensures |PasskeysOf(Effect(db, p), p.user)| == 1 && PasskeysOf(db, p.user) == {}
  {
    var joined := WithUser(db, p.user, User(p.username, p.email, false));
    assert PasskeysOf(joined, p.user) == {} == PasskeysOf(db, p.user);
    AddingJoinsTheRest(joined, p.user, p.credential, p.signup.first);
  }

  lemma OwnerCount(rules: EmailRules, db: Tables, p: Program, u: nat)
    requires Consistent(db) && Relies(rules, db, p) && CanCommit(p) && WritesAccount(rules, p, u)
    ensures CountMoves(Published(p), u, |PasskeysOf(db, u)|, |PasskeysOf(Effect(db, p), u)|)
  {
    if p.Store? {
      AddingJoinsTheRest(db, u, p.credential, p.store.epoch);
    } else if p.Delete? {
      DeletingLeavesTheRest(db, u, p.credential, p.delete.newEpoch);
    } else if p.PasskeySignup? {
      SignupCount(rules, db, p);
    } else {
      assert Effect(db, p).passkeys == db.passkeys;
      assert PasskeysOf(Effect(db, p), u) == PasskeysOf(db, u);
    }
  }

  lemma CommitCount(rules: EmailRules, db: Tables, p: Program, u: nat)
    requires Consistent(db) && Relies(rules, db, p) && CanCommit(p)
    ensures CountMoves(Published(p), u, |PasskeysOf(db, u)|, |PasskeysOf(Effect(db, p), u)|)
  {
    if WritesAccount(rules, p, u) {
      OwnerCount(rules, db, p, u);
    } else {
      CommitStaysInItsLocks(rules, db, p);
      assert SameAccount(db, Effect(db, p), u);
    }
  }

  lemma StepKeepsCap(s: State, a: Action, u: nat)
    requires Sound(s) && Enabled(s, a)
    requires |PasskeysOf(s.db, u)| <= PASSKEY_MAX_PER_USER + RecoveryAdds(s.log, u)
    ensures |PasskeysOf(Do(s, a).db, u)| <= PASSKEY_MAX_PER_USER + RecoveryAdds(Do(s, a).log, u)
  {
    if a.Commit? {
      CommitCount(s.rules, s.db, s.txns[a.txn], u);
      AppendCounts(s.log, Published(s.txns[a.txn]), u);
    }
  }

  /** Under any interleaving an account holds at most 20 passkeys plus one per recovery. */
  lemma {:induction false} PasskeyCap(states: seq<State>, actions: seq<Action>, i: nat, u: nat)
    requires IsRun(states, actions) && Quiet(states[0]) && i <= |actions|
    ensures |PasskeysOf(states[i].db, u)| <= 20 + RecoveryAdds(states[i].log, u)
  {
    if i > 0 {
      PasskeyCap(states, actions, i - 1, u);
      RunsAreSound(states, actions, i - 1);
      StepKeepsCap(states[i - 1], actions[i - 1], u);
    }
  }
}
