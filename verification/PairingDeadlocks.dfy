/** When the pairing transactions deadlock: what a ring of waits must contain, what each kind takes, and
    runs that reach both kinds. */
module PairingDeadlocks {
  import opened Options
  import opened Pairings
  import opened PairingRuns
  import opened TokenSweep
  import opened PairingTheorems
  import opened TokenHistory
  import opened Rings

  // ---------------------------------------------------------------- rings

  /** redeem locks a pairing and then a token; a revocation locks a token and then pairings; a purge locks
      one pairing after another. */
  ghost predicate WaitsFor(s: State, t: nat, o: nat) {
    t in s.txns && o in s.txns && t != o && NeedsFrom(s, s.txns[t], s.txns[o])
  }

  /** The next statement of x, or the rest of it, cannot run because of a lock y holds. */
  ghost predicate NeedsFrom(s: State, x: Txn, y: Txn) {
    || (exists p :: p in Targets(x) && HoldsRow(y, p))
    || (x.Redeem? && x.redeem.Waiting? && HoldsRow(y, x.device))
    || (x.Redeem? && x.redeem.Missing? && x.redeem.row.user.Some? && HoldsToken(y, x.redeem.row.user.value))
    || (x.Revoke? && x.revoke.WantsKey? && HoldsKey(y, x.user))
    || (x.Revoke? && x.revoke.HasKey? && x.user in s.tokens && HoldsToken(y, x.user))
  }

  /** A poll that found no token for its user and has to insert one. */
  predicate ShortPoll(s: State, t: nat) {
    t in s.txns && s.txns[t].Redeem? && s.txns[t].redeem.Missing?
  }

  predicate MultiDelete(s: State, t: nat) {
    t in s.txns && (s.txns[t].Purge? || (s.txns[t].Revoke? && s.txns[t].revoke.Deleting?))
  }

  predicate DeletingRevoke(s: State, t: nat) {
    t in s.txns && s.txns[t].Revoke? && s.txns[t].revoke.Deleting?
  }

  /** A poll that found no token for its user, and a revocation of that user that has since deleted
      one, uncommitted, and whose pairing delete still has to take the poll's row. */
  ghost predicate CrossedPair(s: State, poll: nat, revoke: nat) {
    && ShortPoll(s, poll) && DeletingRevoke(s, revoke) && s.txns[revoke].revoke.had
    && s.txns[poll].device in s.txns[revoke].revoke.targets
  }

  /** Some short poll holds row p and lacks the token x has deleted. */
  ghost predicate HeldByPollShortOf(s: State, p: nat, x: Txn) {
    exists t :: ShortPoll(s, t) && s.txns[t].device == p && s.txns[t].redeem.row.user.Some?
      && HoldsToken(x, s.txns[t].redeem.row.user.value)
  }

  /** One multi-row delete is behind another: it still wants a row the other has deleted, or a row held by
      a poll that lacks the token the other has deleted. */
  ghost predicate Behind(s: State, t: nat, o: nat) {
    && MultiDelete(s, t) && MultiDelete(s, o) && t != o
    && exists p :: p in Targets(s.txns[t]) && (p in Doomed(s.txns[o]) || HeldByPollShortOf(s, p, s.txns[o]))
  }

  ghost function Waits(s: State): Edges {
    set t, o | t in s.txns && o in s.txns && WaitsFor(s, t, o) :: (t, o)
  }

  ghost function Queue(s: State): Edges {
    set t, o | t in s.txns && o in s.txns && Behind(s, t, o) :: (t, o)
  }

  // ---------------------------------------------------------------- inside a ring of waits

  /** Inside a chain of waits there are only short polls and multi-row deletes: the other waiting stages
      hold nothing anyone in the chain needs. */
  lemma ChainMember(s: State, z: nat, b: nat, t: nat, o: nat)
    requires WaitsFor(s, z, b) && WaitsFor(s, b, t) && WaitsFor(s, t, o)
    ensures ShortPoll(s, t) || MultiDelete(s, t)
  {
  }

  lemma RingMember(s: State, ring: seq<nat>, i: nat)
    requires Ring(Waits(s), ring) && i < |ring|
    ensures WaitsFor(s, ring[i], ring[Next(i, |ring|)])
    ensures ShortPoll(s, ring[i]) || MultiDelete(s, ring[i])
  {
    var n := |ring|;
    var before := if i == 0 then n - 1 else i - 1;
    var earlier := if before == 0 then n - 1 else before - 1;
    assert Next(before, n) == i && Next(earlier, n) == before;
    assert (ring[earlier], ring[before]) in Waits(s) && (ring[before], ring[i]) in Waits(s);
    ChainMember(s, ring[earlier], ring[before], ring[i], ring[Next(i, n)]);
  }

  /** A short poll in a chain waits for a revocation that has deleted its token. */
  lemma PollWaitsForRevocation(s: State, t: nat, o: nat)
    requires WaitsFor(s, t, o) && ShortPoll(s, t) && (ShortPoll(s, o) || MultiDelete(s, o))
    ensures DeletingRevoke(s, o) && s.txns[o].revoke.had && s.txns[t].redeem.row.user == Some(s.txns[o].user)
  {
  }

  ghost predicate NoneCrossed(s: State) {
    forall poll, revoke :: !CrossedPair(s, poll, revoke)
  }

  function DeletesOf(s: State, ring: seq<nat>): set<nat> {
    set t | t in ring && MultiDelete(s, t)
  }

  /** Who a multi-row delete in a ring of waits stands behind: the next member, or the one after it if the
      next is a poll. */
  lemma RingDeleteIsBehind(s: State, ring: seq<nat>, i: nat) returns (o: nat)
    requires Ring(Waits(s), ring) && i < |ring| && MultiDelete(s, ring[i])
    requires NoneCrossed(s)
    ensures o in ring && Behind(s, ring[i], o)
  {
    var j := Next(i, |ring|);
    var k := Next(j, |ring|);
    RingMember(s, ring, i);
    RingMember(s, ring, j);
    RingMember(s, ring, k);
    var p :| p in Targets(s.txns[ring[i]]) && HoldsRow(s.txns[ring[j]], p);
    if ShortPoll(s, ring[j]) {
      PollWaitsForRevocation(s, ring[j], ring[k]);
      assert !CrossedPair(s, ring[j], ring[k]);
      assert HeldByPollShortOf(s, p, s.txns[ring[k]]);
      return ring[k];
    }
    return ring[j];
  }

  lemma RingHasDelete(s: State, ring: seq<nat>)
    requires Ring(Waits(s), ring)
    ensures DeletesOf(s, ring) != {}
  {
    var i := Next(0, |ring|);
    RingMember(s, ring, 0);
    RingMember(s, ring, i);
    if ShortPoll(s, ring[0]) {
      PollWaitsForRevocation(s, ring[0], ring[i]);
      assert ring[i] in DeletesOf(s, ring);
    } else {
      assert ring[0] in DeletesOf(s, ring);
    }
  }

  lemma DeletesAreClosed(s: State, ring: seq<nat>)
    requires Ring(Waits(s), ring) && NoneCrossed(s)
    ensures Closed(Queue(s), DeletesOf(s, ring))
  {
    RingHasDelete(s, ring);
    forall t | t in DeletesOf(s, ring) ensures LeadsInto(Queue(s), t, DeletesOf(s, ring)) {
      var i :| 0 <= i < |ring| && ring[i] == t;
      var o := RingDeleteIsBehind(s, ring, i);
      BehindIsQueued(s, t, o);
      assert o in DeletesOf(s, ring);
    }
  }

  lemma BehindIsQueued(s: State, t: nat, o: nat)
    ensures Behind(s, t, o) <==> (t, o) in Queue(s)
  {
  }

  // ---------------------------------------------------------------- from either kind to a ring of waits

  lemma CrossedPairIsRing(s: State, poll: nat, revoke: nat)
    requires LocksSound(s) && CrossedPair(s, poll, revoke)
    ensures Ring(Waits(s), [poll, revoke])
  {
    assert RedeemSound(s, s.txns[poll]) && DeleteSound(s, s.txns[revoke]);
    assert s.txns[poll].device in Targets(s.txns[revoke]);
    assert HoldsRow(s.txns[poll], s.txns[poll].device);
    assert WaitsFor(s, poll, revoke) && WaitsFor(s, revoke, poll);
  }

  /** The deletes of a ring, with the polls that lack a token one of them deleted. */
  ghost function WithPolls(s: State, ring: seq<nat>): set<nat> {
    set t | t in s.txns && (t in ring || PollBehindOne(s, t, ring))
  }

  ghost predicate PollBehindOne(s: State, t: nat, ring: seq<nat>) {
    ShortPoll(s, t) && exists o :: o in ring && WaitsFor(s, t, o)
  }

  lemma BehindLeadsInto(s: State, ring: seq<nat>, t: nat, o: nat)
    requires Behind(s, t, o) && o in ring
    ensures LeadsInto(Waits(s), t, WithPolls(s, ring))
  {
    var p :| p in Targets(s.txns[t]) && (p in Doomed(s.txns[o]) || HeldByPollShortOf(s, p, s.txns[o]));
    if p in Doomed(s.txns[o]) {
      assert HoldsRow(s.txns[o], p);
      assert (t, o) in Waits(s);
    } else {
      var poll :| ShortPoll(s, poll) && s.txns[poll].device == p && s.txns[poll].redeem.row.user.Some?
        && HoldsToken(s.txns[o], s.txns[poll].redeem.row.user.value);
      assert WaitsFor(s, poll, o) && HoldsRow(s.txns[poll], p);
      assert (t, poll) in Waits(s) && poll in WithPolls(s, ring);
    }
  }

  lemma WithPollsIsClosed(s: State, ring: seq<nat>)
    requires Ring(Queue(s), ring)
    ensures Closed(Waits(s), WithPolls(s, ring))
  {
    var d := WithPolls(s, ring);
    assert (ring[0], ring[Next(0, |ring|)]) in Queue(s);
    assert ring[0] in d;
    forall t | t in d ensures LeadsInto(Waits(s), t, d) {
      if t in ring {
        var i :| 0 <= i < |ring| && ring[i] == t;
        assert (t, ring[Next(i, |ring|)]) in Queue(s);
        BehindLeadsInto(s, ring, t, ring[Next(i, |ring|)]);
      } else {
        var o :| o in ring && WaitsFor(s, t, o);
        assert o in d && (t, o) in Waits(s);
      }
    }
  }

  // ---------------------------------------------------------------- the exact condition

  lemma DeadlockMeans(s: State)
    requires LocksSound(s)
    ensures (exists ring :: Ring(Waits(s), ring)) <==>
              || (exists poll, revoke :: CrossedPair(s, poll, revoke))
              || (exists ring :: Ring(Queue(s), ring))
  {
    ClosedExactlyWithRing(Waits(s));
    ClosedExactlyWithRing(Queue(s));
    if poll, revoke :| CrossedPair(s, poll, revoke) {
      CrossedPairIsRing(s, poll, revoke);
    } else if ring :| Ring(Waits(s), ring) {
      DeletesAreClosed(s, ring);
    }
    if ring :| Ring(Queue(s), ring) {
      WithPollsIsClosed(s, ring);
    }
  }

  /** In every run, the transactions are deadlocked exactly when a poll and a revocation are crossed, or
      multi-row deletes stand behind one another in a ring. */
  lemma DeadlockedExactly(states: seq<State>, actions: seq<Action>, i: nat)
    requires IsRun(states, actions) && Quiet(states[0]) && i <= |actions|
    ensures (exists ring :: Ring(Waits(states[i]), ring)) <==>
              || (exists poll, revoke :: CrossedPair(states[i], poll, revoke))
              || (exists ring :: Ring(Queue(states[i]), ring))
  {
    RunsKeepTokens(states, actions, i);
    DeadlockMeans(states[i]);
  }

  // ---------------------------------------------------------------- a ring does not dissolve

  predicate ActsOn(a: Action, t: nat) {
    && (a.BeginRedeem? || a.Select? || a.GetToken? || a.InsertToken? || a.BeginRevoke? || a.TakeKey? || a.DeleteTokens?
        || a.StartPairingDelete? || a.BeginPurge? || a.DeletePairing? || a.Commit? || a.Abort?)
    && a.txn == t
  }

  lemma OthersStay(s: State, a: Action, t: nat)
    requires Enabled(s, a) && t in s.txns && !ActsOn(a, t)
    ensures t in Do(s, a).txns && Do(s, a).txns[t] == s.txns[t]
  {
  }

  lemma ShortPollActs(s: State, a: Action, t: nat)
    requires Enabled(s, a) && ActsOn(a, t) && ShortPoll(s, t) && t in s.used
    ensures a.InsertToken? || a.Abort?
  {
  }

  lemma MultiDeleteActs(s: State, a: Action, t: nat)
    requires Enabled(s, a) && ActsOn(a, t) && MultiDelete(s, t) && t in s.used
    ensures a.DeletePairing? || a.Commit? || a.Abort?
  {
  }

  /** A short poll that waits can do nothing. */
  lemma ShortPollIsStuck(s: State, a: Action, t: nat, o: nat)
    requires LocksSound(s) && Enabled(s, a) && a != Abort(t) && WaitsFor(s, t, o) && ShortPoll(s, t)
    ensures !ActsOn(a, t)
  {
    if ActsOn(a, t) {
      assert t in s.used;
      ShortPollActs(s, a, t);
    }
  }

  /** A multi-row delete that waits only takes other rows. */
  lemma WaitingDeleteActs(s: State, a: Action, t: nat, o: nat)
    requires LocksSound(s) && Enabled(s, a) && ActsOn(a, t) && a != Abort(t) && WaitsFor(s, t, o) && MultiDelete(s, t)
    ensures a.DeletePairing? && !HoldsRow(s.txns[o], a.device)
  {
    assert t in s.used;
    MultiDeleteActs(s, a, t);
  }

  /** Whoever waits keeps every lock it has and still wants every row another holds. */
  lemma WaiterStays(s: State, a: Action, t: nat, o: nat)
    requires LocksSound(s) && Enabled(s, a) && WaitsFor(s, t, o) && a != Abort(t)
    requires ShortPoll(s, t) || MultiDelete(s, t)
    ensures t in Do(s, a).txns && (ShortPoll(s, t) ==> Do(s, a).txns[t] == s.txns[t])
    ensures forall p :: HoldsRow(s.txns[t], p) ==> HoldsRow(Do(s, a).txns[t], p)
    ensures forall u :: HoldsToken(s.txns[t], u) ==> HoldsToken(Do(s, a).txns[t], u)
    ensures forall p :: p in Targets(s.txns[t]) && HoldsRow(s.txns[o], p) ==> p in Targets(Do(s, a).txns[t])
  {
    if ShortPoll(s, t) {
      ShortPollIsStuck(s, a, t, o);
      OthersStay(s, a, t);
    } else if ActsOn(a, t) {
      WaitingDeleteActs(s, a, t, o);
      PassedTakesOneRow(s.txns[t], a.device, a.device in s.rows);
    } else {
      OthersStay(s, a, t);
    }
  }

  lemma WaitStays(s: State, a: Action, t: nat, o: nat, x: nat)
    requires LocksSound(s) && Enabled(s, a) && WaitsFor(s, t, o) && WaitsFor(s, o, x)
    requires (ShortPoll(s, t) || MultiDelete(s, t)) && (ShortPoll(s, o) || MultiDelete(s, o))
    requires a != Abort(t) && a != Abort(o)
    ensures WaitsFor(Do(s, a), t, o)
  {
    WaiterStays(s, a, o, x);
    WaiterStays(s, a, t, o);
    if MultiDelete(s, t) {
      var p :| p in Targets(s.txns[t]) && HoldsRow(s.txns[o], p);
      assert p in Targets(Do(s, a).txns[t]) && HoldsRow(Do(s, a).txns[o], p);
    }
  }

  lemma WaitsIsEdge(s: State, t: nat, o: nat)
    ensures WaitsFor(s, t, o) <==> (t, o) in Waits(s)
  {
  }

  lemma RingEdgeStays(s: State, a: Action, ring: seq<nat>, i: nat)
    requires LocksSound(s) && Enabled(s, a) && Ring(Waits(s), ring) && i < |ring|
    requires a.Abort? ==> a.txn !in ring
    ensures WaitsFor(Do(s, a), ring[i], ring[Next(i, |ring|)])
  {
    var j := Next(i, |ring|);
    RingMember(s, ring, i);
    RingMember(s, ring, j);
    WaitStays(s, a, ring[i], ring[j], ring[Next(j, |ring|)]);
  }

  lemma StepKeepsRing(s: State, a: Action, ring: seq<nat>)
    requires LocksSound(s) && Enabled(s, a) && Ring(Waits(s), ring)
    requires a.Abort? ==> a.txn !in ring
    ensures Ring(Waits(Do(s, a)), ring)
  {
    forall i {:trigger ring[i]} | 0 <= i < |ring| ensures (ring[i], ring[Next(i, |ring|)]) in Waits(Do(s, a)) {
      RingEdgeStays(s, a, ring, i);
      WaitsIsEdge(Do(s, a), ring[i], ring[Next(i, |ring|)]);
    }
  }

  /** Nothing that happens later in a run resolves a ring of waits, short of aborting one of its members. */
  lemma {:induction false} RingStays(states: seq<State>, actions: seq<Action>, i: nat, j: nat, ring: seq<nat>)
    requires IsRun(states, actions) && Quiet(states[0]) && i <= j <= |actions| && Ring(Waits(states[i]), ring)
    requires forall k :: i <= k < j && actions[k].Abort? ==> actions[k].txn !in ring
    ensures Ring(Waits(states[j]), ring)
    decreases j
  {
    if i < j {
      RingStays(states, actions, i, j - 1, ring);
      RunsKeepTokens(states, actions, j - 1);
      StepKeepsRing(states[j - 1], actions[j - 1], ring);
      assert states[j] == Do(states[j - 1], actions[j - 1]);
    }
  }

  // ---------------------------------------------------------------- what a ring of deletes takes

  /** A revocation's rows are its own user's and only it has the user's key, so whatever it stands behind
      is a purge that has deleted one of its rows. */
  lemma RevocationIsBehindPurge(s: State, t: nat, o: nat)
    requires LocksSound(s) && Behind(s, t, o) && s.txns[t].Revoke?
    ensures s.txns[o].Purge?
  {
    assert DeleteSound(s, s.txns[t]) && DeleteSound(s, s.txns[o]);
    var p :| p in Targets(s.txns[t]) && (p in Doomed(s.txns[o]) || HeldByPollShortOf(s, p, s.txns[o]));
    if s.txns[o].Revoke? {
      if p !in Doomed(s.txns[o]) {
        var poll :| ShortPoll(s, poll) && s.txns[poll].device == p && s.txns[poll].redeem.row.user.Some?
          && HoldsToken(s.txns[o], s.txns[poll].redeem.row.user.value);
        assert RedeemSound(s, s.txns[poll]);
      }
      assert s.txns[o].user == s.txns[t].user;
      assert Apart(s.txns[t], s.txns[o]);
      assert HoldsKey(s.txns[t], s.txns[t].user) && HoldsKey(s.txns[o], s.txns[t].user);
    }
  }

  lemma PurgeBetween(s: State, t: nat, purge: nat, o: nat) returns (p: nat, q: nat)
    requires LocksSound(s) && Behind(s, t, purge) && Behind(s, purge, o) && s.txns[purge].Purge?
    ensures p in s.txns[purge].purged && q in s.txns[purge].expired && p != q
    ensures p in s.rows && s.rows[p].expires <= s.now
  {
    assert DeleteSound(s, s.txns[purge]);
    assert forall x :: !HeldByPollShortOf(s, x, s.txns[purge]);
    p :| p in Targets(s.txns[t]) && (p in Doomed(s.txns[purge]) || HeldByPollShortOf(s, p, s.txns[purge]));
    q :| q in Targets(s.txns[purge]);
  }

  lemma PurgeInRing(s: State, ring: seq<nat>) returns (t: nat, purge: nat, o: nat)
    requires LocksSound(s) && Ring(Queue(s), ring)
    ensures purge in ring && Behind(s, t, purge) && Behind(s, purge, o) && s.txns[purge].Purge?
  {
    var n := |ring|;
    var i1 := Next(0, n);
    assert (ring[0], ring[i1]) in Queue(s) && (ring[i1], ring[Next(i1, n)]) in Queue(s);
    if s.txns[ring[0]].Purge? {
      assert Next(n - 1, n) == 0 && (ring[n - 1], ring[0]) in Queue(s);
      return ring[n - 1], ring[0], ring[i1];
    }
    RevocationIsBehindPurge(s, ring[0], ring[i1]);
    return ring[0], ring[i1], ring[Next(i1, n)];
  }

  /** A ring of deletes has a purge in its middle: it found at least two expired rows, has deleted one and
      still wants another. While no purge has found two, only a crossed pair can deadlock. */
  lemma QueueNeedsTwoExpired(s: State, ring: seq<nat>) returns (purge: nat, p: nat, q: nat)
    requires LocksSound(s) && Ring(Queue(s), ring)
    ensures purge in ring && s.txns[purge].Purge? && p in s.txns[purge].purged && q in s.txns[purge].expired
    ensures p != q && p in s.rows && s.rows[p].expires <= s.now
  {
    var t, o;
    t, purge, o := PurgeInRing(s, ring);
    p, q := PurgeBetween(s, t, purge, o);
  }

  /** A purge that has deleted a row and still wants another. */
  predicate Midway(t: Txn) {
    t.Purge? && t.purged != {} && t.expired != {}
  }

  lemma NoQueueWithoutPurge(s: State, ring: seq<nat>)
    requires LocksSound(s) && forall t :: t in s.txns ==> !Midway(s.txns[t])
    ensures !Ring(Queue(s), ring)
  {
    if Ring(Queue(s), ring) {
      var t, purge, o := PurgeInRing(s, ring);
      var p, q := PurgeBetween(s, t, purge, o);
      assert Midway(s.txns[purge]);
    }
  }

  /** Over runs: while no purge is midway through several rows, the transactions are deadlocked exactly when a
      poll and a revocation are crossed. */
  lemma OnlyCrossedWithoutPurges(states: seq<State>, actions: seq<Action>, i: nat)
    requires IsRun(states, actions) && Quiet(states[0]) && i <= |actions|
    requires forall t :: t in states[i].txns ==> !Midway(states[i].txns[t])
    ensures (exists ring :: Ring(Waits(states[i]), ring)) <==> exists poll, revoke :: CrossedPair(states[i], poll, revoke)
  {
    DeadlockedExactly(states, actions, i);
    RunsKeepTokens(states, actions, i);
    forall ring ensures !Ring(Queue(states[i]), ring) {
      NoQueueWithoutPurge(states[i], ring);
    }
  }

  // ---------------------------------------------------------------- what a crossed pair takes

  lemma LookupIsFirst(s: State, a: Action, poll: nat)
    requires Enabled(s, a) && ShortPoll(Do(s, a), poll)
    ensures if a == GetToken(poll) then
              Do(s, a).txns[poll].redeem.row.user.Some? && Do(s, a).txns[poll].redeem.row.user.value !in s.tokens
            else ShortPoll(s, poll) && s.txns[poll] == Do(s, a).txns[poll]
  {
  }

  /** The step at which a short poll looked for the token, and did not find it. */
  lemma {:induction false} ShortSince(states: seq<State>, actions: seq<Action>, i: nat, poll: nat) returns (g: nat)
    requires IsRun(states, actions) && Quiet(states[0]) && i <= |actions| && ShortPoll(states[i], poll)
    ensures g < i && actions[g] == GetToken(poll)
    ensures states[i].txns[poll].redeem.row.user.Some?
    ensures states[i].txns[poll].redeem.row.user.value !in states[g].tokens
    ensures forall j :: g < j <= i ==> ShortPoll(states[j], poll) && states[j].txns[poll] == states[i].txns[poll]
  {
    LookupIsFirst(states[i - 1], actions[i - 1], poll);
    g := i - 1;
    if actions[i - 1] != GetToken(poll) {
      g := ShortSince(states, actions, i - 1, poll);
    }
  }

  lemma {:induction false} TokenCameBetween(states: seq<State>, actions: seq<Action>, g: nat, d: nat, u: nat) returns (k: nat)
    requires IsRun(states, actions) && g < d <= |actions|
    requires u !in states[g].tokens && u in states[d].tokens
    ensures g <= k < d && u !in states[k].tokens && u in states[k + 1].tokens
    decreases d
  {
    k := d - 1;
    if u in states[k].tokens {
      k := TokenCameBetween(states, actions, g, d - 1, u);
    }
  }

  lemma LookupLeavesTokens(states: seq<State>, actions: seq<Action>, g: nat, poll: nat)
    requires IsRun(states, actions) && g < |actions| && actions[g] == GetToken(poll)
    ensures states[g + 1].tokens == states[g].tokens
  {
    assert states[g + 1] == Do(states[g], GetToken(poll));
  }

  lemma HeldTokenIsThere(s: State, revoke: nat)
    requires HeldTokensSound(s) && PastTokenDelete(s, revoke) && s.txns[revoke].revoke.had
    ensures s.txns[revoke].user in s.tokens
  {
    assert HeldTokenSound(s, s.txns[revoke]);
    assert HoldsToken(s.txns[revoke], s.txns[revoke].user);
  }

  lemma CrossedUser(s: State, poll: nat, revoke: nat)
    requires LocksSound(s) && CrossedPair(s, poll, revoke)
    ensures s.txns[poll].redeem.row.user == Some(s.txns[revoke].user)
  {
    assert RedeemSound(s, s.txns[poll]) && DeleteSound(s, s.txns[revoke]);
    assert s.txns[poll].device in Targets(s.txns[revoke]);
  }

  /** A poll that looks after a revocation deleted the token still finds it: the delete is uncommitted. */
  lemma LookupAfterDeleteFinds(states: seq<State>, actions: seq<Action>, g: nat, d: nat, revoke: nat)
    requires IsRun(states, actions) && Quiet(states[0]) && d < g < |actions| && actions[d] == DeleteTokens(revoke)
    requires PastTokenDelete(states[g], revoke) && states[g].txns[revoke].revoke.had
    ensures states[g].txns[revoke].user in states[g].tokens
  {
    RunsHoldTokens(states, actions, g);
    HeldTokenIsThere(states[g], revoke);
  }

  /** A crossed pair takes a token of that user committed after the poll looked for one and before the
      revocation's token delete. */
  lemma CrossedNeedsTokenBetween(states: seq<State>, actions: seq<Action>, i: nat, poll: nat, revoke: nat)
    returns (g: nat, k: nat, d: nat)
    requires IsRun(states, actions) && Quiet(states[0]) && i <= |actions| && CrossedPair(states[i], poll, revoke)
    ensures g < k < d < i && actions[g] == GetToken(poll) && actions[d] == DeleteTokens(revoke)
    ensures states[i].txns[revoke].user !in states[k].tokens && states[i].txns[revoke].user in states[k + 1].tokens
  {
    var u := states[i].txns[revoke].user;
    CrossedFoundAndLost(states, actions, i, poll, revoke);
    g := ShortSince(states, actions, i, poll);
    d := DeletedSince(states, actions, i, revoke);
    if d < g {
      LookupAfterDeleteFinds(states, actions, g, d, revoke);
    }
    LookupLeavesTokens(states, actions, g, poll);
    k := TokenCameBetween(states, actions, g + 1, d, u);
  }

  lemma CrossedFoundAndLost(states: seq<State>, actions: seq<Action>, i: nat, poll: nat, revoke: nat)
    requires IsRun(states, actions) && Quiet(states[0]) && i <= |actions| && CrossedPair(states[i], poll, revoke)
    ensures states[i].txns[poll].redeem.row.user == Some(states[i].txns[revoke].user)
    ensures PastTokenDelete(states[i], revoke) && states[i].txns[revoke].revoke.had
  {
    RunsKeepTokens(states, actions, i);
    CrossedUser(states[i], poll, revoke);
  }

  /** A short poll and a revocation of its user that is deleting pairings are crossed exactly when the user
      had a token at the revocation's token delete and the pairing was approved before its pairing delete. */
  lemma CrossedExactly(states: seq<State>, actions: seq<Action>, i: nat, poll: nat, revoke: nat) returns (d: nat)
    requires IsRun(states, actions) && Quiet(states[0]) && i <= |actions|
    requires ShortPoll(states[i], poll) && DeletingRevoke(states[i], revoke)
    requires states[i].txns[poll].redeem.row.user == Some(states[i].txns[revoke].user)
    ensures d < i && actions[d] == DeleteTokens(revoke)
    ensures CrossedPair(states[i], poll, revoke) <==>
              && states[i].txns[revoke].user in states[d].tokens
              && states[i].txns[poll].device in states[i].txns[revoke].revoke.covered
  {
    RunsKeepTokens(states, actions, i);
    d := DeletedSince(states, actions, i, revoke);
    var s := states[i];
    assert CoverSound(s, s.txns[revoke]) && RedeemSound(s, s.txns[poll]);
    assert Apart(s.txns[poll], s.txns[revoke]);
    assert HoldsRow(s.txns[poll], s.txns[poll].device);
  }

  // ---------------------------------------------------------------- both happen

  const LOGGED_IN: map<nat, nat> := map[5 := 99]

  lemma LoginAfterPoll()
    ensures Reachable(Scene(LOGGED_IN, {99}, {10, 20}, map[10 := POLL, 20 := Revoke(5, None, HasKey)]))
  {
    PollFoundNoToken();
    Then(Scene(map[], {}, {10}, map[10 := POLL]), Login(5, 99), Scene(LOGGED_IN, {99}, {10}, map[10 := POLL]));
    RevocationEnters(LOGGED_IN, {99});
  }

  lemma TokenDeletedAfterLogin()
    ensures Reachable(Scene(LOGGED_IN, {99}, {10, 20}, map[10 := POLL, 20 := Revoke(5, None, TokensDeleted(true))]))
  {
    LoginAfterPoll();
    Then(Scene(LOGGED_IN, {99}, {10, 20}, map[10 := POLL, 20 := Revoke(5, None, HasKey)]), DeleteTokens(20),
         Scene(LOGGED_IN, {99}, {10, 20}, map[10 := POLL, 20 := Revoke(5, None, TokensDeleted(true))]));
  }

  /** A crossed pair is reachable: the user gets a token by logging in after the poll looked. */
  lemma CrossedPairHappens() returns (s: State)
    ensures Reachable(s) && CrossedPair(s, 10, 20)
  {
    TokenDeletedAfterLogin();
    var s1 := Scene(LOGGED_IN, {99}, {10, 20}, map[10 := POLL, 20 := Revoke(5, None, TokensDeleted(true))]);
    SnapshotOfScene(s1);
    s := Do(s1, StartPairingDelete(20));
    Then(s1, StartPairingDelete(20), s);
  }

  const OLD: Row := Row(7, Approved, Some(5), 600)
  const OLDER: Row := Row(8, Approved, Some(5), 600)

  /** User 5 has two approved pairings, both past their expiry. */
  function Expiring(used: set<nat>, txns: map<nat, Txn>, log: seq<Event>): State {
    State(600, map[1 := OLD, 2 := OLDER], map[], {1, 2}, {}, used, txns, map[], log)
  }

  const APPROVALS := [WasApproved(1, 5), WasApproved(2, 5)]

  lemma TwoExpire()
    ensures Reachable(Expiring({}, map[], APPROVALS))
  {
    var s1 := Scene(map[], {}, {}, map[]);
    var s2 := s1.(rows := map[1 := OLD, 2 := Row(8, Pending, None, 600)], issued := {1, 2});
    var s3 := s1.(rows := map[1 := OLD, 2 := OLDER], issued := {1, 2}, log := APPROVALS);
    ApprovedScene();
    ThenTwo(s1, Create(2, 8, 600), s2, Approve(2, 5), s3);
    Then(s3, Tick(600), Expiring({}, map[], APPROVALS));
  }

  lemma PurgeTakesOne()
    ensures Reachable(Expiring({30}, map[30 := Purge({2}, {1})], APPROVALS))
  {
    TwoExpire();
    var s := Expiring({}, map[], APPROVALS);
    assert Expired(s.rows, 600) == {1, 2};
    assert {1, 2} - {1} == {2} && {} + {1} == {1};
    ThenTwo(s, BeginPurge(30, 600), Expiring({30}, map[30 := Purge({1, 2}, {})], APPROVALS),
            DeletePairing(30, 1), Expiring({30}, map[30 := Purge({2}, {1})], APPROVALS));
  }

  function PurgeAndRevoke(st: RevokeStage, log: seq<Event>): State {
    Expiring({20, 30}, map[20 := Revoke(5, None, st), 30 := Purge({2}, {1})], log)
  }

  lemma RevocationFollows()
    ensures Reachable(PurgeAndRevoke(WantsKey, APPROVALS))
  {
    PurgeTakesOne();
    Then(Expiring({30}, map[30 := Purge({2}, {1})], APPROVALS), BeginRevoke(20, 5, None), PurgeAndRevoke(WantsKey, APPROVALS));
  }

  lemma RevocationHasKey()
    ensures Reachable(PurgeAndRevoke(HasKey, APPROVALS))
  {
    RevocationFollows();
    Then(PurgeAndRevoke(WantsKey, APPROVALS), TakeKey(20), PurgeAndRevoke(HasKey, APPROVALS));
  }

  lemma RevocationFindsNoToken()
    ensures Reachable(PurgeAndRevoke(TokensDeleted(false), APPROVALS))
  {
    RevocationHasKey();
    Then(PurgeAndRevoke(HasKey, APPROVALS), DeleteTokens(20), PurgeAndRevoke(TokensDeleted(false), APPROVALS));
  }

  lemma RevocationStartsPairings()
    ensures Reachable(PurgeAndRevoke(Deleting(false, {1, 2}, {1, 2}, {}), APPROVALS + [PairingDeleteStarted(20, 5)]))
  {
    RevocationFindsNoToken();
    var s := PurgeAndRevoke(TokensDeleted(false), APPROVALS);
    SnapshotOfBoth(s);
    Then(s, StartPairingDelete(20),
         PurgeAndRevoke(Deleting(false, {1, 2}, {1, 2}, {}), APPROVALS + [PairingDeleteStarted(20, 5)]));
  }

  lemma SnapshotOfBoth(s: State)
    requires s.log == APPROVALS && s.rows == map[1 := OLD, 2 := OLDER]
    ensures ApprovedFor(s.log, 5) == {1, 2} == OwnedBy(s.rows, 5)
  {
    assert s.log[0].device in ApprovedFor(s.log, 5) && s.log[1].device in ApprovedFor(s.log, 5);
  }

  /** A purge and a revocation can deadlock with no poll at all: both delete user 5's two expired pairings,
      in opposite orders. */
  lemma PurgeRingHappens() returns (s: State)
    ensures Reachable(s) && Ring(Queue(s), [20, 30])
    ensures forall poll, revoke :: !CrossedPair(s, poll, revoke)
  {
    RevocationStartsPairings();
    var log := APPROVALS + [PairingDeleteStarted(20, 5)];
    var s2 := PurgeAndRevoke(Deleting(false, {1, 2}, {1, 2}, {}), log);
    s := PurgeAndRevoke(Deleting(false, {1, 2}, {1}, {2}), log);
    assert {1, 2} - {2} == {1} && {} + {2} == {2};
    Then(s2, DeletePairing(20, 2), s);
    assert Behind(s, 20, 30) by {
      assert 1 in Targets(s.txns[20]) && 1 in Doomed(s.txns[30]);
    }
    assert Behind(s, 30, 20) by {
      assert 2 in Targets(s.txns[30]) && 2 in Doomed(s.txns[20]);
    }
  }
}
