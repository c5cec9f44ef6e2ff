/** Single-use ceremony challenges: rows consumed under FOR UPDATE in their own transaction, before
    anything is verified, by any number of interleaved requests. */
module Challenges {
  import opened Options

  datatype Purpose = Login | Register | Signup | Recover

  datatype Row = Row(purpose: Purpose, user: Option<nat>, expires: int)

  /** A finish request: waiting for the row, holding it, or past the committed delete with the row in
      hand. The clock is read before the select. */
  datatype Stage = Waiting | Holding(held: Row) | Burned(burned: Row)

  datatype Request = Request(id: string, purpose: Purpose, user: Option<nat>, at: int, stage: Stage)

  datatype Event =
    | WasBurned(id: string)
    | Succeeded(id: string, purpose: Purpose, user: Option<nat>, at: int)

  datatype State = State(
    now: int,
    rows: map<string, Row>,
    created: map<string, Row>,     // every challenge ever created
    requests: map<nat, Request>,
    log: seq<Event>)

  datatype Action =
    | Tick(seconds: nat)
    | Create(id: string, purpose: Purpose, user: Option<nat>, ttl: nat)
    | Purge(id: string)
    | Arrive(request: nat, id: string, purpose: Purpose, user: Option<nat>)
    | Select(request: nat)
    | Commit(request: nat)
    | Succeed(request: nat)
    | Fail(request: nat)

  predicate HoldsRow(r: Request, id: string) {
    r.stage.Holding? && r.id == id
  }

  predicate RowFree(s: State, id: string) {
    forall o :: o in s.requests ==> !HoldsRow(s.requests[o], id)
  }

  predicate Enabled(s: State, a: Action) {
    match a
    case Tick(_) => true
    case Create(id, _, _, _) => id !in s.created
    case Purge(id) => id in s.rows && s.rows[id].expires <= s.now && RowFree(s, id)
    case Arrive(r, _, _, _) => r !in s.requests
    case Select(r) =>
      && r in s.requests && s.requests[r].stage.Waiting? && RowFree(s, s.requests[r].id)
      && s.requests[r].id in s.rows && s.rows[s.requests[r].id].purpose == s.requests[r].purpose
      && s.rows[s.requests[r].id].expires > s.requests[r].at
    case Commit(r) => r in s.requests && s.requests[r].stage.Holding?
    // consume returns only if the row was issued to this user; verification then decides.
    case Succeed(r) => r in s.requests && s.requests[r].stage.Burned? && s.requests[r].stage.burned.user == s.requests[r].user
    case Fail(r) => r in s.requests
  }

  function Do(s: State, a: Action): State
    requires Enabled(s, a)
  {
    match a
    case Tick(seconds) => s.(now := s.now + seconds)
    case Create(id, purpose, user, ttl) =>
      var row := Row(purpose, user, s.now + ttl);
      s.(rows := s.rows[id := row], created := s.created[id := row])
    case Purge(id) => s.(rows := s.rows - {id})
    case Arrive(r, id, purpose, user) => s.(requests := s.requests[r := Request(id, purpose, user, s.now, Waiting)])
    case Select(r) =>
      s.(requests := s.requests[r := s.requests[r].(stage := Holding(s.rows[s.requests[r].id]))])
    case Commit(r) =>
      var q := s.requests[r];
      s.(rows := s.rows - {q.id}, requests := s.requests[r := q.(stage := Burned(q.stage.held))], log := s.log + [WasBurned(q.id)])
    case Succeed(r) =>
      var q := s.requests[r];
      s.(requests := s.requests - {r}, log := s.log + [Succeeded(q.id, q.purpose, q.user, q.at)])
    case Fail(r) => s.(requests := s.requests - {r})
  }

  ghost predicate IsRun(states: seq<State>, actions: seq<Action>) {
    && |states| == |actions| + 1
    && forall i {:trigger actions[i]} :: 0 <= i < |actions| ==> Enabled(states[i], actions[i]) && states[i + 1] == Do(states[i], actions[i])
  }

  predicate Quiet(s: State) {
    s.rows == map[] && s.created == map[] && s.requests == map[] && s.log == []
  }

  // ---------------------------------------------------------------- what every step keeps

  ghost predicate RequestSound(s: State, r: Request) {
    match r.stage
    case Waiting => true
    case Holding(row) => r.id in s.rows && s.rows[r.id] == row && row.purpose == r.purpose && row.expires > r.at
    case Burned(row) =>
      && r.id in s.created && s.created[r.id] == row && row.purpose == r.purpose && row.expires > r.at
      && r.id !in s.rows
  }

  /** A held or burned challenge is in one request's hands. */
  ghost predicate OneConsumer(s: State) {
    forall r, o :: r in s.requests && o in s.requests && r != o && !s.requests[r].stage.Waiting? && !s.requests[o].stage.Waiting? ==>
      s.requests[r].id != s.requests[o].id
  }

  /** Each challenge is burned at most once, each success has its own burned challenge, and that
      challenge is no longer in any request's hands. */
  ghost predicate LogSound(s: State) {
    && (forall i, j :: 0 <= i < j < |s.log| && s.log[i].WasBurned? && s.log[j].WasBurned? ==> s.log[i].id != s.log[j].id)
    && (forall i, j :: 0 <= i < j < |s.log| && s.log[i].Succeeded? && s.log[j].Succeeded? ==> s.log[i].id != s.log[j].id)
    && (forall e :: e in s.log && e.WasBurned? ==> e.id in s.created && e.id !in s.rows)
    && (forall e :: e in s.log && e.Succeeded? ==>
          && e.id in s.created && e.id !in s.rows && s.created[e.id].purpose == e.purpose && s.created[e.id].user == e.user
          && e.at < s.created[e.id].expires
          && forall r :: r in s.requests && !s.requests[r].stage.Waiting? ==> s.requests[r].id != e.id)
    && (forall r :: r in s.requests && s.requests[r].stage.Burned? ==> WasBurned(s.requests[r].id) in s.log)
  }

  ghost predicate Sound(s: State) {
    && (forall id :: id in s.rows ==> id in s.created && s.rows[id] == s.created[id])
    && (forall r :: r in s.requests ==> RequestSound(s, s.requests[r]))
    && OneConsumer(s) && LogSound(s)
  }

  lemma StepKeepsRows(s: State, a: Action)
    requires Sound(s) && Enabled(s, a)
    ensures var s' := Do(s, a);
            && (forall id :: id in s'.rows ==> id in s'.created && s'.rows[id] == s'.created[id])
            && OneConsumer(s')
            && forall r :: r in s'.requests ==> RequestSound(s', s'.requests[r])
  {
    var s' := Do(s, a);
    forall r | r in s'.requests ensures RequestSound(s', s'.requests[r]) {
      if r in s.requests {
        assert RequestSound(s, s.requests[r]);
        assert s.requests[r].stage.Holding? ==> HoldsRow(s.requests[r], s.requests[r].id);
      }
    }
    if a.Select? {
      forall o | o in s.requests && o != a.request && !s.requests[o].stage.Waiting?
        ensures s.requests[o].id != s.requests[a.request].id
      {
        assert RequestSound(s, s.requests[o]);
        assert s.requests[o].stage.Holding? ==> HoldsRow(s.requests[o], s.requests[o].id);
      }
    }
  }

  lemma CommitKeepsLog(s: State, r: nat)
    requires Sound(s) && Enabled(s, Commit(r))
    ensures LogSound(Do(s, Commit(r)))
  {
    assert RequestSound(s, s.requests[r]);
  }

  lemma SucceedKeepsLog(s: State, r: nat)
    requires Sound(s) && Enabled(s, Succeed(r))
    ensures LogSound(Do(s, Succeed(r)))
  {
    assert RequestSound(s, s.requests[r]);
  }

  lemma StepKeepsLog(s: State, a: Action)
    requires Sound(s) && Enabled(s, a)
    ensures LogSound(Do(s, a))
  {
    if a.Commit? {
      CommitKeepsLog(s, a.request);
    } else if a.Succeed? {
      SucceedKeepsLog(s, a.request);
    }
  }

  lemma {:induction false} RunsAreSound(states: seq<State>, actions: seq<Action>, i: nat)
    requires IsRun(states, actions) && Quiet(states[0]) && i <= |actions|
    ensures Sound(states[i])
  {
    if i > 0 {
      RunsAreSound(states, actions, i - 1);
      StepKeepsRows(states[i - 1], actions[i - 1]);
      StepKeepsLog(states[i - 1], actions[i - 1]);
    }
  }

  /** Successful ceremonies map one-to-one to challenges created for the same purpose and user and not
      yet expired when the request read the clock. */
  lemma SuccessesAreSingleUse(states: seq<State>, actions: seq<Action>, i: nat)
    requires IsRun(states, actions) && Quiet(states[0]) && i <= |actions|
    ensures forall e :: e in states[i].log && e.Succeeded? ==>
              && e.id in states[i].created && e.at < states[i].created[e.id].expires
              && states[i].created[e.id].purpose == e.purpose && states[i].created[e.id].user == e.user
    ensures forall j, k :: 0 <= j < k < |states[i].log| && states[i].log[j].Succeeded? && states[i].log[k].Succeeded? ==>
              states[i].log[j].id != states[i].log[k].id
  {
    RunsAreSound(states, actions, i);
  }

  /** No challenge is consumed twice, whatever becomes of the ceremonies. */
  lemma NoChallengeBurnedTwice(states: seq<State>, actions: seq<Action>, i: nat, j: nat, k: nat)
    requires IsRun(states, actions) && Quiet(states[0]) && i <= |actions|
    requires j < |states[i].log| && k < |states[i].log| && states[i].log[j].WasBurned?
    requires states[i].log[k] == states[i].log[j]
    ensures j == k
  {
    RunsAreSound(states, actions, i);
  }

  /** A request that finds nobody in its way selects exactly a live challenge of its purpose, its commit removes
      that row and no other, and it can then succeed exactly if the challenge was issued to its user. */
  lemma ConsumeMatchesRun(s: State, r: nat, id: string, purpose: Purpose, user: Option<nat>)
    requires s.requests == map[]
    ensures var s1 := Do(s, Arrive(r, id, purpose, user));
            && (Enabled(s1, Select(r)) <==> id in s.rows && s.rows[id].purpose == purpose && s.rows[id].expires > s.now)
            && (Enabled(s1, Select(r)) ==>
                  var s2 := Do(s1, Select(r));
                  && Enabled(s2, Commit(r)) && s2.rows == s.rows && Do(s2, Commit(r)).rows == s.rows - {id}
                  && (Enabled(Do(s2, Commit(r)), Succeed(r)) <==> s.rows[id].user == user))
  {
  }

  /** Creating stores exactly the new row; purging takes only an expired one. */
  lemma CreateMatchesRun(s: State, id: string, purpose: Purpose, user: Option<nat>, ttl: nat)
    ensures Enabled(s, Create(id, purpose, user, ttl)) <==> id !in s.created
    ensures id !in s.created ==> Do(s, Create(id, purpose, user, ttl)).rows == s.rows[id := Row(purpose, user, s.now + ttl)]
    ensures Enabled(s, Purge(id)) ==> id in s.rows && s.rows[id].expires <= s.now && Do(s, Purge(id)).rows == s.rows - {id}
  {
  }

  // ---------------------------------------------------------------- one caller at a time

  class ChallengeTable {
    var rows: map<string, Row>

    constructor ()
      ensures rows == map[]
    {
      rows := map[];
    }

    /** Purge the expired, then insert under a new random id. */
    method Create(id: string, purpose: Purpose, user: Option<nat>, now: int, ttl: nat)
      requires id !in rows
      modifies this
      ensures rows == (map k | k in old(rows) && old(rows)[k].expires > now :: old(rows)[k])[id := Row(purpose, user, now + ttl)]
    {
      rows := map k | k in rows && rows[k].expires > now :: rows[k];
      rows := rows[id := Row(purpose, user, now + ttl)];
    }

    /** A live challenge of this purpose is gone afterwards even when it was issued to someone else,
        which raises; an unknown or expired id, or another purpose, raises and leaves the table alone. */
    method Consume(id: string, purpose: Purpose, user: Option<nat>, now: int) returns (r: Option<Row>)
      modifies this
      ensures var live := id in old(rows) && old(rows)[id].purpose == purpose && old(rows)[id].expires > now;
              && rows == (if live then old(rows) - {id} else old(rows))
              && r == (if live && old(rows)[id].user == user then Some(old(rows)[id]) else None)
    {
      if id !in rows || rows[id].purpose != purpose || rows[id].expires <= now {
        return None;
      }
      var row := rows[id];
      rows := rows - {id};
      if row.user != user {
        return None;
      }
      return Some(row);
    }
  }
}
