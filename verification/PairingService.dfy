/** desktop_pairing's functions as one caller at a time runs them, over a mutable table. */
module PairingService {
  import opened Options
  import opened Pairings

  const MAX_CODE_ATTEMPTS: nat := 5

  datatype Answer = StillPending | ToldDenied | ToldApproved(key: nat, user: nat)

  function Live(rows: map<nat, Row>, now: int): map<nat, Row> {
    map p | p in rows && rows[p].expires > now :: rows[p]
  }

  /** An unexpired pairing has this code. */
  predicate CodeShown(rows: map<nat, Row>, code: nat, now: int) {
    exists p :: p in rows && rows[p].expires > now && rows[p].code == code
  }

  lemma ShownIsLive(rows: map<nat, Row>, code: nat, now: int)
    ensures CodeShown(rows, code, now) ==> exists p :: p in Live(rows, now) && Live(rows, now)[p].code == code
  {
    if p :| p in rows && rows[p].expires > now && rows[p].code == code {
      assert p in Live(rows, now);
    }
  }

  /** What a poll is told, and what it leaves behind. */
  function Poll(rows: map<nat, Row>, tokens: map<nat, nat>, p: nat, now: int, newKey: nat):
    (Result<Answer, ()>, map<nat, Row>, map<nat, nat>)
  {
    if p !in rows || rows[p].expires <= now then (Err(()), rows, tokens)
    else match rows[p].status
      case Pending => (Ok(StillPending), rows, tokens)
      case Denied => (Ok(ToldDenied), rows - {p}, tokens)
      case Approved =>
        if rows[p].user.None? then (Err(()), rows, tokens)
        else
          var u := rows[p].user.value;
          if u in tokens then (Ok(ToldApproved(tokens[u], u)), rows - {p}, tokens)
          else (Ok(ToldApproved(newKey, u)), rows - {p}, tokens[u := newKey])
  }

  class PairingTable {
    var rows: map<nat, Row>
    var tokens: map<nat, nat>

    /** Live user codes name one pairing each, and decided rows are well formed. */
    ghost predicate Valid()
      reads this
    {
      && (forall p, q :: p in rows && q in rows && rows[p].code == rows[q].code ==> p == q)
      && (forall p :: p in rows ==> (rows[p].status.Approved? <==> rows[p].user.Some?))
    }

    constructor ()
      ensures Valid() && rows == map[] && tokens == map[]
    {
      rows, tokens := map[], map[];
    }

    /** Purge, then insert under the first drawn code that no live row has, within five draws. */
    method Begin(device: nat, draws: seq<nat>, now: int, ttl: nat) returns (r: Result<Row, ()>)
      requires Valid() && |draws| == MAX_CODE_ATTEMPTS
      modifies this`rows
      ensures Valid()
      ensures forall p :: p in rows && (r.Err? || p != device) ==> p in old(rows) && rows[p] == old(rows)[p]
      ensures forall p :: p in old(rows) && (r.Err? || p != device) ==> (p in rows <==> old(rows)[p].expires > now)
      ensures r.Ok? ==> device in rows && rows[device] == r.value
                        && r.value.status == Pending && r.value.user == None && r.value.expires == now + ttl
      ensures r.Ok? <==> !(device in old(rows) && old(rows)[device].expires > now)
                         && exists k :: 0 <= k < 5 && !CodeShown(old(rows), draws[k], now)
      ensures r.Ok? ==> exists k :: 0 <= k < 5 && r.value.code == draws[k] && !CodeShown(old(rows), draws[k], now)
                          && forall j :: 0 <= j < k ==> CodeShown(old(rows), draws[j], now)
    {
      rows := Live(rows, now);
      var attempt := 0;
      while attempt < MAX_CODE_ATTEMPTS
        invariant 0 <= attempt <= MAX_CODE_ATTEMPTS && rows == Live(old(rows), now) && Valid()
        invariant device in rows || forall j :: 0 <= j < attempt ==> CodeShown(old(rows), draws[j], now)
      {
        var code := draws[attempt];
        if device !in rows && (forall p :: p in rows ==> rows[p].code != code) {
          ShownIsLive(old(rows), code, now);
          var row := Row(code, Pending, None, now + ttl);
          rows := rows[device := row];
          return Ok(row);
        }
        attempt := attempt + 1;
      }
      return Err(());
    }

    /** The live, undecided pairing shown under this code, if any; there is at most one. */
    method FindPending(code: nat, now: int) returns (r: Option<nat>)
      requires Valid()
      ensures r == None <==> forall p :: p in rows ==> !(rows[p].code == code && rows[p].status.Pending? && rows[p].expires > now)
      ensures r.Some? ==> r.value in rows && rows[r.value].code == code && rows[r.value].status.Pending? && rows[r.value].expires > now
      ensures r.Some? ==> forall p :: p in rows && rows[p].code == code ==> p == r.value
    {
      if p :| p in rows && rows[p].code == code && rows[p].status.Pending? && rows[p].expires > now {
        return Some(p);
      }
      return None;
    }

    method Approve(p: nat, u: nat) returns (applied: bool)
      requires Valid()
      modifies this`rows
      ensures Valid() && rows == Decided(old(rows), p, Approved, Some(u))
      ensures applied <==> p in old(rows) && old(rows)[p].status == Pending
      ensures rows == if applied then old(rows)[p := Row(old(rows)[p].code, Approved, Some(u), old(rows)[p].expires)] else old(rows)
    {
      applied := p in rows && rows[p].status.Pending?;
      if applied {
        rows := rows[p := rows[p].(status := Approved, user := Some(u))];
      }
    }

    method Deny(p: nat) returns (applied: bool)
      requires Valid()
      modifies this`rows
      ensures Valid() && rows == Decided(old(rows), p, Denied, None)
      ensures applied <==> p in old(rows) && old(rows)[p].status == Pending
      ensures rows == if applied then old(rows)[p := Row(old(rows)[p].code, Denied, None, old(rows)[p].expires)] else old(rows)
    {
      applied := p in rows && rows[p].status.Pending?;
      if applied {
        rows := rows[p := rows[p].(status := Denied)];
      }
    }

    /** `newKey` is the key a new token would get. */
    method Redeem(p: nat, now: int, newKey: nat) returns (r: Result<Answer, ()>)
      requires Valid()
      modifies this
      ensures Valid() && (r, rows, tokens) == Poll(old(rows), old(tokens), p, now, newKey)
      ensures p !in old(rows) || old(rows)[p].expires <= now ==> r.Err? && rows == old(rows) && tokens == old(tokens)
      ensures p in old(rows) && old(rows)[p].expires > now ==>
                match old(rows)[p].status
                case Pending => r == Ok(StillPending) && rows == old(rows) && tokens == old(tokens)
                case Denied => r == Ok(ToldDenied) && rows == old(rows) - {p} && tokens == old(tokens)
                case Approved =>
                  var u := old(rows)[p].user.value;
                  && u in tokens && r == Ok(ToldApproved(tokens[u], u)) && rows == old(rows) - {p}
                  && tokens == if u in old(tokens) then old(tokens) else old(tokens)[u := newKey]
    {
      if p !in rows || rows[p].expires <= now {
        return Err(());
      }
      var row := rows[p];
      if row.status.Pending? {
        return Ok(StillPending);
      }
      if row.status.Denied? {
        rows := rows - {p};
        return Ok(ToldDenied);
      }
      var u := row.user.value;
      rows := rows - {p};
      if u !in tokens {
        tokens := tokens[u := newKey];
      }
      return Ok(ToldApproved(tokens[u], u));
    }
  }

  /** The rest of a poll's statements, once it holds its row. */
  function FinishPoll(s: State, t: nat, newKey: nat): State {
    IfEnabled(IfEnabled(IfEnabled(s, GetToken(t)), InsertToken(t, newKey)), Commit(t))
  }

  function IfEnabled(s: State, a: Action): State {
    if Enabled(s, a) then Do(s, a) else s
  }

  /** A poll that has just been granted its row, alone. */
  predicate JustHeld(s: State, t: nat, p: nat, newKey: nat) {
    && p in s.rows && (s.rows[p].status.Approved? <==> s.rows[p].user.Some?)
    && s.rows[p].expires > s.now && newKey !in s.minted
    && s.txns == map[t := Redeem(p, s.now, Held(s.rows[p]))]
  }

  predicate Leaves(s: State, end: State, p: nat, newKey: nat) {
    var (answer, rows, tokens) := Poll(s.rows, s.tokens, p, s.now, newKey);
    && answer.Ok? && end.rows == rows && end.tokens == tokens
    && match answer.value
       case StillPending => end.log == s.log
       case ToldDenied => end.log == s.log + [AnsweredDenied(p)]
       case ToldApproved(key, u) => p in s.rows && end.log == s.log + [AnsweredApproved(p, u, key, s.now, s.rows[p].expires)]
  }

  lemma UndecidedOrDeniedPoll(s: State, t: nat, p: nat, newKey: nat)
    requires JustHeld(s, t, p, newKey) && !s.rows[p].status.Approved?
    ensures Leaves(s, FinishPoll(s, t, newKey), p, newKey)
  {
  }

  lemma KeyedPoll(s: State, t: nat, p: nat, newKey: nat, key: nat, inserted: bool, minted: set<nat>)
    requires JustHeld(s, t, p, newKey) && s.rows[p].status.Approved?
    requires (key, inserted) == if s.rows[p].user.value in s.tokens then (s.tokens[s.rows[p].user.value], false) else (newKey, true)
    ensures var keyed := s.(minted := minted, txns := map[t := Redeem(p, s.now, Keyed(s.rows[p], key, inserted))]);
            Leaves(s, IfEnabled(keyed, Commit(t)), p, newKey)
  {
  }

  lemma TokenStatements(s: State, t: nat, p: nat, newKey: nat)
    requires JustHeld(s, t, p, newKey) && s.rows[p].status.Approved?
    ensures var u := s.rows[p].user.value;
            IfEnabled(IfEnabled(s, GetToken(t)), InsertToken(t, newKey)) ==
            if u in s.tokens then s.(txns := map[t := Redeem(p, s.now, Keyed(s.rows[p], s.tokens[u], false))])
            else s.(minted := s.minted + {newKey}, txns := map[t := Redeem(p, s.now, Keyed(s.rows[p], newKey, true))])
  {
    var row := s.rows[p];
    var got := IfEnabled(s, GetToken(t));
    assert got == s.(txns := map[t := Redeem(p, s.now,
      if row.user.value in s.tokens then Keyed(row, s.tokens[row.user.value], false) else Missing(row))]);
  }

  lemma ApprovedPoll(s: State, t: nat, p: nat, newKey: nat)
    requires JustHeld(s, t, p, newKey) && s.rows[p].status.Approved?
    ensures Leaves(s, FinishPoll(s, t, newKey), p, newKey)
  {
    TokenStatements(s, t, p, newKey);
    var u := s.rows[p].user.value;
    if u in s.tokens {
      KeyedPoll(s, t, p, newKey, s.tokens[u], false, s.minted);
    } else {
      KeyedPoll(s, t, p, newKey, newKey, true, s.minted + {newKey});
    }
  }

  /** The statement-level poll, with nobody in between, is granted its row exactly when the one-call
      poll does not raise, gives the same answer, and leaves the same rows and tokens behind. */
  lemma PollMatchesTransaction(s: State, t: nat, p: nat, newKey: nat)
    requires s.txns == map[] && t !in s.used && newKey !in s.minted
    requires p in s.rows ==> (s.rows[p].status.Approved? <==> s.rows[p].user.Some?)
    ensures var polling := Do(s, BeginRedeem(t, p));
            && (Enabled(polling, Select(t)) <==> Poll(s.rows, s.tokens, p, s.now, newKey).0.Ok?)
            && (Enabled(polling, Select(t)) ==> Leaves(s, FinishPoll(Do(polling, Select(t)), t, newKey), p, newKey))
  {
    var polling := Do(s, BeginRedeem(t, p));
    if Enabled(polling, Select(t)) {
      var held := Do(polling, Select(t));
      assert held.txns == map[t := Redeem(p, s.now, Held(s.rows[p]))];
      if s.rows[p].status.Approved? {
        ApprovedPoll(held, t, p, newKey);
      } else {
        UndecidedOrDeniedPoll(held, t, p, newKey);
      }
    }
  }
}
