/** The three validator hooks: whose token keys each takes, and in what order, before the toolkit's own code
    runs. */
module OAuthHooks {
  import opened Options
  import opened Accounts

  /** What a hook's unlocked lookups found. A row's user may be null. */
  datatype Hook =
    | SaveBearerToken(user: Option<nat>)
    | ValidateRefreshToken(owner: Option<nat>)
    | RevokeToken(primary: set<Option<nat>>, fallback: set<Option<nat>>)

  /** The fallback table is read only when the primary one has no row at all, null owner or not. */
  function Owners(h: Hook): set<nat> {
    match h
    case SaveBearerToken(user) => if user.Some? then {user.value} else {}
    case ValidateRefreshToken(owner) => if owner.Some? then {owner.value} else {}
    case RevokeToken(primary, fallback) =>
      var found := if primary != {} then primary else fallback;
      set o | o in found && o.Some? :: o.value
  }

  lemma {:induction false} LeastExists(s: set<nat>)
    requires s != {}
    ensures exists m :: m in s && IsLeast(m, s)
  {
    var x :| x in s;
    var rest := s - {x};
    if rest == {} {
      assert s == {x};
      assert IsLeast(x, s);
    } else {
      LeastExists(rest);
      var m :| m in rest && IsLeast(m, rest);
      var least := if x < m then x else m;
      forall y | y in s ensures least <= y {
        assert y == x || y in rest;
      }
      assert IsLeast(least, s);
    }
  }

  predicate IsLeast(m: nat, s: set<nat>) {
    forall x :: x in s ==> m <= x
  }

  function Least(s: set<nat>): (m: nat)
    requires s != {}
    ensures m in s && IsLeast(m, s)
  {
    LeastExists(s);
    var m :| m in s && IsLeast(m, s);
    m
  }

  /** sorted(s) */
  function Sorted(s: set<nat>): seq<nat>
  {
    if s == {} then [] else [Least(s)] + Sorted(s - {Least(s)})
  }

  lemma {:induction false} SortedMembers(s: set<nat>)
    ensures forall x :: x in Sorted(s) <==> x in s
  {
    if s != {} {
      SortedMembers(s - {Least(s)});
    }
  }

  lemma LeastFirstAscends(m: nat, rest: seq<nat>)
    requires Ascending(rest) && forall x :: x in rest ==> m < x
    ensures Ascending([m] + rest)
  {
    forall i, j | 0 <= i < j < |[m] + rest| ensures ([m] + rest)[i] < ([m] + rest)[j] {
      assert ([m] + rest)[j] == rest[j - 1] && rest[j - 1] in rest;
      assert i > 0 ==> ([m] + rest)[i] == rest[i - 1];
    }
  }

  lemma {:induction false} SortedAscends(s: set<nat>)
    ensures Ascending(Sorted(s))
  {
    if s != {} {
      SortedAscends(s - {Least(s)});
      SortedMembers(s - {Least(s)});
      forall x | x in Sorted(s - {Least(s)}) ensures Least(s) < x {
        assert IsLeast(Least(s), s) && x in s - {Least(s)};
      }
      LeastFirstAscends(Least(s), Sorted(s - {Least(s)}));
    }
  }

  /** The keys of one open transaction, in the order taken. */
  class Transaction {
    var keys: seq<nat>

    constructor ()
      ensures keys == []
    {
      keys := [];
    }

    method LockUserTokens(user: nat)
      modifies this
      ensures keys == old(keys) + [user]
    {
      keys := keys + [user];
    }

    method LockOwners(owners: set<nat>)
      modifies this
      ensures keys == old(keys) + Sorted(owners)
    {
      var todo := owners;
      while todo != {}
        invariant keys + Sorted(todo) == old(keys) + Sorted(owners)
        decreases |todo|
      {
        var user := Least(todo);
        LockUserTokens(user);
        todo := todo - {user};
      }
    }

    method Open(h: Hook)
      requires keys == []
      modifies this
      ensures keys == Sorted(Owners(h))
    {
      match h {
        case SaveBearerToken(user) =>
          if user.Some? {
            LockUserTokens(user.value);
            assert Owners(h) - {user.value} == {};
          }
        case ValidateRefreshToken(owner) =>
          if owner.Some? {
            LockUserTokens(owner.value);
            assert Owners(h) - {owner.value} == {};
          }
        case RevokeToken(primary, fallback) =>
          var userIds := primary;
          if userIds == {} {
            userIds := userIds + fallback;
          }
          var owners := set o | o in userIds && o.Some? :: o.value;
          assert owners == Owners(h);
          LockOwners(owners);
      }
    }
  }

  /** The transaction a hook opens: one the lock order admits, over exactly the owners found. */
  lemma HooksOpenFresh(h: Hook)
    ensures Fresh(TokenWriter(ValidatorHook, Sorted(Owners(h)), {}, {}, {}, None))
    ensures forall u :: u in Sorted(Owners(h)) <==> OwnedThrough(h, u)
  {
    SortedAscends(Owners(h));
    SortedMembers(Owners(h));
    forall u ensures u in Owners(h) <==> OwnedThrough(h, u) {
      if h.RevokeToken? {
        var found := if h.primary != {} then h.primary else h.fallback;
        assert Some(u) in found ==> Some(u).value in Owners(h);
      }
    }
  }

  predicate OwnedThrough(h: Hook, u: nat) {
    match h
    case SaveBearerToken(user) => user == Some(u)
    case ValidateRefreshToken(owner) => owner == Some(u)
    case RevokeToken(primary, fallback) => Some(u) in primary || (primary == {} && Some(u) in fallback)
  }

  /** No two hooks take two keys in opposite orders. */
  lemma HooksNeverCross(h: Hook, g: Hook, i: nat, j: nat, k: nat, l: nat)
    requires i < |Sorted(Owners(h))| && j < |Sorted(Owners(h))| && k < |Sorted(Owners(g))| && l < |Sorted(Owners(g))|
    requires Sorted(Owners(h))[i] == Sorted(Owners(g))[k] && Sorted(Owners(h))[j] == Sorted(Owners(g))[l]
    ensures i < j <==> k < l
  {
    var a := Sorted(Owners(h));
    var b := Sorted(Owners(g));
    SortedAscends(Owners(h));
    SortedAscends(Owners(g));
    assert i < j ==> a[i] < a[j];
    assert j < i ==> a[j] < a[i];
    assert k < l ==> b[k] < b[l];
    assert l < k ==> b[l] < b[k];
  }
}
