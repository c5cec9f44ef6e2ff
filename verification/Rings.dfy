/** Rings in a finite directed graph. */
module Rings {

  type Edges = set<(nat, nat)>

  function Next(i: nat, n: nat): nat
    requires i < n
  {
    if i + 1 == n then 0 else i + 1
  }

  /** Each member has an edge to the next, and the last to the first. */
  predicate Ring(edges: Edges, ring: seq<nat>) {
    |ring| > 0 && forall i {:trigger ring[i]} :: 0 <= i < |ring| ==> (ring[i], ring[Next(i, |ring|)]) in edges
  }

  ghost predicate LeadsInto(edges: Edges, t: nat, d: set<nat>) {
    exists o :: o in d && (t, o) in edges
  }

  /** Every member has an edge to a member. */
  ghost predicate Closed(edges: Edges, d: set<nat>) {
    d != {} && forall t {:trigger LeadsInto(edges, t, d)} :: t in d ==> LeadsInto(edges, t, d)
  }

  predicate Path(edges: Edges, path: seq<nat>) {
    |path| > 0 && forall i {:trigger path[i]} :: 0 <= i < |path| - 1 ==> (path[i], path[i + 1]) in edges
  }

  function Members(path: seq<nat>): set<nat> {
    set t | t in path
  }

  lemma PathBackIsRing(edges: Edges, path: seq<nat>, j: nat)
    requires Path(edges, path) && j < |path| && (path[|path| - 1], path[j]) in edges
    ensures Ring(edges, path[j..])
  {
    var ring := path[j..];
    forall i {:trigger ring[i]} | 0 <= i < |ring| ensures (ring[i], ring[Next(i, |ring|)]) in edges {
      assert ring[i] == path[j + i];
      if i + 1 < |ring| {
        assert ring[i + 1] == path[j + i + 1];
      }
    }
  }

  lemma {:induction false} WalkToRing(edges: Edges, d: set<nat>, path: seq<nat>) returns (ring: seq<nat>)
    requires Closed(edges, d) && Path(edges, path) && Members(path) <= d
    ensures Ring(edges, ring)
    decreases d - Members(path)
  {
    var last := path[|path| - 1];
    assert last in Members(path) && LeadsInto(edges, last, d);
    var o :| o in d && (last, o) in edges;
    if o in path {
      var j :| 0 <= j < |path| && path[j] == o;
      PathBackIsRing(edges, path, j);
      return path[j..];
    }
    assert Members(path + [o]) == Members(path) + {o};
    ring := WalkToRing(edges, d, path + [o]);
  }

  /** A finite set in which every member has an edge to a member contains a ring, and a ring's members are
      such a set. */
  lemma ClosedExactlyWithRing(edges: Edges)
    ensures (exists d :: Closed(edges, d)) <==> exists ring :: Ring(edges, ring)
  {
    if d :| Closed(edges, d) {
      var t :| t in d;
      var ring := WalkToRing(edges, d, [t]);
    }
    if ring :| Ring(edges, ring) {
      var d := Members(ring);
      assert ring[0] in d;
      forall t | t in d ensures LeadsInto(edges, t, d) {
        var i :| 0 <= i < |ring| && ring[i] == t;
        assert ring[Next(i, |ring|)] in d;
      }
      assert Closed(edges, d);
    }
  }
}
