/**
 * The undirected graph both cores work on: nodes 0..n-1 and a set of
 * unordered node pairs. A self-loop is a pair with equal ends; adding an
 * edge that is already present changes nothing.
 */
module Graphs {

  /** An unordered pair of nodes, stored with the smaller end first. */
  datatype Edge = Edge(lo: nat, hi: nat)

  /** The edge joining `u` and `v`, whichever order they come in. */
  function Link(u: nat, v: nat): (e: Edge)
    ensures e.lo <= e.hi
    ensures (e.lo == u && e.hi == v) || (e.lo == v && e.hi == u)
  {
    if u <= v then Edge(u, v) else Edge(v, u)
  }

  /** Two links are the same edge exactly when they join the same two nodes. */
  lemma LinkSameEdge(u: nat, v: nat, x: nat, y: nat)
    ensures Link(u, v) == Link(v, u)
    ensures Link(u, v) == Link(x, y) <==> (u == x && v == y) || (u == y && v == x)
  {
  }

  datatype Graph = Graph(n: nat, edges: set<Edge>)

  /** Every edge is stored normalised and joins two nodes of 0..n-1. */
  predicate WellFormed(n: nat, edges: set<Edge>) {
    forall e :: e in edges ==> e.lo <= e.hi < n
  }

  predicate Adjacent(edges: set<Edge>, u: nat, v: nat) {
    Link(u, v) in edges
  }

  /** The neighbours of `u` below `k`, in ascending order. */
  function NeighboursBelow(edges: set<Edge>, u: nat, k: nat): (r: seq<nat>)
    ensures forall v: nat :: v in r <==> v < k && Adjacent(edges, u, v)
    ensures forall i :: 0 <= i < |r| ==> r[i] < k
    ensures forall i, j :: 0 <= i < j < |r| ==> r[i] < r[j]
  {
    if k == 0 then []
    else
      var prefix := NeighboursBelow(edges, u, k - 1);
      if Adjacent(edges, u, k - 1) then
        assert forall i :: 0 <= i < |prefix| ==> prefix[i] in prefix;
        prefix + [k - 1]
      else
        prefix
  }

  /** The list holds each neighbour below `k` once. */
  lemma {:induction false} NeighboursBelowCount(edges: set<Edge>, u: nat, k: nat)
    ensures |NeighboursBelow(edges, u, k)| == |NeighbourSetBelow(edges, u, k)|
  {
    if k > 0 {
      NeighboursBelowCount(edges, u, k - 1);
      NeighbourSetStep(edges, u, k);
      var prefix := NeighboursBelow(edges, u, k - 1);
      if Adjacent(edges, u, k - 1) {
        assert NeighboursBelow(edges, u, k) == prefix + [k - 1];
      } else {
        assert NeighboursBelow(edges, u, k) == prefix;
      }
    }
  }

  lemma NeighbourSetStep(edges: set<Edge>, u: nat, k: nat)
    requires k > 0
    ensures Adjacent(edges, u, k - 1) ==>
      NeighbourSetBelow(edges, u, k) == NeighbourSetBelow(edges, u, k - 1) + {k - 1}
      && k - 1 !in NeighbourSetBelow(edges, u, k - 1)
    ensures !Adjacent(edges, u, k - 1) ==>
      NeighbourSetBelow(edges, u, k) == NeighbourSetBelow(edges, u, k - 1)
  {
  }

  function NeighbourSetBelow(edges: set<Edge>, u: nat, k: nat): set<nat> {
    set v: nat | v < k && Adjacent(edges, u, v)
  }

  /** graph[u]: the neighbours of `u` among the nodes 0..n-1, ascending. */
  function Neighbours(n: nat, edges: set<Edge>, u: nat): (r: seq<nat>)
    ensures forall v: nat :: v in r <==> v < n && Adjacent(edges, u, v)
    ensures forall i :: 0 <= i < |r| ==> r[i] < n
    ensures forall i, j :: 0 <= i < j < |r| ==> r[i] < r[j]
    ensures |r| == Degree(n, edges, u)
  {
    NeighboursBelowCount(edges, u, n);
    NeighboursBelow(edges, u, n)
  }

  function NeighbourSet(n: nat, edges: set<Edge>, u: nat): set<nat> {
    NeighbourSetBelow(edges, u, n)
  }

  /** The number of distinct neighbours of `u` (a self-loop counts once). */
  function Degree(n: nat, edges: set<Edge>, u: nat): nat {
    |NeighbourSet(n, edges, u)|
  }
}
