/** Weighted directed graphs, walks through them and shortest distances. */
module Walks {
  import opened Words

  /** `g[u][v]` is the cost of the edge from `u` to `v`. */
  type Graph = map<Id, map<Id, u16>>

  predicate Edge(g: Graph, u: Id, v: Id) {
    u in g && v in g[u]
  }

  /** Every link costs the same both ways, and something. */
  ghost predicate Symmetric(g: Graph) {
    forall u, v | Edge(g, u, v) :: u != v && Edge(g, v, u) && g[u][v] == g[v][u] && g[u][v] > 0
  }

  predicate IsWalk(g: Graph, p: seq<Id>) {
    |p| >= 1 && (|p| > 1 ==> Edge(g, p[0], p[1]) && IsWalk(g, p[1..]))
  }

  predicate Joins(g: Graph, p: seq<Id>, a: Id, b: Id) {
    IsWalk(g, p) && p[0] == a && p[|p| - 1] == b
  }

  /** No node occurs twice. */
  predicate IsSimple(p: seq<Id>) {
    forall i, j | 0 <= i < j < |p| :: p[i] != p[j]
  }

  function Cost(g: Graph, p: seq<Id>): nat
    requires IsWalk(g, p)
  {
    if |p| == 1 then 0 else g[p[0]][p[1]] + Cost(g, p[1..])
  }

  ghost predicate Reaches(g: Graph, a: Id, b: Id) {
    exists p :: Joins(g, p, a, b)
  }

  /** `d` is the least cost of a walk from `a` to `b`. */
  ghost predicate IsDistance(g: Graph, a: Id, b: Id, d: int) {
    && (exists p {:trigger Joins(g, p, a, b)} :: Joins(g, p, a, b) && Cost(g, p) == d)
    && (forall p {:trigger Joins(g, p, a, b)} | Joins(g, p, a, b) :: d <= Cost(g, p))
  }

  /** A walk can be cut at any of its nodes. */
  lemma {:induction false} CostSplit(g: Graph, p: seq<Id>, i: nat)
    requires IsWalk(g, p) && i < |p|
    ensures IsWalk(g, p[..i + 1]) && IsWalk(g, p[i..])
    ensures Cost(g, p) == Cost(g, p[..i + 1]) + Cost(g, p[i..])
  {
    if i == 0 {
      assert p[0..] == p;
    } else {
      CostSplit(g, p[1..], i - 1);
      assert p[1..][i - 1..] == p[i..];
      assert p[1..][..i] == p[..i + 1][1..];
    }
  }

  /** Walks that meet can be chained. */
  lemma {:induction false} CostJoin(g: Graph, p: seq<Id>, q: seq<Id>)
    requires IsWalk(g, p) && IsWalk(g, q) && p[|p| - 1] == q[0]
    ensures IsWalk(g, p + q[1..])
    ensures Cost(g, p + q[1..]) == Cost(g, p) + Cost(g, q)
  {
    if |p| == 1 {
      assert p + q[1..] == q;
    } else {
      CostJoin(g, p[1..], q);
      assert (p + q[1..])[1..] == p[1..] + q[1..];
    }
  }

  lemma CostAppend(g: Graph, p: seq<Id>, v: Id)
    requires IsWalk(g, p) && Edge(g, p[|p| - 1], v)
    ensures IsWalk(g, p + [v])
    ensures Cost(g, p + [v]) == Cost(g, p) + g[p[|p| - 1]][v]
  {
    var q := [p[|p| - 1], v];
    assert q[1..] == [v];
    CostJoin(g, p, q);
  }

  lemma CostPrepend(g: Graph, u: Id, p: seq<Id>)
    requires IsWalk(g, p) && Edge(g, u, p[0])
    ensures IsWalk(g, [u] + p)
    ensures Cost(g, [u] + p) == g[u][p[0]] + Cost(g, p)
  {
    assert ([u] + p)[1..] == p;
  }

  /** Two shortest distances between the same nodes are equal. */
  lemma DistanceUnique(g: Graph, a: Id, b: Id, d: int, e: int)
    requires IsDistance(g, a, b, d) && IsDistance(g, a, b, e)
    ensures d == e
  {
  }

  /** A bound on every edge bounds every walk. */
  lemma {:induction false} CostBound(g: Graph, p: seq<Id>, w: nat)
    requires IsWalk(g, p)
    requires forall u, v | Edge(g, u, v) :: g[u][v] <= w
    ensures Cost(g, p) <= (|p| - 1) * w
  {
    if |p| <= 1 {
    } else {
      CostBound(g, p[1..], w);
    }
  }

  /** A simple walk visits at most as many nodes as there are. */
  lemma {:induction false} SimpleLength(p: seq<Id>, nodes: set<Id>)
    requires IsSimple(p) && forall v | v in p :: v in nodes
    ensures |p| <= |nodes|
  {
    if p == [] {
    } else {
      var q := p[1..];
      assert forall i | 0 <= i < |q| :: q[i] == p[i + 1];
      SimpleLength(q, nodes - {p[0]});
    }
  }

  /** Where all edges lead to `nodes`, walks out of them stay there. */
  lemma {:induction false} WalkStaysIn(g: Graph, p: seq<Id>, nodes: set<Id>)
    requires forall u, v | Edge(g, u, v) :: v in nodes
    requires IsWalk(g, p) && p[0] in nodes
    ensures forall v | v in p :: v in nodes
  {
    if |p| <= 1 {
    } else {
      WalkStaysIn(g, p[1..], nodes);
      assert p == [p[0]] + p[1..];
    }
  }

  /** The part of a walk after the last visit to its first node. */
  lemma {:induction false} AfterLastVisit(g: Graph, p: seq<Id>, a: Id) returns (q: seq<Id>)
    requires IsWalk(g, p) && p[|p| - 1] != a && a in p
    ensures Joins(g, q, a, p[|p| - 1]) && |q| >= 2 && a !in q[1..]
    ensures Cost(g, q) <= Cost(g, p) && |q| <= |p| && forall v | v in q :: v in p
    decreases |p|
  {
    if p[0] == a && a !in p[1..] {
      q := p;
    } else {
      q := AfterLastVisit(g, p[1..], a);
    }
  }

  /** Leaving out detours: a walk can be made simple, and is no longer for it. */
  lemma {:induction false} Shorten(g: Graph, p: seq<Id>) returns (q: seq<Id>)
    requires IsWalk(g, p)
    ensures Joins(g, q, p[0], p[|p| - 1]) && IsSimple(q) && Cost(g, q) <= Cost(g, p)
    ensures forall v | v in q :: v in p
    decreases |p|
  {
    var a := p[0];
    if p[|p| - 1] == a {
      q := [a];
    } else {
      var r := AfterLastVisit(g, p, a);
      var rest := Shorten(g, r[1..]);
      q := [a] + rest;
      CostPrepend(g, a, rest);
    }
  }

  ghost function Reverse(p: seq<Id>): (q: seq<Id>)
    ensures |q| == |p| && forall i | 0 <= i < |p| :: q[i] == p[|p| - 1 - i]
  {
    if p == [] then [] else Reverse(p[1..]) + [p[0]]
  }

  /** Where links cost the same both ways, so do walks. */
  lemma {:induction false} ReverseCost(g: Graph, p: seq<Id>)
    requires Symmetric(g) && IsWalk(g, p)
    ensures IsWalk(g, Reverse(p)) && Cost(g, Reverse(p)) == Cost(g, p)
  {
    if |p| <= 1 {
    } else {
      ReverseCost(g, p[1..]);
      assert Edge(g, p[1], p[0]);
      CostAppend(g, Reverse(p[1..]), p[0]);
    }
  }
}
