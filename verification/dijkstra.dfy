/** The state of the shortest-path search and what each of its steps keeps. */
module Dijkstra {
  import opened Words
  import opened Walks

  /** A queue entry: the distance it was pushed with, then the node. */
  datatype Key = Key(dist: u16, node: Id) {
    /** The order of `pair` under `greater`. */
    predicate Before(k: Key) {
      dist < k.dist || (dist == k.dist && node <= k.node)
    }
  }

  type Distances = map<Id, u16>

  /** Tentative distances, first hops and the queue with its stale entries. */
  datatype Search = Search(dist: Distances, hop: map<Id, Id>, queue: multiset<Key>)

  /** The test of the inner loop; the sum is an `int` and does not wrap here. */
  predicate Improves(dist: Distances, u: Id, v: Id, w: u16)
    requires u in dist
  {
    v !in dist || dist[v] as int > dist[u] as int + w as int
  }

  /** Follows one edge; the sum is stored in 16 bits. */
  function Relax(s: Search, u: Id, v: Id, w: u16): Search
    requires u in s.dist && u in s.hop
  {
    if Improves(s.dist, u, v, w) then
      var d := Truncate(s.dist[u] + w);
      Search(s.dist[v := d], s.hop[v := s.hop[u]], s.queue + multiset{Key(d, v)})
    else
      s
  }

  function Popped(s: Search, top: Key): Search {
    s.(queue := s.queue - multiset{top})
  }

  /** The walk behind each tentative distance. */
  type Trails = map<Id, seq<Id>>

  function Extend(dist: Distances, via: Trails, u: Id, v: Id, w: u16): Trails
    requires u in dist && u in via
  {
    if Improves(dist, u, v, w) then via[v := via[u] + [v]] else via
  }

  /** The nodes that the edges out of `u` lead to. */
  function Heads(g: Graph, u: Id): set<Id> {
    if u in g then g[u].Keys else {}
  }

  // ---- What holds of every search, truncated or not ----

  /** `p` goes from `self` to `v` with `h` right after `self`. */
  ghost predicate Leads(g: Graph, self: Id, p: seq<Id>, v: Id, h: Id) {
    Joins(g, p, self, v) && |p| >= 2 && p[1] == h
  }

  ghost predicate Traced(g: Graph, self: Id, dist: Distances, hop: map<Id, Id>, via: Trails) {
    && via.Keys == dist.Keys == hop.Keys
    && self in dist && dist[self] == 0 && via[self] == [self]
    && forall v | v in via && v != self :: Leads(g, self, via[v], v, hop[v])
  }

  /** Stale entries are never below the current distance; unvisited nodes are queued. */
  ghost predicate Queued(self: Id, s: Search, visited: set<Id>) {
    && self in visited && visited <= s.dist.Keys
    && (forall e | e in s.queue :: e.node in s.dist && e.node != self && s.dist[e.node] <= e.dist)
    && (forall v | v in s.dist && v !in visited :: Key(s.dist[v], v) in s.queue)
  }

  /** Every edge out of `u` leads to a node already found. */
  ghost predicate Closed(g: Graph, dist: Distances, u: Id) {
    u in dist && forall v | Edge(g, u, v) :: v in dist
  }

  // ---- What holds besides while no distance is truncated ----

  /** Following the edge stores a sum that does not fit 16 bits. */
  ghost predicate Overruns(dist: Distances, u: Id, v: Id, w: u16)
    requires u in dist
  {
    Improves(dist, u, v, w) && dist[u] as int + w as int >= U16_RANGE
  }

  /** Every walk to `v` costs more than `d`. */
  ghost predicate TooLow(g: Graph, self: Id, v: Id, d: u16) {
    forall p {:trigger Joins(g, p, self, v)} | Joins(g, p, self, v) :: d < Cost(g, p)
  }

  /** Some tentative distance is below that of any walk, and can only sink further. */
  ghost predicate Doomed(g: Graph, self: Id, dist: Distances) {
    exists v {:trigger TooLow(g, self, v, dist[v])} :: v in dist && v != self && TooLow(g, self, v, dist[v])
  }

  /** What is left once a distance has been truncated. */
  ghost predicate Spoiled(g: Graph, self: Id, dist: Distances) {
    Doomed(g, self, dist) && SomeOvershoots(g, self) && (Positive(g) ==> Exceeds(g, self))
  }

  /** `u` leads to `v`, and nothing nearer does. */
  ghost predicate LeadsNearest(g: Graph, self: Id, u: Id, d: int, v: Id) {
    && Edge(g, u, v) && IsDistance(g, self, u, d)
    && forall x, e {:trigger IsDistance(g, self, x, e), Edge(g, x, v)} | Edge(g, x, v) && IsDistance(g, self, x, e) ::
         d <= e
  }

  /** Of the nearest nodes that lead to some node, one is too far from it for 16 bits. */
  ghost predicate SomeOvershoots(g: Graph, self: Id) {
    exists u, d, v {:trigger LeadsNearest(g, self, u, d, v)} ::
      v != self && LeadsNearest(g, self, u, d, v) && d + g[u][v] as int >= U16_RANGE
  }

  /** All of the nearest nodes that lead to `v` are too far from it. */
  ghost predicate OnlyOvershot(g: Graph, self: Id, v: Id) {
    && (exists u, d {:trigger LeadsNearest(g, self, u, d, v)} :: LeadsNearest(g, self, u, d, v))
    && forall u, d {:trigger LeadsNearest(g, self, u, d, v)} | LeadsNearest(g, self, u, d, v) ::
         d + g[u][v] as int >= U16_RANGE
  }

  ghost predicate AllOvershoot(g: Graph, self: Id) {
    exists v {:trigger OnlyOvershot(g, self, v)} :: v != self && OnlyOvershot(g, self, v)
  }

  /** The visited node that first led to `v` is near enough, and none of the others is nearer. */
  ghost predicate FirstFits(g: Graph, dist: Distances, visited: set<Id>, v: Id)
    requires visited <= dist.Keys
  {
    exists u {:trigger Edge(g, u, v)} :: u in visited && Edge(g, u, v) && dist[u] as int + g[u][v] as int < U16_RANGE
      && forall x {:trigger Edge(g, x, v)} | x in visited && Edge(g, x, v) :: dist[u] <= dist[x]
  }

  ghost predicate FirstsFit(g: Graph, self: Id, dist: Distances, visited: set<Id>) {
    visited <= dist.Keys &&
    forall v {:trigger FirstFits(g, dist, visited, v)} | v in dist && v != self :: FirstFits(g, dist, visited, v)
  }

  /** Every edge costs something. */
  ghost predicate Positive(g: Graph) {
    forall u, v {:trigger Edge(g, u, v)} | Edge(g, u, v) :: g[u][v] > 0
  }

  /** No node that is expanded before `u`, whose distance is `d`, has an edge to `v`. */
  ghost predicate Unforeseen(g: Graph, self: Id, u: Id, d: u16, v: Id) {
    forall x, e: u16 {:trigger IsDistance(g, self, x, e), Edge(g, x, v)}
      | Edge(g, x, v) && IsDistance(g, self, x, e) && x != u ::
      !Key(e, x).Before(Key(d, u))
  }

  /** The first node that leads to `v`, nearest first and by number, is too far from it for 16 bits. */
  ghost predicate Exceeds(g: Graph, self: Id) {
    exists u, d: u16, v {:trigger Unforeseen(g, self, u, d, v)} ::
      && u != self && v != self && Edge(g, u, v) && IsDistance(g, self, u, d)
      && d as int + g[u][v] as int >= U16_RANGE && Unforeseen(g, self, u, d, v)
  }

  /** Where edges cost something, nodes are expanded nearest first and by number. */
  ghost predicate InTurn(dist: Distances, visited: set<Id>) {
    visited <= dist.Keys &&
    forall u, v | u in visited && v in dist && v !in visited :: Key(dist[u], u).Before(Key(dist[v], v))
  }

  ghost predicate AtTurn(dist: Distances, visited: set<Id>, u: Id) {
    && visited <= dist.Keys && u in visited
    && (forall x | x in visited :: Key(dist[x], x).Before(Key(dist[u], u)))
    && (forall v | v in dist && v !in visited :: Key(dist[u], u).Before(Key(dist[v], v)))
  }

  /** Where an edge out of `u` leads too far for 16 bits, its end had been found before. */
  ghost predicate FoundBefore(g: Graph, dist: Distances, visited: set<Id>, u: Id, v: Id)
    requires visited <= dist.Keys && u in dist
  {
    exists x :: x in visited && x != u && Edge(g, x, v) && Key(dist[x], x).Before(Key(dist[u], u))
  }

  ghost predicate Recorded(g: Graph, self: Id, dist: Distances, visited: set<Id>) {
    visited <= dist.Keys &&
    forall u, v {:trigger Edge(g, u, v)} | u in visited && u != self && v != self && Edge(g, u, v) ::
      dist[u] as int + g[u][v] as int < U16_RANGE || FoundBefore(g, dist, visited, u, v)
  }

  /** No simple walk out of `self` is too long for 16 bits. */
  ghost predicate Fits(g: Graph, self: Id) {
    forall p {:trigger IsSimple(p)} | IsWalk(g, p) && IsSimple(p) && p[0] == self :: Cost(g, p) < U16_RANGE
  }

  /** `p` is a simple walk to `v` that costs exactly `d`; only its last node may be unvisited. */
  ghost predicate Exactly(g: Graph, self: Id, p: seq<Id>, v: Id, d: u16, visited: set<Id>) {
    && Joins(g, p, self, v) && IsSimple(p) && Cost(g, p) == d
    && forall i | 0 <= i < |p| - 1 :: p[i] in visited
  }

  ghost predicate Exact(g: Graph, self: Id, dist: Distances, visited: set<Id>, via: Trails) {
    via.Keys == dist.Keys && forall v | v in via :: Exactly(g, self, via[v], v, dist[v], visited)
  }

  /** Visited nodes are no farther than the others. */
  ghost predicate Settled(dist: Distances, visited: set<Id>) {
    visited <= dist.Keys &&
    forall u, v | u in visited && v in dist && v !in visited :: dist[u] <= dist[v]
  }

  /** `u` is the farthest visited node. */
  ghost predicate Frontier(dist: Distances, visited: set<Id>, u: Id) {
    visited <= dist.Keys && u in visited && forall x | x in visited :: dist[x] <= dist[u]
  }

  /** No edge out of `u` improves a distance, except maybe those to `todo`. */
  ghost predicate RelaxedBut(g: Graph, dist: Distances, u: Id, todo: set<Id>) {
    u in dist && forall v | Edge(g, u, v) && v !in todo :: !Improves(dist, u, v, g[u][v])
  }

  /** From `dist` to `dist'` no distance rises and visited nodes keep theirs. */
  ghost predicate Lowers(dist: Distances, dist': Distances, visited: set<Id>) {
    && dist.Keys <= dist'.Keys && visited <= dist.Keys
    && (forall x | x in dist :: dist'[x] <= dist[x])
    && (forall x | x in visited :: dist'[x] == dist[x])
  }

  /** Distances along `order` never decrease. */
  ghost predicate Ascending(dist: Distances, order: seq<Id>) {
    && (forall i | 0 <= i < |order| :: order[i] in dist)
    && forall i, j | 0 <= i < j < |order| :: dist[order[i]] <= dist[order[j]]
  }

  // ---- One relaxation ----

  lemma RelaxTraced(g: Graph, self: Id, s: Search, via: Trails, u: Id, v: Id)
    requires Traced(g, self, s.dist, s.hop, via) && u in s.dist && u != self && Edge(g, u, v)
    ensures var s' := Relax(s, u, v, g[u][v]);
            Traced(g, self, s'.dist, s'.hop, Extend(s.dist, via, u, v, g[u][v]))
  {
    if Improves(s.dist, u, v, g[u][v]) {
      assert Leads(g, self, via[u], u, s.hop[u]);
      CostAppend(g, via[u], v);
      assert Leads(g, self, via[u] + [v], v, s.hop[u]);
    }
  }

  lemma RelaxQueued(self: Id, s: Search, visited: set<Id>, u: Id, v: Id, w: u16)
    requires Queued(self, s, visited) && u in s.dist && u in s.hop && s.dist[self] == 0
    ensures Queued(self, Relax(s, u, v, w), visited)
  {
  }

  /** The extended walk is simple and exact while its cost fits. */
  lemma ExtendExactly(g: Graph, self: Id, p: seq<Id>, u: Id, d: u16, visited: set<Id>, v: Id)
    requires Exactly(g, self, p, u, d, visited) && u in visited && v !in visited && Edge(g, u, v)
    ensures IsWalk(g, p + [v]) && IsSimple(p + [v]) && Cost(g, p + [v]) == d as int + g[u][v] as int
    ensures d as int + g[u][v] as int < U16_RANGE ==> Exactly(g, self, p + [v], v, d + g[u][v], visited)
  {
    CostAppend(g, p, v);
    assert IsSimple(p + [v]) by {
      assert forall i | 0 <= i < |p| :: p[i] in visited;
    }
  }

  /** Relaxing out of the farthest visited node only lowers unvisited distances. */
  lemma RelaxLowers(s: Search, visited: set<Id>, u: Id, v: Id, w: u16)
    requires u in s.hop && Settled(s.dist, visited) && Frontier(s.dist, visited, u)
    requires !Overruns(s.dist, u, v, w)
    ensures var s' := Relax(s, u, v, w);
            && Lowers(s.dist, s'.dist, visited) && !Improves(s'.dist, u, v, w)
            && Settled(s'.dist, visited) && Frontier(s'.dist, visited, u)
  {
  }

  lemma RelaxAtTurn(s: Search, visited: set<Id>, u: Id, v: Id, w: u16)
    requires u in s.hop && AtTurn(s.dist, visited, u) && w > 0 && !Overruns(s.dist, u, v, w)
    ensures AtTurn(Relax(s, u, v, w).dist, visited, u)
  {
    var dist' := Relax(s, u, v, w).dist;
    assert v in visited ==> s.dist[v] <= s.dist[u];
    assert forall x | x in visited :: dist'[x] == s.dist[x];
  }

  lemma RelaxExact(g: Graph, self: Id, s: Search, visited: set<Id>, via: Trails, u: Id, v: Id)
    requires Exact(g, self, s.dist, visited, via) && u in s.hop
    requires Settled(s.dist, visited) && Frontier(s.dist, visited, u) && Edge(g, u, v)
    requires !Overruns(s.dist, u, v, g[u][v])
    ensures Exact(g, self, Relax(s, u, v, g[u][v]).dist, visited, Extend(s.dist, via, u, v, g[u][v]))
  {
    if v !in visited {
      ExtendExactly(g, self, via[u], u, s.dist[u], visited, v);
    }
  }

  /** No recorded distance ever rises, truncated or not. */
  lemma RelaxDoomed(g: Graph, self: Id, s: Search, u: Id, v: Id, w: u16)
    requires Spoiled(g, self, s.dist) && u in s.dist && u in s.hop
    ensures Spoiled(g, self, Relax(s, u, v, w).dist)
  {
    var x :| x in s.dist && x != self && TooLow(g, self, x, s.dist[x]);
    var dist' := Relax(s, u, v, w).dist;
    assert dist'[x] <= s.dist[x];
    assert TooLow(g, self, x, dist'[x]);
  }

  // ---- Expanding a node ----

  /** The search while the edges of `u` are followed, all but those to `todo`. */
  ghost predicate Expanding(g: Graph, self: Id, s0: Search, s: Search, visited: set<Id>, via: Trails,
                            u: Id, todo: set<Id>, exact: bool)
  {
    && Traced(g, self, s.dist, s.hop, via) && Queued(self, s, visited) && u in visited
    && (forall v | v in s0.dist || (v in Heads(g, u) && v !in todo) :: v in s.dist)
    && (forall v | v in s.dist :: v in s0.dist || v in Heads(g, u))
    && (if exact then ExpandingExactly(g, self, s0.dist, s.dist, visited, via, u, todo) else Spoiled(g, self, s.dist))
  }

  ghost predicate ExpandingExactly(g: Graph, self: Id, dist0: Distances, dist: Distances, visited: set<Id>, via: Trails,
                                   u: Id, todo: set<Id>)
  {
    && Exact(g, self, dist, visited, via) && Lowers(dist0, dist, visited)
    && Settled(dist, visited) && Frontier(dist, visited, u) && RelaxedBut(g, dist, u, todo)
    && (forall x | x in visited && x != u :: RelaxedBut(g, dist, x, {}))
    && (Positive(g) ==> AtTurn(dist, visited, u))
  }

  /** Lowering unvisited distances leaves visited nodes relaxed. */
  lemma RelaxedStays(g: Graph, dist: Distances, dist': Distances, visited: set<Id>, u: Id, todo: set<Id>)
    requires RelaxedBut(g, dist, u, todo) && u in visited && Lowers(dist, dist', visited)
    ensures RelaxedBut(g, dist', u, todo)
  {
    forall v | Edge(g, u, v) && v !in todo ensures !Improves(dist', u, v, g[u][v]) {
      assert !Improves(dist, u, v, g[u][v]);
    }
  }

  lemma ExpandingExactlyStep(g: Graph, self: Id, s0: Search, s: Search, visited: set<Id>, via: Trails,
                             u: Id, todo: set<Id>, v: Id)
    requires ExpandingExactly(g, self, s0.dist, s.dist, visited, via, u, todo) && u in s.hop && Edge(g, u, v)
    requires !Overruns(s.dist, u, v, g[u][v])
    ensures ExpandingExactly(g, self, s0.dist, Relax(s, u, v, g[u][v]).dist, visited,
                             Extend(s.dist, via, u, v, g[u][v]), u, todo - {v})
  {
    RelaxExact(g, self, s, visited, via, u, v);
    RelaxLowers(s, visited, u, v, g[u][v]);
    if Positive(g) {
      RelaxAtTurn(s, visited, u, v, g[u][v]);
    }
    var dist' := Relax(s, u, v, g[u][v]).dist;
    RelaxedStays(g, s.dist, dist', visited, u, todo);
    forall x | x in visited && x != u ensures RelaxedBut(g, dist', x, {}) {
      RelaxedStays(g, s.dist, dist', visited, x, {});
    }
  }

  /** A walk from a visited node to an unvisited one, or to the frontier, leads at least as far as the frontier. */
  lemma {:induction false} BeyondFrontier(g: Graph, dist: Distances, visited: set<Id>, u: Id, p: seq<Id>)
    requires Settled(dist, visited) && Frontier(dist, visited, u)
    requires forall x | x in visited && x != u :: RelaxedBut(g, dist, x, {})
    requires IsWalk(g, p) && p[0] in visited && (p[|p| - 1] !in visited || p[|p| - 1] == u)
    ensures dist[u] as int <= dist[p[0]] as int + Cost(g, p)
  {
    var x := p[0];
    if x != u {
      assert RelaxedBut(g, dist, x, {});
      assert !Improves(dist, x, p[1], g[x][p[1]]);
      if p[1] in visited {
        BeyondFrontier(g, dist, visited, u, p[1..]);
      }
    }
  }

  lemma OverrunWraps(s: Search, u: Id, v: Id, w: u16)
    requires u in s.dist && u in s.hop && Overruns(s.dist, u, v, w)
    ensures v !in s.dist && Relax(s, u, v, w).dist[v] < s.dist[u]
  {
    assert s.dist[u] as int + w as int - U16_RANGE < U16_RANGE;
  }

  lemma FrontierTooLow(g: Graph, self: Id, dist: Distances, visited: set<Id>, u: Id, v: Id, d: u16)
    requires Settled(dist, visited) && Frontier(dist, visited, u) && v !in visited && d < dist[u]
    requires forall x | x in visited && x != u :: RelaxedBut(g, dist, x, {})
    requires self in visited && dist[self] == 0
    ensures TooLow(g, self, v, d)
  {
    forall p | Joins(g, p, self, v) ensures d < Cost(g, p) {
      BeyondFrontier(g, dist, visited, u, p);
    }
  }

  /** The first sum that is truncated is less than any walk to its node costs. */
  lemma OverrunDooms(g: Graph, self: Id, s0: Search, s: Search, visited: set<Id>, via: Trails, u: Id, todo: set<Id>,
                     v: Id)
    requires ExpandingExactly(g, self, s0.dist, s.dist, visited, via, u, todo) && u in s.hop && Edge(g, u, v)
    requires self in visited && s.dist[self] == 0 && Overruns(s.dist, u, v, g[u][v])
    ensures Doomed(g, self, Relax(s, u, v, g[u][v]).dist)
  {
    OverrunWraps(s, u, v, g[u][v]);
    FrontierTooLow(g, self, s.dist, visited, u, v, Relax(s, u, v, g[u][v]).dist[v]);
  }

  /** A walk to an unvisited node leads past the frontier. */
  lemma {:induction false} PastFrontier(g: Graph, dist: Distances, visited: set<Id>, u: Id, p: seq<Id>)
    requires Positive(g) && AtTurn(dist, visited, u)
    requires forall x | x in visited && x != u :: RelaxedBut(g, dist, x, {})
    requires IsWalk(g, p) && p[0] in visited && p[|p| - 1] !in visited
    ensures var length := dist[p[0]] as int + Cost(g, p);
            dist[u] as int < length || (dist[u] as int == length && u <= p[|p| - 1])
  {
    var x := p[0];
    assert Edge(g, x, p[1]) && g[x][p[1]] > 0;
    if x != u {
      assert RelaxedBut(g, dist, x, {});
      assert !Improves(dist, x, p[1], g[x][p[1]]);
      if p[1] in visited {
        PastFrontier(g, dist, visited, u, p[1..]);
      } else if |p| > 2 {
        assert Edge(g, p[1], p[2]) && g[p[1]][p[2]] > 0;
      }
    }
  }

  /** The tentative distance of the frontier is its distance. */
  lemma FrontierDistance(g: Graph, self: Id, dist: Distances, visited: set<Id>, via: Trails, u: Id)
    requires Exact(g, self, dist, visited, via) && Settled(dist, visited) && Frontier(dist, visited, u)
    requires forall x | x in visited && x != u :: RelaxedBut(g, dist, x, {})
    requires self in visited && dist[self] == 0
    ensures IsDistance(g, self, u, dist[u])
  {
    assert Exactly(g, self, via[u], u, dist[u], visited);
    forall p | Joins(g, p, self, u) ensures dist[u] <= Cost(g, p) {
      BeyondFrontier(g, dist, visited, u, p);
    }
  }

  lemma HeadFound(g: Graph, dist: Distances, x: Id, v: Id)
    requires RelaxedBut(g, dist, x, {}) && v !in dist
    ensures !Edge(g, x, v)
  {
  }

  /** A node not found yet has no edge from a node before the frontier. */
  lemma FrontierUnforeseen(g: Graph, self: Id, dist: Distances, visited: set<Id>, u: Id, v: Id)
    requires Positive(g) && AtTurn(dist, visited, u)
    requires forall x | x in visited && x != u :: RelaxedBut(g, dist, x, {})
    requires self in visited && dist[self] == 0 && v !in dist
    ensures Unforeseen(g, self, u, dist[u], v)
  {
    forall x, e: u16 | Edge(g, x, v) && IsDistance(g, self, x, e) && x != u
      ensures !Key(e, x).Before(Key(dist[u], u))
    {
      if x in visited {
        HeadFound(g, dist, x, v);
      } else {
        var p :| Joins(g, p, self, x) && Cost(g, p) == e;
        PastFrontier(g, dist, visited, u, p);
      }
    }
  }

  lemma OverrunExceeds(g: Graph, self: Id, s0: Search, s: Search, visited: set<Id>, via: Trails, u: Id, todo: set<Id>,
                       v: Id)
    requires ExpandingExactly(g, self, s0.dist, s.dist, visited, via, u, todo) && u in s.hop && Edge(g, u, v)
    requires self in visited && s.dist[self] == 0 && u != self && Overruns(s.dist, u, v, g[u][v]) && Positive(g)
    ensures Exceeds(g, self)
  {
    OverrunWraps(s, u, v, g[u][v]);
    FrontierDistance(g, self, s.dist, visited, via, u);
    FrontierUnforeseen(g, self, s.dist, visited, u, v);
  }

  /** Nothing nearer than the frontier leads to a node not found yet. */
  lemma OverrunOvershoots(g: Graph, self: Id, s0: Search, s: Search, visited: set<Id>, via: Trails, u: Id,
                          todo: set<Id>, v: Id)
    requires ExpandingExactly(g, self, s0.dist, s.dist, visited, via, u, todo) && u in s.hop && Edge(g, u, v)
    requires self in visited && s.dist[self] == 0 && Overruns(s.dist, u, v, g[u][v])
    ensures SomeOvershoots(g, self)
  {
    OverrunWraps(s, u, v, g[u][v]);
    FrontierDistance(g, self, s.dist, visited, via, u);
    forall x, e | Edge(g, x, v) && IsDistance(g, self, x, e) ensures s.dist[u] as int <= e {
      var p :| Joins(g, p, self, x) && Cost(g, p) == e;
      if x in visited && x != u {
        HeadFound(g, s.dist, x, v);
      } else {
        BeyondFrontier(g, s.dist, visited, u, p);
      }
    }
    assert LeadsNearest(g, self, u, s.dist[u], v);
  }

  /** Where simple walks fit 16 bits, nothing is truncated. */
  lemma FitsPreventsOverrun(g: Graph, self: Id, s: Search, visited: set<Id>, via: Trails, u: Id, v: Id)
    requires Fits(g, self) && Exact(g, self, s.dist, visited, via)
    requires u in s.dist && u in visited && visited <= s.dist.Keys
    requires Edge(g, u, v)
    ensures !Overruns(s.dist, u, v, g[u][v])
  {
    if v !in visited {
      ExtendExactly(g, self, via[u], u, s.dist[u], visited, v);
      assert via[u][0] == self && (via[u] + [v])[0] == self;
    }
  }

  lemma ExpandingStep(g: Graph, self: Id, s0: Search, s: Search, visited: set<Id>, via: Trails,
                      u: Id, todo: set<Id>, exact: bool, v: Id)
    requires Expanding(g, self, s0, s, visited, via, u, todo, exact)
    requires u != self && Edge(g, u, v)
    ensures Expanding(g, self, s0, Relax(s, u, v, g[u][v]), visited,
                      Extend(s.dist, via, u, v, g[u][v]), u, todo - {v}, exact && !Overruns(s.dist, u, v, g[u][v]))
    ensures Fits(g, self) && exact ==> !Overruns(s.dist, u, v, g[u][v])
  {
    RelaxTraced(g, self, s, via, u, v);
    RelaxQueued(self, s, visited, u, v, g[u][v]);
    if exact && Overruns(s.dist, u, v, g[u][v]) {
      OverrunDooms(g, self, s0, s, visited, via, u, todo, v);
      OverrunOvershoots(g, self, s0, s, visited, via, u, todo, v);
      if Positive(g) {
        OverrunExceeds(g, self, s0, s, visited, via, u, todo, v);
      }
    } else if exact {
      ExpandingExactlyStep(g, self, s0, s, visited, via, u, todo, v);
    } else {
      RelaxDoomed(g, self, s, u, v, g[u][v]);
    }
    if exact && Fits(g, self) {
      FitsPreventsOverrun(g, self, s, visited, via, u, v);
    }
  }

  // ---- From one pop to the next ----

  /** The search between two pops; `order` lists the nodes expanded so far. */
  ghost predicate Searching(g: Graph, self: Id, s: Search, visited: set<Id>, via: Trails, order: seq<Id>, exact: bool) {
    && Traced(g, self, s.dist, s.hop, via) && Queued(self, s, visited)
    && (forall u | u in visited :: Closed(g, s.dist, u))
    && Lists(self, visited, order)
    && (if exact then SearchingExactly(g, self, s.dist, visited, via, order) else Spoiled(g, self, s.dist))
  }

  /** `order` lists the visited nodes other than `self`, each once. */
  ghost predicate Lists(self: Id, visited: set<Id>, order: seq<Id>) {
    if order == [] then visited == {self} else
    var last := order[|order| - 1];
    last in visited && last != self && Lists(self, visited - {last}, order[..|order| - 1])
  }

  lemma ListsAppend(self: Id, visited: set<Id>, order: seq<Id>, u: Id)
    requires Lists(self, visited, order) && u !in visited && self in visited
    ensures Lists(self, visited + {u}, order + [u])
  {
    assert visited + {u} - {u} == visited;
    assert (order + [u])[..|order|] == order;
  }

  lemma {:induction false} ListsOnce(self: Id, visited: set<Id>, order: seq<Id>)
    requires Lists(self, visited, order)
    ensures self in visited && IsSimple(order)
    ensures forall u :: u in order <==> u in visited && u != self
  {
    if order == [] {
    } else {
      ListsOnce(self, visited - {order[|order| - 1]}, order[..|order| - 1]);
      assert order == order[..|order| - 1] + [order[|order| - 1]];
    }
  }

  lemma ClosedGrows(g: Graph, dist: Distances, dist': Distances, visited: set<Id>, u: Id)
    requires (forall x | x in visited :: Closed(g, dist, x)) && u in dist
    requires forall v | v in dist || v in Heads(g, u) :: v in dist'
    ensures forall x | x in visited + {u} :: Closed(g, dist', x)
  {
    forall x | x in visited + {u} ensures Closed(g, dist', x) {
      if x != u { assert Closed(g, dist, x); }
    }
  }

  ghost predicate SearchingExactly(g: Graph, self: Id, dist: Distances, visited: set<Id>, via: Trails, order: seq<Id>) {
    && Exact(g, self, dist, visited, via) && Settled(dist, visited)
    && (forall u | u in visited :: RelaxedBut(g, dist, u, {}))
    && Ascending(dist, order) && FirstsFit(g, self, dist, visited)
    && (Positive(g) ==> InTurn(dist, visited) && Recorded(g, self, dist, visited))
  }

  /** After the first loop: one entry for each edge out of `self`. */
  ghost predicate Started(self: Id, row: map<Id, u16>, s: Search, todo: set<Id>) {
    && self in s.dist && s.dist[self] == 0 && s.dist.Keys == s.hop.Keys
    && (forall v :: v in s.dist <==> v == self || (v in row && v !in todo))
    && (forall v | v in s.dist && v != self :: s.dist[v] == row[v] && s.hop[v] == v)
    && (forall e :: e in s.queue <==> e.node in s.dist && e.node != self && e.dist == s.dist[e.node])
  }

  function FirstTrails(self: Id, dist: Distances): Trails {
    map v | v in dist :: if v == self then [self] else [self, v]
  }

  lemma FirstTrail(g: Graph, self: Id, v: Id, visited: set<Id>)
    requires Edge(g, self, v) && v != self && self in visited
    ensures Leads(g, self, [self, v], v, v)
    ensures Exactly(g, self, [self, v], v, g[self][v], visited)
  {
    assert [self, v][1..] == [v];
    assert IsWalk(g, [v]) && Cost(g, [v]) == 0;
  }

  lemma StartingInTurn(g: Graph, self: Id, s: Search)
    requires self in g && self !in g[self] && Started(self, g[self], s, {}) && Positive(g)
    ensures InTurn(s.dist, {self}) && Recorded(g, self, s.dist, {self})
  {
    forall v | v in s.dist && v != self ensures s.dist[v] > 0 {
      assert Edge(g, self, v);
    }
  }

  lemma StartingExact(g: Graph, self: Id, s: Search)
    requires self in g && self !in g[self] && Started(self, g[self], s, {})
    ensures Exact(g, self, s.dist, {self}, FirstTrails(self, s.dist))
  {
    var via := FirstTrails(self, s.dist);
    forall v | v in via ensures Exactly(g, self, via[v], v, s.dist[v], {self}) {
      if v != self { FirstTrail(g, self, v, {self}); }
    }
  }

  lemma StartingRelaxed(g: Graph, self: Id, s: Search)
    requires self in g && self !in g[self] && Started(self, g[self], s, {})
    ensures Settled(s.dist, {self}) && RelaxedBut(g, s.dist, self, {})
  {
    forall v | Edge(g, self, v) ensures !Improves(s.dist, self, v, g[self][v]) {
      assert v in s.dist;
    }
  }

  lemma StartingFits(g: Graph, self: Id, s: Search)
    requires self in g && self !in g[self] && Started(self, g[self], s, {})
    ensures FirstsFit(g, self, s.dist, {self})
  {
    forall v | v in s.dist && v != self ensures FirstFits(g, s.dist, {self}, v) {
      assert Edge(g, self, v);
    }
  }

  lemma StartingExactly(g: Graph, self: Id, s: Search)
    requires self in g && self !in g[self] && Started(self, g[self], s, {})
    ensures SearchingExactly(g, self, s.dist, {self}, FirstTrails(self, s.dist), [])
  {
    StartingExact(g, self, s);
    StartingRelaxed(g, self, s);
    StartingFits(g, self, s);
    if Positive(g) {
      StartingInTurn(g, self, s);
    }
  }

  lemma StartingTraced(g: Graph, self: Id, s: Search)
    requires self in g && self !in g[self] && Started(self, g[self], s, {})
    ensures Traced(g, self, s.dist, s.hop, FirstTrails(self, s.dist))
  {
    var via := FirstTrails(self, s.dist);
    forall v | v in via && v != self ensures Leads(g, self, via[v], v, s.hop[v]) {
      FirstTrail(g, self, v, {self});
    }
  }

  lemma StartingQueued(self: Id, row: map<Id, u16>, s: Search)
    requires Started(self, row, s, {})
    ensures Queued(self, s, {self})
  {
  }

  lemma Starting(g: Graph, self: Id, s: Search)
    requires self in g && self !in g[self] && Started(self, g[self], s, {})
    ensures Searching(g, self, s, {self}, FirstTrails(self, s.dist), [], true)
  {
    StartingTraced(g, self, s);
    StartingQueued(self, g[self], s);
    StartingExactly(g, self, s);
    assert Closed(g, s.dist, self);
  }

  lemma PopStale(g: Graph, self: Id, s: Search, visited: set<Id>, via: Trails, order: seq<Id>, exact: bool, top: Key)
    requires Searching(g, self, s, visited, via, order, exact)
    requires top in s.queue && top.node in visited
    ensures Searching(g, self, Popped(s, top), visited, via, order, exact)
  {
    var s' := Popped(s, top);
    assert s'.dist == s.dist;
  }

  /** The top of the queue is an unvisited node with its current, least, distance. */
  lemma PopLeast(self: Id, s: Search, visited: set<Id>, top: Key)
    requires Queued(self, s, visited) && top in s.queue && top.node !in visited
    requires forall e | e in s.queue :: top.Before(e)
    ensures top.dist == s.dist[top.node]
    ensures Queued(self, Popped(s, top), visited + {top.node})
    ensures forall v | v in s.dist && v !in visited :: Key(s.dist[top.node], top.node).Before(Key(s.dist[v], v))
  {
    assert Key(s.dist[top.node], top.node) in s.queue;
    forall v | v in s.dist && v !in visited
      ensures Key(s.dist[top.node], top.node).Before(Key(s.dist[v], v))
      ensures v != top.node ==> Key(s.dist[v], v) in Popped(s, top).queue
    {
      assert top.Before(Key(s.dist[v], v));
    }
  }

  lemma ExactGrows(g: Graph, self: Id, dist: Distances, visited: set<Id>, visited': set<Id>, via: Trails)
    requires Exact(g, self, dist, visited, via) && visited <= visited'
    ensures Exact(g, self, dist, visited', via)
  {
    forall v | v in via ensures Exactly(g, self, via[v], v, dist[v], visited') {
      assert Exactly(g, self, via[v], v, dist[v], visited);
    }
  }

  lemma PopFreshExactly(g: Graph, self: Id, dist: Distances, visited: set<Id>, via: Trails, order: seq<Id>, u: Id)
    requires SearchingExactly(g, self, dist, visited, via, order)
    requires u in dist && u !in visited
    requires forall v | v in dist && v !in visited :: Key(dist[u], u).Before(Key(dist[v], v))
    ensures ExpandingExactly(g, self, dist, dist, visited + {u}, via, u, Heads(g, u))
  {
    ExactGrows(g, self, dist, visited, visited + {u}, via);
  }

  lemma PopFresh(g: Graph, self: Id, s: Search, visited: set<Id>, via: Trails, order: seq<Id>, exact: bool,
                 top: Key, s': Search)
    requires Searching(g, self, s, visited, via, order, exact)
    requires top in s.queue && top.node !in visited
    requires forall e | e in s.queue :: top.Before(e)
    requires s' == Popped(s, top)
    ensures top.dist == s.dist[top.node]
    ensures Expanding(g, self, s', s', visited + {top.node}, via, top.node, Heads(g, top.node), exact)
  {
    PopLeast(self, s, visited, top);
    if exact {
      PopFreshExactly(g, self, s.dist, visited, via, order, top.node);
    }
  }

  lemma ExpandedExactly(g: Graph, self: Id, dist0: Distances, visited: set<Id>, via0: Trails, order: seq<Id>,
                        u: Id, dist: Distances, via: Trails)
    requires SearchingExactly(g, self, dist0, visited, via0, order)
    requires u in dist0 && u !in visited && Lists(self, visited, order)
    requires self in visited && self in dist && dist[self] == 0
    requires forall x | x in visited :: Closed(g, dist0, x)
    requires ExpandingExactly(g, self, dist0, dist, visited + {u}, via, u, {})
    ensures SearchingExactly(g, self, dist, visited + {u}, via, order + [u])
  {
    forall x | x in visited + {u} ensures RelaxedBut(g, dist, x, {}) {
      if x != u { assert RelaxedBut(g, dist, x, {}); }
    }
    ListsOnce(self, visited, order);
    AscendingAppend(dist0, dist, visited, order, u);
    FitsOneMore(g, self, dist0, visited, u, dist, via);
    if Positive(g) {
      InTurnOneMore(g, dist, visited, u);
      RecordedOneMore(g, self, dist0, visited, via0, u, dist, via);
    }
  }

  lemma LastEdge(g: Graph, p: seq<Id>)
    requires IsWalk(g, p) && |p| > 1
    ensures var q := p[..|p| - 1];
            && IsWalk(g, q) && q[0] == p[0] && Edge(g, q[|q| - 1], p[|p| - 1])
            && Cost(g, p) == Cost(g, q) + g[q[|q| - 1]][p[|p| - 1]]
  {
    var i := |p| - 2;
    var rest := p[i..];
    CostSplit(g, p, i);
    assert p[..i + 1] == p[..|p| - 1];
    assert |rest| == 2 && |rest[1..]| == 1;
  }

  /** Every node found was found over an edge out of a visited node. */
  lemma FoundOverEdge(g: Graph, self: Id, dist: Distances, visited: set<Id>, via: Trails, v: Id) returns (q: seq<Id>)
    requires Exact(g, self, dist, visited, via) && v in dist && v != self
    ensures IsWalk(g, q) && q[0] == self && q[|q| - 1] in visited && Edge(g, q[|q| - 1], v)
    ensures Cost(g, q) + g[q[|q| - 1]][v] == dist[v]
  {
    var p := via[v];
    assert Exactly(g, self, p, v, dist[v], visited);
    LastEdge(g, p);
    q := p[..|p| - 1];
  }

  /** Whatever an expansion finds first is near enough. */
  lemma NearEnough(g: Graph, self: Id, dist: Distances, visited: set<Id>, via: Trails, u: Id, v: Id)
    requires Exact(g, self, dist, visited, via) && Settled(dist, visited) && Frontier(dist, visited, u)
    requires forall x | x in visited && x != u :: RelaxedBut(g, dist, x, {})
    requires self in visited && dist[self] == 0 && v in dist && v != self && Edge(g, u, v)
    requires forall x | x in visited && x != u :: !Edge(g, x, v)
    ensures dist[u] as int + g[u][v] as int < U16_RANGE
  {
    var q := FoundOverEdge(g, self, dist, visited, via, v);
    BeyondFrontier(g, dist, visited, u, q);
  }

  /** What was found before stays near enough. */
  lemma FirstFitStays(g: Graph, dist0: Distances, visited: set<Id>, u: Id, dist: Distances, v: Id)
    requires visited <= dist0.Keys && FirstFits(g, dist0, visited, v)
    requires Lowers(dist0, dist, visited + {u}) && Frontier(dist, visited + {u}, u)
    ensures FirstFits(g, dist, visited + {u}, v)
  {
    var w :| w in visited && Edge(g, w, v) && dist0[w] as int + g[w][v] as int < U16_RANGE
             && forall x | x in visited && Edge(g, x, v) :: dist0[w] <= dist0[x];
    assert dist[w] == dist0[w];
    forall x | x in visited + {u} && Edge(g, x, v) ensures dist[w] <= dist[x] {
      if x != u { assert dist[x] == dist0[x]; }
    }
  }

  lemma FitsOneMore(g: Graph, self: Id, dist0: Distances, visited: set<Id>, u: Id, dist: Distances, via: Trails)
    requires FirstsFit(g, self, dist0, visited) && u !in visited && (forall x | x in visited :: Closed(g, dist0, x))
    requires ExpandingExactly(g, self, dist0, dist, visited + {u}, via, u, {})
    requires self in visited && self in dist && dist[self] == 0
    ensures FirstsFit(g, self, dist, visited + {u})
  {
    forall v | v in dist && v != self ensures FirstFits(g, dist, visited + {u}, v) {
      if v in dist0 {
        assert FirstFits(g, dist0, visited, v);
        FirstFitStays(g, dist0, visited, u, dist, v);
      } else {
        NewFits(g, self, dist0, visited, u, dist, via, v);
      }
    }
  }

  /** A node is found first over an edge out of the node expanded. */
  lemma NewOverFrontier(g: Graph, self: Id, dist0: Distances, visited: set<Id>, u: Id, dist: Distances, via: Trails,
                        v: Id)
    requires (forall x | x in visited :: Closed(g, dist0, x)) && v in dist && v !in dist0 && v != self
    requires Exact(g, self, dist, visited + {u}, via)
    ensures Edge(g, u, v) && forall x | x in visited :: !Edge(g, x, v)
  {
    var q := FoundOverEdge(g, self, dist, visited + {u}, via, v);
    forall x | x in visited ensures !Edge(g, x, v) {
      assert Closed(g, dist0, x);
    }
    assert q[|q| - 1] == u;
  }

  lemma NewFits(g: Graph, self: Id, dist0: Distances, visited: set<Id>, u: Id, dist: Distances, via: Trails, v: Id)
    requires u !in visited && (forall x | x in visited :: Closed(g, dist0, x)) && v in dist && v !in dist0
    requires ExpandingExactly(g, self, dist0, dist, visited + {u}, via, u, {})
    requires self in visited && self in dist && dist[self] == 0 && v != self
    ensures FirstFits(g, dist, visited + {u}, v)
  {
    NewOverFrontier(g, self, dist0, visited, u, dist, via, v);
    NearEnough(g, self, dist, visited + {u}, via, u, v);
    assert Edge(g, u, v);
  }

  lemma InTurnOneMore(g: Graph, dist: Distances, visited: set<Id>, u: Id)
    requires AtTurn(dist, visited + {u}, u)
    ensures InTurn(dist, visited + {u})
  {
  }

  lemma FoundBeforeStays(g: Graph, dist0: Distances, dist: Distances, visited: set<Id>, u: Id, x: Id, v: Id)
    requires visited <= dist0.Keys && x in visited && Lowers(dist0, dist, visited + {u})
    requires FoundBefore(g, dist0, visited, x, v)
    ensures x in dist && visited + {u} <= dist.Keys && FoundBefore(g, dist, visited + {u}, x, v)
  {
    var y :| y in visited && y != x && Edge(g, y, v) && Key(dist0[y], y).Before(Key(dist0[x], x));
    assert y in visited + {u} && dist[y] == dist0[y] && dist[x] == dist0[x];
  }

  /** What the record for the node just expanded rests on. */
  ghost predicate JustExpanded(g: Graph, self: Id, dist: Distances, visited: set<Id>, via: Trails, u: Id) {
    && Exact(g, self, dist, visited, via) && Settled(dist, visited) && Frontier(dist, visited, u)
    && RelaxedBut(g, dist, u, {}) && (forall x | x in visited && x != u :: RelaxedBut(g, dist, x, {}))
    && AtTurn(dist, visited, u) && self in visited && self in dist && dist[self] == 0
  }

  /** The record for the node just expanded. */
  lemma RecordedEdge(g: Graph, self: Id, dist0: Distances, visited: set<Id>, via0: Trails, u: Id, dist: Distances,
                     via: Trails, v: Id)
    requires Exact(g, self, dist0, visited, via0) && u !in visited && v != self && Edge(g, u, v)
    requires forall x | x in visited :: Closed(g, dist0, x)
    requires JustExpanded(g, self, dist, visited + {u}, via, u)
    ensures dist[u] as int + g[u][v] as int < U16_RANGE || FoundBefore(g, dist, visited + {u}, u, v)
  {
    if v in dist0 {
      var q := FoundOverEdge(g, self, dist0, visited, via0, v);
      assert q[|q| - 1] in visited + {u};
    } else {
      assert !Improves(dist, u, v, g[u][v]);
      forall x | x in visited + {u} && x != u ensures !Edge(g, x, v) {
        assert Closed(g, dist0, x);
      }
      NearEnough(g, self, dist, visited + {u}, via, u, v);
    }
  }

  /** The records of the nodes expanded before stay true. */
  lemma RecordStays(g: Graph, self: Id, dist0: Distances, visited: set<Id>, u: Id, dist: Distances, x: Id, v: Id)
    requires Recorded(g, self, dist0, visited) && Lowers(dist0, dist, visited + {u})
    requires x in visited && x != self && v != self && Edge(g, x, v)
    ensures x in dist && visited + {u} <= dist.Keys
    ensures dist[x] as int + g[x][v] as int < U16_RANGE || FoundBefore(g, dist, visited + {u}, x, v)
  {
    assert dist[x] == dist0[x];
    if dist[x] as int + g[x][v] as int >= U16_RANGE {
      FoundBeforeStays(g, dist0, dist, visited, u, x, v);
    }
  }

  lemma RecordedOneMore(g: Graph, self: Id, dist0: Distances, visited: set<Id>, via0: Trails, u: Id, dist: Distances,
                        via: Trails)
    requires Exact(g, self, dist0, visited, via0) && Recorded(g, self, dist0, visited) && u !in visited
    requires forall x | x in visited :: Closed(g, dist0, x)
    requires JustExpanded(g, self, dist, visited + {u}, via, u) && Lowers(dist0, dist, visited + {u})
    ensures Recorded(g, self, dist, visited + {u})
  {
    forall x, v {:trigger Edge(g, x, v)} | x in visited + {u} && x != self && v != self && Edge(g, x, v)
      ensures dist[x] as int + g[x][v] as int < U16_RANGE || FoundBefore(g, dist, visited + {u}, x, v)
    {
      if x == u {
        RecordedEdge(g, self, dist0, visited, via0, u, dist, via, v);
      } else {
        RecordStays(g, self, dist0, visited, u, dist, x, v);
      }
    }
  }

  lemma AscendingAppend(dist0: Distances, dist: Distances, visited: set<Id>, order: seq<Id>, u: Id)
    requires Ascending(dist0, order) && Lowers(dist0, dist, visited + {u}) && Frontier(dist, visited + {u}, u)
    requires forall i | 0 <= i < |order| :: order[i] in visited
    ensures Ascending(dist, order + [u])
  {
  }

  lemma Expanded(g: Graph, self: Id, s0: Search, visited: set<Id>, via0: Trails, order: seq<Id>, exact0: bool,
                 u: Id, s1: Search, s: Search, via: Trails, exact: bool)
    requires Searching(g, self, s0, visited, via0, order, exact0) && s1.dist == s0.dist
    requires u !in visited && u in s0.dist && (exact ==> exact0)
    requires Expanding(g, self, s1, s, visited + {u}, via, u, {}, exact)
    ensures Searching(g, self, s, visited + {u}, via, order + [u], exact)
  {
    ClosedGrows(g, s0.dist, s.dist, visited, u);
    ListsAppend(self, visited, order, u);
    if exact {
      ExpandedExactly(g, self, s0.dist, visited, via0, order, u, s.dist, via);
    }
  }

  // ---- What a finished search has found ----

  /** Once the queue is empty, every node found has been visited. */
  lemma Exhausted(self: Id, s: Search, visited: set<Id>)
    requires Queued(self, s, visited) && s.queue == multiset{}
    ensures s.dist.Keys == visited
  {
    if v :| v in s.dist && v !in visited {
      assert false;
    }
  }

  /** A search whose found nodes are all closed reaches wherever a walk goes. */
  lemma {:induction false} ClosedReaches(g: Graph, dist: Distances, p: seq<Id>)
    requires forall u | u in dist :: Closed(g, dist, u)
    requires IsWalk(g, p) && p[0] in dist
    ensures p[|p| - 1] in dist
  {
    if |p| <= 1 {
    } else {
      assert Closed(g, dist, p[0]);
      ClosedReaches(g, dist, p[1..]);
    }
  }

  /** A search whose found nodes are all relaxed is below every walk. */
  lemma {:induction false} RelaxedBelow(g: Graph, dist: Distances, p: seq<Id>)
    requires forall u | u in dist :: RelaxedBut(g, dist, u, {})
    requires IsWalk(g, p) && p[0] in dist
    ensures p[|p| - 1] in dist
    ensures dist[p[|p| - 1]] as int <= dist[p[0]] as int + Cost(g, p)
  {
    if |p| <= 1 {
    } else {
      assert RelaxedBut(g, dist, p[0], {});
      assert !Improves(dist, p[0], p[1], g[p[0]][p[1]]);
      RelaxedBelow(g, dist, p[1..]);
    }
  }

  /** A priority queue that is not empty has a top. */
  lemma {:induction false} TopExists(q: multiset<Key>)
    requires q != multiset{}
    ensures exists t :: t in q && forall e | e in q :: t.Before(e)
    decreases |q|
  {
    var x :| x in q;
    var rest := q - multiset{x};
    if rest == multiset{} {
      forall e | e in q ensures x.Before(e) {
        assert e == x || e in rest;
      }
    } else {
      TopExists(rest);
      var t :| t in rest && forall e | e in rest :: t.Before(e);
      var m := if t.Before(x) then t else x;
      assert m in q && forall e | e in q :: m.Before(e) by {
        forall e | e in q ensures m.Before(e) {
          assert e == x || e in rest;
        }
      }
    }
  }

  // ---- When distances fit 16 bits ----

  /** When every edge costs at most `w`, `n` nodes fit if `(n - 1) * w` does. */
  lemma BoundedEdgesFit(g: Graph, self: Id, nodes: set<Id>, w: nat)
    requires forall u, v | Edge(g, u, v) :: g[u][v] <= w && v in nodes
    requires self in nodes && (|nodes| - 1) * w < U16_RANGE
    ensures Fits(g, self)
  {
    forall p | IsWalk(g, p) && IsSimple(p) && p[0] == self
      ensures Cost(g, p) < U16_RANGE
    {
      CostBound(g, p, w);
      WalkStaysIn(g, p, nodes);
      SimpleLength(p, nodes);
      assert (|p| - 1) * w <= (|nodes| - 1) * w;
    }
  }
}
