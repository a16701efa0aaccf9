/** Whole runs of the shortest-path search: every pop, every edge followed, every sum stored. */
module SearchRuns {
  import opened Words
  import opened Walks
  import opened Dijkstra

  /** One turn of the main loop: the state before it, the key popped, and the edges followed, in order. */
  datatype Turn = Turn(before: Search, visited: set<Id>, top: Key, edges: seq<Id>) {
    predicate Fresh() {
      top.node !in visited
    }
  }

  ghost predicate Followable(g: Graph, s: Search, u: Id, edges: seq<Id>) {
    u in s.dist && u in s.hop && forall v | v in edges :: Edge(g, u, v)
  }

  /** The state after the edges of `u` in `edges` have been followed one after the other. */
  ghost function Follow(g: Graph, s: Search, u: Id, edges: seq<Id>): (s': Search)
    requires Followable(g, s, u, edges)
    ensures u in s'.dist && u in s'.hop
  {
    if edges == [] then s else
    var v := edges[|edges| - 1];
    assert Edge(g, u, v);
    Relax(Follow(g, s, u, edges[..|edges| - 1]), u, v, g[u][v])
  }

  /** The sums that are stored on the way, before they are cut to 16 bits. */
  ghost function Stored(g: Graph, s: Search, u: Id, edges: seq<Id>): seq<int>
    requires Followable(g, s, u, edges)
  {
    if edges == [] then [] else
    var v, s1 := edges[|edges| - 1], Follow(g, s, u, edges[..|edges| - 1]);
    assert Edge(g, u, v);
    Stored(g, s, u, edges[..|edges| - 1]) +
      if Improves(s1.dist, u, v, g[u][v]) then [s1.dist[u] as int + g[u][v] as int] else []
  }

  /** `edges` are the edges out of `u`, each once, in some order. */
  ghost predicate Enumerates(g: Graph, u: Id, edges: seq<Id>) {
    IsSimple(edges) && forall v :: v in edges <==> v in Heads(g, u)
  }

  /** A least key is popped; its node is skipped if visited, and otherwise all its edges are followed. */
  ghost predicate IsTurn(g: Graph, t: Turn, s: Search, visited: set<Id>) {
    && t.top in t.before.queue && (forall e | e in t.before.queue :: t.top.Before(e))
    && if t.Fresh() then
         && Followable(g, Popped(t.before, t.top), t.top.node, t.edges) && Enumerates(g, t.top.node, t.edges)
         && s == Follow(g, Popped(t.before, t.top), t.top.node, t.edges) && visited == t.visited + {t.top.node}
       else
         t.edges == [] && s == Popped(t.before, t.top) && visited == t.visited
  }

  /** The turns of `log` lead from `start` to `s`. */
  ghost predicate Replays(g: Graph, self: Id, start: Search, log: seq<Turn>, s: Search, visited: set<Id>)
    decreases |log|
  {
    if log == [] then s == start && visited == {self} else
    var t := log[|log| - 1];
    Replays(g, self, start, log[..|log| - 1], t.before, t.visited) && IsTurn(g, t, s, visited)
  }

  ghost function StoredIn(g: Graph, t: Turn): seq<int> {
    if Followable(g, Popped(t.before, t.top), t.top.node, t.edges)
    then Stored(g, Popped(t.before, t.top), t.top.node, t.edges)
    else []
  }

  /** All the sums that a run stores. */
  ghost function AllStored(g: Graph, log: seq<Turn>): seq<int> {
    if log == [] then [] else AllStored(g, log[..|log| - 1]) + StoredIn(g, log[|log| - 1])
  }

  /** None of them is truncated. */
  ghost predicate AllFit(sums: seq<int>) {
    forall x | x in sums :: x < U16_RANGE
  }

  /** The keys at which nodes are expanded, in order. */
  ghost function Expansions(log: seq<Turn>): seq<Key> {
    if log == [] then [] else
    Expansions(log[..|log| - 1]) + if log[|log| - 1].Fresh() then [log[|log| - 1].top] else []
  }

  ghost function Nodes(keys: seq<Key>): (nodes: seq<Id>)
    ensures |nodes| == |keys| && forall i | 0 <= i < |keys| :: nodes[i] == keys[i].node
  {
    seq(|keys|, i requires 0 <= i < |keys| => keys[i].node)
  }

  /** The keys carry the distances that their nodes keep. */
  ghost predicate Kept(dist: Distances, keys: seq<Key>) {
    forall k | k in keys :: k.node in dist && dist[k.node] == k.dist
  }

  lemma AllFitAppend(a: seq<int>, b: seq<int>)
    ensures AllFit(a + b) <==> AllFit(a) && AllFit(b)
  {
    assert forall x | x in a :: x in a + b;
    assert forall x | x in b :: x in a + b;
  }

  lemma FollowOne(g: Graph, s: Search, u: Id, edges: seq<Id>, v: Id)
    requires Followable(g, s, u, edges) && Edge(g, u, v)
    ensures Followable(g, s, u, edges + [v])
    ensures var s1 := Follow(g, s, u, edges);
            && Follow(g, s, u, edges + [v]) == Relax(s1, u, v, g[u][v])
            && (AllFit(Stored(g, s, u, edges + [v])) <==>
                AllFit(Stored(g, s, u, edges)) && !Overruns(s1.dist, u, v, g[u][v]))
  {
    var s1 := Follow(g, s, u, edges);
    assert (edges + [v])[..|edges|] == edges;
    var last := if Improves(s1.dist, u, v, g[u][v]) then [s1.dist[u] as int + g[u][v] as int] else [];
    assert Stored(g, s, u, edges + [v]) == Stored(g, s, u, edges) + last;
    AllFitAppend(Stored(g, s, u, edges), last);
    assert AllFit(last) <==> !Overruns(s1.dist, u, v, g[u][v]) by {
      if last != [] { assert last[0] in last; }
    }
  }

  /** What is left of the row. */
  ghost function Rest(g: Graph, u: Id, edges: seq<Id>): set<Id> {
    Heads(g, u) - (set v | v in edges)
  }

  /** The invariants, whatever the walks behind the distances. */
  ghost predicate Underway(g: Graph, self: Id, s0: Search, s: Search, visited: set<Id>, u: Id, todo: set<Id>,
                           exact: bool) {
    exists via :: Expanding(g, self, s0, s, visited, via, u, todo, exact)
  }

  ghost predicate Between(g: Graph, self: Id, s: Search, visited: set<Id>, order: seq<Id>, exact: bool) {
    exists via :: Searching(g, self, s, visited, via, order, exact)
  }

  lemma RelaxKeeps(g: Graph, self: Id, s0: Search, s: Search, visited: set<Id>, u: Id, todo: set<Id>, exact: bool,
                   v: Id)
    requires Underway(g, self, s0, s, visited, u, todo, exact) && u != self && Edge(g, u, v)
    ensures u in s.dist && u in s.hop
    ensures Underway(g, self, s0, Relax(s, u, v, g[u][v]), visited, u, todo - {v},
                     exact && !Overruns(s.dist, u, v, g[u][v]))
    ensures Fits(g, self) && exact ==> !Overruns(s.dist, u, v, g[u][v])
  {
    var via :| Expanding(g, self, s0, s, visited, via, u, todo, exact);
    ExpandingStep(g, self, s0, s, visited, via, u, todo, exact, v);
  }

  lemma RestShrinks(g: Graph, u: Id, edges: seq<Id>, v: Id)
    ensures Rest(g, u, edges + [v]) == Rest(g, u, edges) - {v}
    ensures Rest(g, u, []) == Heads(g, u)
  {
  }

  /** What following `edges` has kept. */
  ghost predicate FollowInv(g: Graph, self: Id, s: Search, visited: set<Id>, u: Id, edges: seq<Id>, exact: bool)
    requires Followable(g, s, u, edges)
  {
    && Underway(g, self, s, Follow(g, s, u, edges), visited, u, Rest(g, u, edges),
                exact && AllFit(Stored(g, s, u, edges)))
    && (Fits(g, self) && exact ==> AllFit(Stored(g, s, u, edges)))
  }

  lemma FollowKeepsOne(g: Graph, self: Id, s: Search, visited: set<Id>, u: Id, edges: seq<Id>, v: Id, exact: bool)
    requires u != self && Followable(g, s, u, edges) && Edge(g, u, v)
    requires FollowInv(g, self, s, visited, u, edges, exact)
    ensures Followable(g, s, u, edges + [v]) && FollowInv(g, self, s, visited, u, edges + [v], exact)
  {
    FollowOne(g, s, u, edges, v);
    RelaxKeeps(g, self, s, Follow(g, s, u, edges), visited, u, Rest(g, u, edges),
               exact && AllFit(Stored(g, s, u, edges)), v);
    RestShrinks(g, u, edges, v);
  }

  /** Following the edges of a node keeps the invariant; it stays exact while the stored sums fit. */
  lemma {:induction false} FollowKeeps(g: Graph, self: Id, s: Search, visited: set<Id>, u: Id, edges: seq<Id>,
                                       exact: bool)
    requires Underway(g, self, s, s, visited, u, Heads(g, u), exact)
    requires u != self && Followable(g, s, u, edges)
    ensures FollowInv(g, self, s, visited, u, edges, exact)
    decreases |edges|
  {
    if edges == [] {
      RestShrinks(g, u, [], u);
    } else {
      var before, v := edges[..|edges| - 1], edges[|edges| - 1];
      assert edges == before + [v] && Edge(g, u, v);
      FollowKeeps(g, self, s, visited, u, before, exact);
      FollowKeepsOne(g, self, s, visited, u, before, v, exact);
    }
  }

  /** Skipping a visited node keeps the invariant. */
  lemma SkipKeeps(g: Graph, self: Id, t: Turn, s: Search, visited: set<Id>, order: seq<Id>, exact: bool)
    requires Between(g, self, t.before, t.visited, order, exact) && IsTurn(g, t, s, visited) && !t.Fresh()
    ensures Between(g, self, s, visited, order, exact)
  {
    var via :| Searching(g, self, t.before, t.visited, via, order, exact);
    PopStale(g, self, t.before, t.visited, via, order, exact, t.top);
  }

  lemma FreshStarts(g: Graph, self: Id, t: Turn, order: seq<Id>, exact: bool)
    requires Between(g, self, t.before, t.visited, order, exact) && t.Fresh()
    requires t.top in t.before.queue && forall e | e in t.before.queue :: t.top.Before(e)
    ensures t.top.node != self && t.top.node in t.before.dist && t.top.node in t.before.hop
    ensures t.top.dist == t.before.dist[t.top.node]
    ensures var s1 := Popped(t.before, t.top);
            Underway(g, self, s1, s1, t.visited + {t.top.node}, t.top.node, Heads(g, t.top.node), exact)
  {
    var via :| Searching(g, self, t.before, t.visited, via, order, exact);
    PopFresh(g, self, t.before, t.visited, via, order, exact, t.top, Popped(t.before, t.top));
  }

  lemma FreshEnds(g: Graph, self: Id, t: Turn, s: Search, order: seq<Id>, exact0: bool, exact: bool)
    requires Between(g, self, t.before, t.visited, order, exact0) && (exact ==> exact0)
    requires t.Fresh() && t.top.node in t.before.dist
    requires Underway(g, self, Popped(t.before, t.top), s, t.visited + {t.top.node}, t.top.node, {}, exact)
    ensures Between(g, self, s, t.visited + {t.top.node}, order + [t.top.node], exact)
    ensures exact ==> Lowers(t.before.dist, s.dist, t.visited + {t.top.node})
  {
    var u, s1 := t.top.node, Popped(t.before, t.top);
    var via0 :| Searching(g, self, t.before, t.visited, via0, order, exact0);
    var via :| Expanding(g, self, s1, s, t.visited + {u}, via, u, {}, exact);
    Expanded(g, self, t.before, t.visited, via0, order, exact0, u, s1, s, via, exact);
  }

  /** Expanding a node keeps the invariant; it stays exact while the stored sums fit. */
  lemma FreshKeeps(g: Graph, self: Id, t: Turn, s: Search, visited: set<Id>, order: seq<Id>, exact: bool)
    requires Between(g, self, t.before, t.visited, order, exact) && IsTurn(g, t, s, visited) && t.Fresh()
    ensures t.top.node in t.before.dist && t.top.dist == t.before.dist[t.top.node]
    ensures Between(g, self, s, visited, order + [t.top.node], exact && AllFit(StoredIn(g, t)))
    ensures Fits(g, self) && exact ==> AllFit(StoredIn(g, t))
    ensures exact && AllFit(StoredIn(g, t)) ==> Lowers(t.before.dist, s.dist, visited)
  {
    var u, s1 := t.top.node, Popped(t.before, t.top);
    FreshStarts(g, self, t, order, exact);
    FollowKeeps(g, self, s1, visited, u, t.edges, exact);
    assert Rest(g, u, t.edges) == {};
    FreshEnds(g, self, t, s, order, exact, exact && AllFit(StoredIn(g, t)));
  }

  lemma NodesAppend(keys: seq<Key>, k: Key)
    ensures Nodes(keys + [k]) == Nodes(keys) + [k.node]
  {
  }

  /** Every run keeps the invariant, exact exactly while no stored sum is truncated. */
  lemma {:induction false} RunKeeps(g: Graph, self: Id, start: Search, log: seq<Turn>, s: Search, visited: set<Id>)
    requires self in g && self !in g[self] && Started(self, g[self], start, {})
    requires Replays(g, self, start, log, s, visited)
    ensures Between(g, self, s, visited, Nodes(Expansions(log)), AllFit(AllStored(g, log)))
    ensures Fits(g, self) ==> AllFit(AllStored(g, log))
    decreases |log|
  {
    if log == [] {
      Starting(g, self, start);
      assert Nodes(Expansions(log)) == [];
    } else {
      var before, t := log[..|log| - 1], log[|log| - 1];
      RunKeeps(g, self, start, before, t.before, t.visited);
      AllFitAppend(AllStored(g, before), StoredIn(g, t));
      if t.Fresh() {
        NodesAppend(Expansions(before), t.top);
        FreshKeeps(g, self, t, s, visited, Nodes(Expansions(before)), AllFit(AllStored(g, before)));
      } else {
        assert StoredIn(g, t) == [];
        assert Expansions(log) == Expansions(before);
        SkipKeeps(g, self, t, s, visited, Nodes(Expansions(before)), AllFit(AllStored(g, before)));
      }
    }
  }

  /** Nodes keep the distance at which they were expanded, while no sum is truncated. */
  lemma {:induction false} ExpansionsKept(g: Graph, self: Id, start: Search, log: seq<Turn>, s: Search,
                                          visited: set<Id>)
    requires self in g && self !in g[self] && Started(self, g[self], start, {})
    requires Replays(g, self, start, log, s, visited) && AllFit(AllStored(g, log))
    ensures Kept(s.dist, Expansions(log)) && forall k | k in Expansions(log) :: k.node in visited
    decreases |log|
  {
    if log == [] {
    } else {
      var before, t := log[..|log| - 1], log[|log| - 1];
      AllFitAppend(AllStored(g, before), StoredIn(g, t));
      ExpansionsKept(g, self, start, before, t.before, t.visited);
      RunKeeps(g, self, start, before, t.before, t.visited);
      if t.Fresh() {
        FreshKeeps(g, self, t, s, visited, Nodes(Expansions(before)), true);
        KeptOneMore(t, s, visited, Expansions(before));
      }
    }
  }

  lemma KeptOneMore(t: Turn, s: Search, visited: set<Id>, keys: seq<Key>)
    requires Kept(t.before.dist, keys) && (forall k | k in keys :: k.node in t.visited)
    requires visited == t.visited + {t.top.node} && Lowers(t.before.dist, s.dist, visited)
    requires t.top.node in t.before.dist && t.top.dist == t.before.dist[t.top.node]
    ensures Kept(s.dist, keys + [t.top]) && forall k | k in keys + [t.top] :: k.node in visited
  {
    forall k | k in keys + [t.top] ensures k.node in visited && k.node in s.dist && s.dist[k.node] == k.dist {
      assert k == t.top || k in keys;
    }
  }

  /** Where every edge costs at most `w`, and `n` nodes are such that `(n - 1) * w` fits 16 bits, no run ever
      truncates a sum: it is the run of a search in unbounded integers. */
  lemma BoundedEdgesNeverTruncate(g: Graph, self: Id, nodes: set<Id>, w: nat,
                                  start: Search, log: seq<Turn>, s: Search, visited: set<Id>)
    requires forall u, v | Edge(g, u, v) :: g[u][v] <= w && v in nodes
    requires self in nodes && (|nodes| - 1) * w < U16_RANGE
    requires self in g && self !in g[self] && Started(self, g[self], start, {})
    requires Replays(g, self, start, log, s, visited)
    ensures AllFit(AllStored(g, log))
  {
    BoundedEdgesFit(g, self, nodes, w);
    RunKeeps(g, self, start, log, s, visited);
  }
}
