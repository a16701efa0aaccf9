/** The shortest-path search of a router in link-state mode. */
module LinkState {
  import opened Collections
  import opened Words
  import opened Walks
  import opened RouterTables
  import opened Dijkstra
  import opened SearchRuns

  /** A learnt edge: its cost and when it times out. */
  datatype Link = Link(cost: u16, deadline: nat)

  type Links = map<Id, map<Id, Link>>

  /** What the search runs on: first edges from the neighbour table, the others from the graph. */
  function Costs(self: Id, neighbors: Neighbors, graph: Links): Graph {
    map u | u in graph.Keys + {self} ::
      if u == self then map n | n in neighbors :: neighbors[n].cost
      else map v | v in graph[u] :: graph[u][v].cost
  }

  /** Looking up a missing row of the graph creates it empty. */
  function WithRows(graph: Links, rows: set<Id>): Links {
    map u | u in graph.Keys + rows :: if u in graph then graph[u] else map[]
  }

  /** Some simple walk that costs `route.cost` has `route.hop` right after `self`. */
  ghost predicate Attains(g: Graph, self: Id, d: Id, route: Route) {
    exists p :: Leads(g, self, p, d, route.hop) && IsSimple(p) && Cost(g, p) == route.cost
  }

  /** There is a route to exactly the other nodes that can be reached. */
  ghost predicate Covers(g: Graph, self: Id, routes: Routes) {
    forall d {:trigger Reaches(g, self, d)} :: d in routes <==> d != self && Reaches(g, self, d)
  }

  /** Each route has the least cost, and the first hop of a walk that attains it. */
  ghost predicate Shortest(g: Graph, self: Id, routes: Routes) {
    forall d {:trigger Attains(g, self, d, routes[d])} | d in routes ::
      IsDistance(g, self, d, routes[d].cost) && Attains(g, self, d, routes[d])
  }

  /** Each destination is expanded once, and nothing else is. */
  ghost predicate OnceEach(keys: seq<Key>, routes: Routes) {
    && (forall i, j | 0 <= i < j < |keys| :: keys[i].node != keys[j].node)
    && (forall i | 0 <= i < |keys| :: keys[i].node in routes)
    && (forall d | d in routes :: exists k :: k in keys && k.node == d)
  }

  /** Nearer ones first, each at the cost of its route. */
  ghost predicate NearestFirst(keys: seq<Key>, routes: Routes) {
    && (forall i, j | 0 <= i < j < |keys| :: keys[i].dist <= keys[j].dist)
    && (forall k | k in keys :: k.node in routes && routes[k.node].cost == k.dist)
  }

  /** A whole run: how it starts, its turns, and how it ends. */
  datatype Run = Run(start: Search, log: seq<Turn>, end: Search, visited: set<Id>)

  ghost predicate IsStart(g: Graph, self: Id, start: Search) {
    self in g && self !in g[self] && Started(self, g[self], start, {})
  }

  ghost predicate IsSearch(g: Graph, self: Id, run: Run) {
    && IsStart(g, self, run.start)
    && Replays(g, self, run.start, run.log, run.end, run.visited) && run.end.queue == multiset{}
  }

  ghost predicate Untruncated(g: Graph, run: Run) {
    AllFit(AllStored(g, run.log))
  }

  /** `for (auto edge : graph[u])`: follows the edges of a row in any order. */
  method Expand(ghost g: Graph, u: Id, row: map<Id, Link>, s0: Search) returns (s: Search, ghost edges: seq<Id>)
    requires IsRow(g, u, row) && u in s0.dist && u in s0.hop
    ensures Enumerates(g, u, edges) && Followable(g, s0, u, edges) && s == Follow(g, s0, u, edges)
    ensures s.dist.Keys == s0.dist.Keys + row.Keys
  {
    s, edges := s0, [];
    var todo := row.Keys;
    while todo != {}
      invariant todo <= row.Keys
      invariant Followable(g, s0, u, edges) && s == Follow(g, s0, u, edges)
      invariant IsSimple(edges) && forall v :: v in edges <==> v in row && v !in todo
      invariant s.dist.Keys == s0.dist.Keys + (row.Keys - todo)
      decreases todo
    {
      var v :| v in todo;
      var w := row[v].cost;
      FollowOne(g, s0, u, edges, v);
      todo, s, edges := todo - {v}, Relax(s, u, v, w), edges + [v];
    }
  }

  /** The first loop: one queue entry for each neighbour. */
  method Start(self: Id, neighbors: Neighbors, ports: Ports, ghost row: map<Id, u16>) returns (s: Search)
    requires Agree(self, neighbors, ports)
    requires row == map n | n in neighbors :: neighbors[n].cost
    ensures Started(self, row, s, {})
  {
    s := Search(map[self := 0], map[self := self], multiset{});
    var todo := neighbors.Keys;
    while todo != {}
      invariant todo <= neighbors.Keys
      invariant Started(self, row, s, todo)
      decreases todo
    {
      var v :| v in todo;
      var w := neighbors[v].cost;
      assert Answers(neighbors, ports, v);
      todo, s := todo - {v},
        Search(s.dist[v := w], s.hop[v := ports[neighbors[v].port]], s.queue + multiset{Key(w, v)});
    }
  }

  function Row(links: Links, u: Id): map<Id, Link> {
    if u in links then links[u] else map[]
  }

  /** `row` are the edges out of `u` in `g`. */
  ghost predicate IsRow(g: Graph, u: Id, row: map<Id, Link>) {
    row.Keys == Heads(g, u) && forall v | v in row :: g[u][v] == row[v].cost
  }

  /** The graph once the nodes of `visited` other than `self` have been looked up. */
  function LookedUp(links: Links, self: Id, visited: set<Id>): Links {
    WithRows(links, visited - {self})
  }

  lemma LookUp(links: Links, self: Id, visited: set<Id>, u: Id)
    requires u != self
    ensures var grown := LookedUp(links, self, visited);
            var grown' := if u in grown then grown else grown[u := map[]];
            grown' == LookedUp(links, self, visited + {u}) && grown'[u] == Row(links, u)
  {
  }

  lemma NothingLookedUp(links: Links, self: Id)
    ensures LookedUp(links, self, {self}) == links
  {
  }

  /** The links are the edges of `g` out of nodes other than `self`. */
  ghost predicate Describes(g: Graph, self: Id, links: Links) {
    forall u {:trigger Row(links, u)} | u != self :: IsRow(g, u, Row(links, u))
  }

  /** Expands the unvisited node on top of the queue. */
  method Visit(ghost g: Graph, ghost self: Id, links: Links, grown0: Links, top: Key, s0: Search, visited: set<Id>)
    returns (s: Search, grown: Links, ghost t: Turn)
    requires Describes(g, self, links) && grown0 == LookedUp(links, self, visited)
    requires top.node != self && top.node in s0.dist && top.node in s0.hop && top.node !in visited
    requires top in s0.queue && forall e | e in s0.queue :: top.Before(e)
    ensures t.before == s0 && t.visited == visited && t.top == top && IsTurn(g, t, s, visited + {top.node})
    ensures grown == LookedUp(links, self, visited + {top.node})
  {
    var u := top.node;
    LookUp(links, self, visited, u);
    grown := if u in grown0 then grown0 else grown0[u := map[]];
    ghost var edges;
    s, edges := Expand(g, u, grown[u], Popped(s0, top));
    t := Turn(s0, visited, top, edges);
  }

  lemma ReplaysOneMore(g: Graph, self: Id, start: Search, log: seq<Turn>, t: Turn, s: Search, visited: set<Id>)
    requires Replays(g, self, start, log, t.before, t.visited) && IsTurn(g, t, s, visited)
    ensures Replays(g, self, start, log + [t], s, visited)
  {
    assert (log + [t])[..|log|] == log;
  }

  /** The body of the main loop. */
  method Pop(ghost g: Graph, self: Id, links: Links, grown0: Links, s0: Search, visited0: set<Id>,
             ghost start: Search, ghost log0: seq<Turn>)
    returns (s: Search, grown: Links, visited: set<Id>, ghost log: seq<Turn>)
    requires Describes(g, self, links) && grown0 == LookedUp(links, self, visited0)
    requires IsStart(g, self, start) && Replays(g, self, start, log0, s0, visited0) && s0.queue != multiset{}
    ensures Replays(g, self, start, log, s, visited) && |log| == |log0| + 1 && log[..|log0|] == log0
    ensures grown == LookedUp(links, self, visited)
    ensures visited0 < visited || (visited == visited0 && |s.queue| < |s0.queue|)
  {
    TopExists(s0.queue);
    var top :| top in s0.queue && forall e | e in s0.queue :: top.Before(e);
    ghost var t := Turn(s0, visited0, top, []);
    if top.node in visited0 {
      s, grown, visited := Popped(s0, top), grown0, visited0;
    } else {
      RunKeeps(g, self, start, log0, s0, visited0);
      FreshStarts(g, self, t, Nodes(Expansions(log0)), AllFit(AllStored(g, log0)));
      s, grown, t := Visit(g, self, links, grown0, top, s0, visited0);
      visited := visited0 + {top.node};
    }
    ReplaysOneMore(g, self, start, log0, t, s, visited);
    log := log0 + [t];
  }

  /** How many nodes may still be expanded. */
  ghost function Left(visited: set<Id>): nat {
    |AllIds() - visited|
  }

  lemma FewerLeft(visited0: set<Id>, visited: set<Id>)
    requires visited0 < visited
    ensures Left(visited) < Left(visited0)
  {
    var v :| v in visited && v !in visited0;
    assert AllIds() - visited <= AllIds() - visited0 - {v};
    SubsetSize(AllIds() - visited, AllIds() - visited0 - {v});
  }

  /** What the search leaves for the routing table. */
  function RoutesOf(self: Id, s: Search): Routes
    requires s.dist.Keys == s.hop.Keys
  {
    map d | d in s.dist && d != self :: Route(s.dist[d], s.hop[d])
  }

  lemma FinishedCovers(g: Graph, self: Id, s: Search, visited: set<Id>, via: Trails, order: seq<Id>, exact: bool)
    requires Searching(g, self, s, visited, via, order, exact) && s.queue == multiset{}
    ensures visited == s.dist.Keys
    ensures Covers(g, self, RoutesOf(self, s))
  {
    Exhausted(self, s, visited);
    forall d ensures d in RoutesOf(self, s) <==> d != self && Reaches(g, self, d) {
      if d in s.dist && d != self {
        assert Leads(g, self, via[d], d, s.hop[d]);
      } else if d != self && Reaches(g, self, d) {
        var p :| Joins(g, p, self, d);
        ClosedReaches(g, s.dist, p);
      }
    }
  }

  lemma FinishedShortest(g: Graph, self: Id, s: Search, visited: set<Id>, via: Trails, order: seq<Id>)
    requires Traced(g, self, s.dist, s.hop, via) && visited == s.dist.Keys
    requires SearchingExactly(g, self, s.dist, visited, via, order)
    ensures Shortest(g, self, RoutesOf(self, s))
  {
    var routes := RoutesOf(self, s);
    forall d | d in routes ensures IsDistance(g, self, d, routes[d].cost) && Attains(g, self, d, routes[d]) {
      assert Exactly(g, self, via[d], d, s.dist[d], visited);
      assert Leads(g, self, via[d], d, s.hop[d]);
      forall p | Joins(g, p, self, d) ensures routes[d].cost <= Cost(g, p) {
        RelaxedBelow(g, s.dist, p);
      }
    }
  }

  lemma FinishedOnce(self: Id, visited: set<Id>, keys: seq<Key>, s: Search)
    requires Lists(self, visited, Nodes(keys)) && visited == s.dist.Keys == s.hop.Keys
    ensures OnceEach(keys, RoutesOf(self, s))
  {
    var order := Nodes(keys);
    ListsOnce(self, visited, order);
    forall i, j | 0 <= i < j < |keys| ensures keys[i].node != keys[j].node {
      assert order[i] != order[j];
    }
    forall i | 0 <= i < |keys| ensures keys[i].node in RoutesOf(self, s) {
      assert order[i] in order;
    }
    forall d | d in RoutesOf(self, s) ensures exists k :: k in keys && k.node == d {
      assert d in order;
      var i :| 0 <= i < |order| && order[i] == d;
      assert keys[i] in keys;
    }
  }

  lemma FinishedInOrder(self: Id, keys: seq<Key>, s: Search)
    requires Ascending(s.dist, Nodes(keys)) && Kept(s.dist, keys) && s.dist.Keys == s.hop.Keys
    requires forall k | k in keys :: k.node != self
    ensures NearestFirst(keys, RoutesOf(self, s))
  {
    var order := Nodes(keys);
    forall i, j | 0 <= i < j < |keys| ensures keys[i].dist <= keys[j].dist {
      assert s.dist[order[i]] <= s.dist[order[j]];
      assert keys[i] in keys && keys[j] in keys;
    }
  }

  lemma LowIsNoDistance(g: Graph, self: Id, v: Id, d: u16)
    requires TooLow(g, self, v, d)
    ensures !IsDistance(g, self, v, d)
  {
  }

  /** A distance below that of every walk shows. */
  lemma FinishedDoomed(g: Graph, self: Id, s: Search)
    requires Doomed(g, self, s.dist) && s.dist.Keys == s.hop.Keys
    ensures !Shortest(g, self, RoutesOf(self, s))
  {
    var v :| v in s.dist && v != self && TooLow(g, self, v, s.dist[v]);
    LowIsNoDistance(g, self, v, s.dist[v]);
    var route := RoutesOf(self, s)[v];
    assert Attains(g, self, v, route) || !Attains(g, self, v, route);
  }

  lemma StoredDistance(g: Graph, self: Id, s: Search, x: Id)
    requires s.dist.Keys == s.hop.Keys && self in s.dist && s.dist[self] == 0 && x in s.dist
    requires Shortest(g, self, RoutesOf(self, s))
    ensures IsDistance(g, self, x, s.dist[x])
  {
    if x == self {
      assert Joins(g, [self], self, self) && Cost(g, [self]) == 0;
    } else {
      var route := RoutesOf(self, s)[x];
      assert Attains(g, self, x, route);
    }
  }

  lemma FoundAtDistance(g: Graph, self: Id, s: Search, x: Id, e: int)
    requires s.dist.Keys == s.hop.Keys && self in s.dist && s.dist[self] == 0 && IsDistance(g, self, x, e)
    requires Covers(g, self, RoutesOf(self, s)) && Shortest(g, self, RoutesOf(self, s))
    ensures x in s.dist && s.dist[x] as int == e
  {
    assert Reaches(g, self, x);
    assert x != self ==> x in RoutesOf(self, s);
    StoredDistance(g, self, s, x);
    DistanceUnique(g, self, x, e, s.dist[x]);
  }

  /** An exact search has met no edge that leads too far. */
  lemma FinishedWithin(g: Graph, self: Id, s: Search, visited: set<Id>)
    requires Positive(g) && Recorded(g, self, s.dist, visited) && visited == s.dist.Keys == s.hop.Keys
    requires self in s.dist && s.dist[self] == 0
    requires Covers(g, self, RoutesOf(self, s)) && Shortest(g, self, RoutesOf(self, s))
    ensures !Exceeds(g, self)
  {
    forall x | x in s.dist ensures IsDistance(g, self, x, s.dist[x]) {
      StoredDistance(g, self, s, x);
    }
    forall u, d: u16, v {:trigger Unforeseen(g, self, u, d, v)}
      | u != self && v != self && Edge(g, u, v) && IsDistance(g, self, u, d) && d as int + g[u][v] as int >= U16_RANGE
      ensures !Unforeseen(g, self, u, d, v)
    {
      assert Reaches(g, self, u);
      DistanceUnique(g, self, u, d, s.dist[u]);
      var x :| x in visited && x != u && Edge(g, x, v) && Key(s.dist[x], x).Before(Key(s.dist[u], u));
      assert IsDistance(g, self, x, s.dist[x]);
    }
  }

  /** In an exact search some nearest node that leads to `v` was near enough. */
  lemma FinishedFits(g: Graph, self: Id, s: Search, visited: set<Id>, v: Id)
    requires FirstsFit(g, self, s.dist, visited) && visited == s.dist.Keys == s.hop.Keys && v != self
    requires self in s.dist && s.dist[self] == 0 && (forall u | u in visited :: Closed(g, s.dist, u))
    requires Covers(g, self, RoutesOf(self, s)) && Shortest(g, self, RoutesOf(self, s))
    ensures !OnlyOvershot(g, self, v)
  {
    if x, e :| LeadsNearest(g, self, x, e, v) {
      FoundAtDistance(g, self, s, x, e);
      assert Closed(g, s.dist, x);
      assert FirstFits(g, s.dist, visited, v);
      var u :| u in visited && Edge(g, u, v) && s.dist[u] as int + g[u][v] as int < U16_RANGE
               && forall x | x in visited && Edge(g, x, v) :: s.dist[u] <= s.dist[x];
      StoredDistance(g, self, s, u);
      forall y, c | Edge(g, y, v) && IsDistance(g, self, y, c) ensures s.dist[u] as int <= c {
        FoundAtDistance(g, self, s, y, c);
      }
      assert LeadsNearest(g, self, u, s.dist[u], v);
    }
  }

  lemma FinishedEnd(g: Graph, self: Id, s: Search, visited: set<Id>, via: Trails, order: seq<Id>, exact: bool)
    requires Searching(g, self, s, visited, via, order, exact) && s.queue == multiset{}
    ensures visited == s.dist.Keys == s.hop.Keys && Lists(self, visited, order)
    ensures Covers(g, self, RoutesOf(self, s))
    ensures Shortest(g, self, RoutesOf(self, s)) <==> exact
    ensures Positive(g) ==> (exact <==> !Exceeds(g, self))
    ensures if exact then !AllOvershoot(g, self) else SomeOvershoots(g, self)
    ensures exact ==> Ascending(s.dist, order)
  {
    FinishedCovers(g, self, s, visited, via, order, exact);
    if exact {
      FinishedShortest(g, self, s, visited, via, order);
      forall v | v != self ensures !OnlyOvershot(g, self, v) {
        FinishedFits(g, self, s, visited, v);
      }
      if Positive(g) {
        FinishedWithin(g, self, s, visited);
      }
    } else {
      FinishedDoomed(g, self, s);
    }
  }

  /** What the table of a finished run is worth. */
  ghost predicate Findings(g: Graph, self: Id, run: Run, routes: Routes) {
    && Covers(g, self, routes) && OnceEach(Expansions(run.log), routes)
    && (Shortest(g, self, routes) <==> Untruncated(g, run))
    && (Untruncated(g, run) ==> NearestFirst(Expansions(run.log), routes))
    && (Fits(g, self) ==> Untruncated(g, run))
    && (Positive(g) ==> (Untruncated(g, run) <==> !Exceeds(g, self)))
    && (if Untruncated(g, run) then !AllOvershoot(g, self) else SomeOvershoots(g, self))
  }

  /** Every run of the search, in whatever order it follows the edges, finds exactly the reachable nodes and expands
      each of them once. The costs are the distances if and only if no stored sum has been truncated; then nodes are
      expanded at their final costs, nearest first. */
  lemma SearchFinds(g: Graph, self: Id, run: Run)
    requires IsSearch(g, self, run)
    ensures run.end.dist.Keys == run.end.hop.Keys == run.visited && self in run.visited
    ensures Findings(g, self, run, RoutesOf(self, run.end))
  {
    var keys, exact := Expansions(run.log), Untruncated(g, run);
    RunKeeps(g, self, run.start, run.log, run.end, run.visited);
    var via :| Searching(g, self, run.end, run.visited, via, Nodes(keys), exact);
    FinishedEnd(g, self, run.end, run.visited, via, Nodes(keys), exact);
    FinishedOnce(self, run.visited, keys, run.end);
    if exact {
      ExpansionsKept(g, self, run.start, run.log, run.end, run.visited);
      forall k | k in keys ensures k.node != self {
        var i :| 0 <= i < |keys| && keys[i] == k;
        assert keys[i].node in RoutesOf(self, run.end);
      }
      FinishedInOrder(self, keys, run.end);
    }
  }

  /** The main loop: pops until the queue is empty, skipping nodes already visited. */
  method MainLoop(ghost g: Graph, self: Id, links: Links, start: Search)
    returns (end: Search, grown: Links, ghost run: Run)
    requires Describes(g, self, links) && IsStart(g, self, start)
    ensures IsSearch(g, self, run) && run.start == start && run.end == end
    ensures end.dist.Keys == end.hop.Keys == run.visited && grown == LookedUp(links, self, end.dist.Keys)
    ensures Findings(g, self, run, RoutesOf(self, end))
  {
    var s, visited := start, {self};
    ghost var log: seq<Turn> := [];
    NothingLookedUp(links, self);
    grown := links;
    while s.queue != multiset{}
      invariant Replays(g, self, start, log, s, visited)
      invariant grown == LookedUp(links, self, visited)
      decreases Left(visited), |s.queue|
    {
      ghost var visited0 := visited;
      s, grown, visited, log := Pop(g, self, links, grown, s, visited, start, log);
      if visited0 < visited { FewerLeft(visited0, visited); }
    }
    end, run := s, Run(start, log, s, visited);
    SearchFinds(g, self, run);
  }

  /** Two links of 40000 in a row: the second node is recorded at 14464. */
  lemma TwoLongLinks()
    ensures var g := map[0 := map[1 := 40000], 1 := map[2 := 40000]]; Positive(g) && Exceeds(g, 0)
  {
    var g: Graph := map[0 := map[1 := 40000], 1 := map[2 := 40000]];
    assert Edge(g, 0, 1) && Edge(g, 1, 2);
    assert [0, 1][1..] == [1];
    assert Joins(g, [0, 1], 0, 1) && Cost(g, [0, 1]) == 40000;
    forall p | Joins(g, p, 0, 1) ensures 40000 <= Cost(g, p) {
      assert Edge(g, p[0], p[1]);
    }
    assert IsDistance(g, 0, 1, 40000);
    assert Unforeseen(g, 0, 1, 40000, 2);
  }

  /** The last loop: copies the search into an empty routing table. */
  method FillRoutes(self: Id, s: Search) returns (routes: Routes)
    requires s.dist.Keys == s.hop.Keys
    ensures routes == RoutesOf(self, s)
  {
    routes := map[];
    var todo := s.dist.Keys;
    while todo != {}
      invariant todo <= s.dist.Keys
      invariant routes == map d | d in s.dist && d != self && d !in todo :: Route(s.dist[d], s.hop[d])
      decreases todo
    {
      var d :| d in todo;
      todo := todo - {d};
      if d != self {
        routes := routes[d := Route(s.dist[d], s.hop[d])];
      }
    }
  }

  lemma CostsDescribe(self: Id, neighbors: Neighbors, links: Links)
    ensures var g := Costs(self, neighbors, links);
            Describes(g, self, links) && self in g && g[self] == map n | n in neighbors :: neighbors[n].cost
  {
  }

  lemma RoutesKeys(self: Id, s: Search)
    requires s.dist.Keys == s.hop.Keys
    ensures RoutesOf(self, s).Keys == s.dist.Keys - {self}
  {
  }

  /** The three loops of the search, one after the other; `g` is what they run on. */
  method FindRoutes(ghost g: Graph, self: Id, neighbors: Neighbors, ports: Ports, links: Links)
    returns (grown: Links, routes: Routes, ghost run: Run)
    requires Agree(self, neighbors, ports) && Describes(g, self, links)
    requires self in g && g[self] == map n | n in neighbors :: neighbors[n].cost
    ensures IsSearch(g, self, run) && Findings(g, self, run, routes)
    ensures run.end.dist.Keys == run.end.hop.Keys && routes == RoutesOf(self, run.end)
    ensures grown == WithRows(links, routes.Keys)
  {
    var start := Start(self, neighbors, ports, g[self]);
    var end;
    end, grown, run := MainLoop(g, self, links, start);
    routes := FillRoutes(self, end);
    RoutesKeys(self, end);
  }

  /** The search over the tables of a router. */
  method ShortestPaths(self: Id, neighbors: Neighbors, ports: Ports, links: Links)
    returns (grown: Links, routes: Routes, ghost run: Run)
    requires Agree(self, neighbors, ports)
    ensures IsSearch(Costs(self, neighbors, links), self, run)
    ensures run.end.dist.Keys == run.end.hop.Keys && routes == RoutesOf(self, run.end)
    ensures Findings(Costs(self, neighbors, links), self, run, routes)
    ensures grown == WithRows(links, routes.Keys)
  {
    CostsDescribe(self, neighbors, links);
    grown, routes, run := FindRoutes(Costs(self, neighbors, links), self, neighbors, ports, links);
  }
}
