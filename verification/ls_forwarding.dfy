/** Hop-by-hop forwarding once every router has run the search on the same link costs. */
module LsForwarding {
  import opened Options
  import opened Words
  import opened Walks
  import opened RouterTables
  import opened LinkState
  import Dijkstra
  import LsRouter

  datatype Node = Node(neighbors: Neighbors, ports: Ports, routes: Routes)

  type Network = map<Id, Node>

  /** The links of the router `r` cost what `g` says, and its table is the one the search gives for `g`. */
  ghost predicate Informed(g: Graph, r: Id, node: Node) {
    && Agree(r, node.neighbors, node.ports)
    && r in g && g[r] == (map n | n in node.neighbors :: node.neighbors[n].cost)
    && Covers(g, r, node.routes)
    && Shortest(g, r, node.routes)
  }

  ghost predicate Converged(g: Graph, net: Network) {
    net.Keys == g.Keys && forall r {:trigger Informed(g, r, net[r])} | r in net :: Informed(g, r, net[r])
  }

  /** A search that a router has run: over which graph, how, and which graph it has left. */
  datatype Searched = Searched(learnt: Links, run: Run, left: Links)

  /** The search was over the costs `g`, and its outcome is the routing table. */
  ghost predicate HasSearched(g: Graph, r: Id, node: Node, search: Searched) {
    && Agree(r, node.neighbors, node.ports) && Costs(r, node.neighbors, search.learnt) == g
    && LsRouter.Outcome(r, node.neighbors, search.learnt, node.routes, search.left, search.run)
  }

  ghost predicate AllSearched(g: Graph, net: Network, searches: map<Id, Searched>) {
    net.Keys == searches.Keys == g.Keys &&
    forall r {:trigger HasSearched(g, r, net[r], searches[r])} | r in net :: HasSearched(g, r, net[r], searches[r])
  }

  /** Routers that have run the search on the same symmetric costs have converged, if and only if no sum at any of
      them exceeds 16 bits. */
  lemma SearchedConverges(g: Graph, net: Network, searches: map<Id, Searched>)
    requires Symmetric(g) && AllSearched(g, net, searches)
    ensures Converged(g, net) <==> forall r | r in net :: !Dijkstra.Exceeds(g, r)
  {
    forall r | r in net ensures Informed(g, r, net[r]) <==> !Dijkstra.Exceeds(g, r) {
      assert HasSearched(g, r, net[r], searches[r]);
      SearchInforms(g, r, net[r], searches[r]);
    }
  }

  lemma SearchInforms(g: Graph, r: Id, node: Node, search: Searched)
    requires Symmetric(g) && r in g && HasSearched(g, r, node, search)
    ensures Informed(g, r, node) <==> !Dijkstra.Exceeds(g, r)
  {
    LsRouter.OutcomeFinds(r, node.neighbors, search.learnt, node.routes, search.left, search.run);
    assert Dijkstra.Positive(g);
  }

  /** The router that a data packet for `dest` reaches next from `r`. */
  function Next(net: Network, r: Id, dest: Id): Option<Id> {
    if r !in net then None else
    match OutPort(r, net[r].neighbors, net[r].routes, dest)
    case None => None
    case Some(p) => if p in net[r].ports then Some(net[r].ports[p]) else None
  }

  lemma NeighborRow(g: Graph, r: Id, node: Node, h: Id)
    requires Informed(g, r, node)
    ensures Edge(g, r, h) <==> h in node.neighbors
    ensures h in node.neighbors ==> node.neighbors[h].port in node.ports && node.ports[node.neighbors[h].port] == h
  {
    if h in node.neighbors {
      assert Answers(node.neighbors, node.ports, h);
    }
  }

  /** What a shortest route says about the walk behind it. */
  lemma RouteSplits(g: Graph, r: Id, route: Route, d: Id)
    requires Symmetric(g) && IsDistance(g, r, d, route.cost) && Attains(g, r, d, route)
    ensures Edge(g, r, route.hop) && d != r
    ensures route.hop == d ==> route.cost == g[r][d]
    ensures route.hop != d ==> Reaches(g, route.hop, d) && IsDistance(g, route.hop, d, route.cost - g[r][route.hop])
  {
    var h := route.hop;
    var p :| Dijkstra.Leads(g, r, p, d, h) && IsSimple(p) && Cost(g, p) == route.cost;
    assert d != r by { assert d == p[|p| - 1]; }
    assert Joins(g, p[1..], h, d);
    assert Cost(g, p[1..]) == route.cost - g[r][h];
    if h == d {
      CostPrepend(g, r, [d]);
      assert Joins(g, [r] + [d], r, d);
    } else {
      forall q | Joins(g, q, h, d) ensures route.cost - g[r][h] <= Cost(g, q) {
        CostPrepend(g, r, q);
        assert Joins(g, [r] + q, r, d);
      }
    }
  }

  /** One hop lowers the remaining distance by exactly the cost of the link taken. */
  lemma HopGetsCloser(g: Graph, net: Network, r: Id, d: Id)
    requires Converged(g, net) && Symmetric(g) && r in net && d in net[r].routes
    ensures Next(net, r, d) == Some(net[r].routes[d].hop)
    ensures var h, c := net[r].routes[d].hop, net[r].routes[d].cost;
            && Edge(g, r, h) && h in net
            && (h == d ==> c == g[r][h])
            && (h != d ==> d in net[h].routes && c == g[r][h] + net[h].routes[d].cost)
  {
    var route := net[r].routes[d];
    assert Informed(g, r, net[r]) && Attains(g, r, d, route);
    RouteSplits(g, r, route, d);
    var h := route.hop;
    NeighborRow(g, r, net[r], h);
    assert Edge(g, h, r);
    if h != d {
      assert Informed(g, h, net[h]) && Reaches(g, h, d);
      assert Attains(g, h, d, net[h].routes[d]);
      DistanceUnique(g, h, d, net[h].routes[d].cost, route.cost - g[r][h]);
    }
  }

  /** A data packet for `d` takes the hops of `p` one after the other. */
  ghost predicate Follows(net: Network, p: seq<Id>, d: Id) {
    |p| > 1 ==> Next(net, p[0], d) == Some(p[1]) && Follows(net, p[1..], d)
  }

  /** The routers a data packet for `d` passes from `r` on: it ends at `d`, by a shortest walk. */
  ghost function Journey(g: Graph, net: Network, r: Id, d: Id): (p: seq<Id>)
    requires Converged(g, net) && Symmetric(g) && r in net && d in net[r].routes
    ensures Joins(g, p, r, d) && Follows(net, p, d) && Cost(g, p) == net[r].routes[d].cost
    decreases net[r].routes[d].cost
  {
    HopGetsCloser(g, net, r, d);
    var h := net[r].routes[d].hop;
    var p := if h == d then [d] else Journey(g, net, h, d);
    assert ([r] + p)[1..] == p;
    [r] + p
  }

  /** Every packet for a router that can be reached arrives; every other one is dropped at once. */
  lemma DeliveredOrDropped(g: Graph, net: Network, r: Id, d: Id)
    requires Converged(g, net) && Symmetric(g) && r in net && r != d
    ensures Reaches(g, r, d) ==>
              exists p :: Joins(g, p, r, d) && Follows(net, p, d) && IsDistance(g, r, d, Cost(g, p))
    ensures !Reaches(g, r, d) ==> Next(net, r, d) == None
  {
    assert Informed(g, r, net[r]);
    if Reaches(g, r, d) {
      var p := Journey(g, net, r, d);
      assert Attains(g, r, d, net[r].routes[d]);
      assert Joins(g, p, r, d) && Follows(net, p, d) && IsDistance(g, r, d, Cost(g, p));
    }
  }
}
