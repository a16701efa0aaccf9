/** A router in link-state mode: what it learns from LSPs, passes on and sends out itself. */
module LsRouter {
  import opened Contacts
  import opened Options
  import opened Words
  import opened Walks
  import opened RouterTables
  import opened LinkState
  import Dijkstra
  import Flooding

  /** An LSP: the neighbours of `source` with their costs, under a sequence number. */
  datatype Packet = Packet(source: Id, number: u16, entries: seq<Entry>)

  datatype Entry = Entry(neighbor: Id, cost: u16)

  /** A packet handed to the node for one port. */
  datatype Transmission = Transmission(port: Port, packet: Packet)

  /** `del_node`: drops the row of `node`, and the edges whose COST equals `node`. */
  function WithoutNode(graph: Links, node: Id): Links {
    map u | u in graph && u != node :: NotCosting(graph[u], node)
  }

  function NotCosting(row: map<Id, Link>, node: Id): map<Id, Link> {
    map v | v in row && row[v].cost != node :: row[v]
  }

  /** `graph[u][v] = link`. */
  function WithEdge(graph: Links, u: Id, v: Id, link: Link): Links {
    graph[u := Row(graph, u)[v := link]]
  }

  function WithLink(graph: Links, u: Id, v: Id, link: Link): Links {
    WithEdge(WithEdge(graph, u, v, link), v, u, link)
  }

  /** The edge from `x` to `y`, if there is one. */
  function EdgeAt(graph: Links, x: Id, y: Id): Option<Link> {
    if x in graph && y in graph[x] then Some(graph[x][y]) else None
  }

  lemma WithLinkLooksUp(graph: Links, u: Id, v: Id, link: Link, x: Id, y: Id)
    ensures EdgeAt(WithLink(graph, u, v, link), x, y) ==
            if (x == u && y == v) || (x == v && y == u) then Some(link) else EdgeAt(graph, x, y)
  {
    var graph1 := WithEdge(graph, u, v, link);
    assert EdgeAt(graph1, x, y) == if x == u && y == v then Some(link) else EdgeAt(graph, x, y);
  }

  lemma NotCostingIsRight(row: map<Id, Link>, node: Id)
    ensures NotCosting(row, node) == row - {node} <==> forall v | v in row :: row[v].cost == node <==> v == node
  {
    forall v | v in row ensures v in NotCosting(row, node) <==> row[v].cost != node {
    }
    if NotCosting(row, node) == row - {node} {
      forall v | v in row ensures row[v].cost == node <==> v == node {
        assert v in NotCosting(row, node) <==> v in row - {node};
      }
    }
  }

  /** `del_node` removes exactly the edges to the node from a row if and only if these are the edges whose cost is its
      number. */
  lemma DelNodeIsRight(graph: Links, node: Id)
    ensures (forall u | u in graph && u != node :: WithoutNode(graph, node)[u] == graph[u] - {node}) <==>
            (forall u, v | u in graph && u != node && v in graph[u] :: graph[u][v].cost == node <==> v == node)
  {
    forall u | u in graph && u != node
      ensures WithoutNode(graph, node)[u] == graph[u] - {node} <==>
              (forall v | v in graph[u] :: graph[u][v].cost == node <==> v == node)
    {
      NotCostingIsRight(graph[u], node);
    }
  }

  /** The edge to 3 costs 2, so to remove node 2 drops it, and keeps the edge to 2. */
  lemma WrongEdgeGoes(deadline: nat)
    ensures var graph := map[1 := map[2 := Link(10, deadline), 3 := Link(2, deadline)]];
            && EdgeAt(WithoutNode(graph, 2), 1, 2) == Some(Link(10, deadline))
            && EdgeAt(WithoutNode(graph, 2), 1, 3) == None
  {
  }

  /** The links of `source` entered one after the other. */
  function WithLinks(graph: Links, source: Id, entries: seq<Entry>, deadline: nat): Links {
    if entries == [] then graph else
    var last := entries[|entries| - 1];
    WithLink(WithLinks(graph, source, entries[..|entries| - 1], deadline),
             source, last.neighbor, Link(last.cost, deadline))
  }

  /** The neighbours that a flood entering at `port` goes on to. */
  function FloodTargets(neighbors: Neighbors, port: Port): set<Id> {
    set n | n in neighbors && neighbors[n].port != port
  }

  /** One copy of the packet for each of them. */
  function FloodCopies(neighbors: Neighbors, targets: set<Id>, packet: Packet): set<Transmission>
    requires targets <= neighbors.Keys
  {
    set n | n in targets :: Transmission(neighbors[n].port, packet)
  }

  /** A flood skips the neighbour it came from and nobody else, as in the flooding model;
      one that starts here skips nobody. */
  lemma FloodSkipsIngress(self: Id, neighbors: Neighbors, ports: Ports, port: Port)
    requires Agree(self, neighbors, ports)
    ensures FloodTargets(neighbors, port) ==
            if port in ports then neighbors.Keys - {ports[port]} else neighbors.Keys
    ensures FloodTargets(neighbors, SPECIAL_PORT) == neighbors.Keys
  {
    forall n | n in neighbors
      ensures neighbors[n].port != SPECIAL_PORT && (neighbors[n].port == port <==> port in ports && ports[port] == n)
    {
      assert Answers(neighbors, ports, n);
      assert Used(neighbors, ports, neighbors[n].port);
      if port in ports {
        assert Used(neighbors, ports, port);
      }
    }
  }

  /** The graph that an LSP leaves before the search. */
  function Learnt(graph: Links, packet: Packet, deadline: nat): Links {
    WithLinks(WithoutNode(graph, packet.source), packet.source, packet.entries, deadline)
  }

  /** `routes` is the outcome of `run`, a search over `learnt`, which leaves `graph`. */
  ghost predicate Outcome(self: Id, neighbors: Neighbors, learnt: Links, routes: Routes, graph: Links, run: Run) {
    forall g {:trigger IsSearch(g, self, run)} | g == Costs(self, neighbors, learnt) ::
      && IsSearch(g, self, run) && run.end.dist.Keys == run.end.hop.Keys && routes == RoutesOf(self, run.end)
      && graph == WithRows(learnt, routes.Keys)
  }

  /** What every outcome is worth: the table has exactly the reachable routers, and true distances if and only if no
      sum was truncated. */
  lemma OutcomeFinds(self: Id, neighbors: Neighbors, learnt: Links, routes: Routes, graph: Links, run: Run)
    requires Outcome(self, neighbors, learnt, routes, graph, run)
    ensures Findings(Costs(self, neighbors, learnt), self, run, routes)
  {
    assert IsSearch(Costs(self, neighbors, learnt), self, run);
    SearchFinds(Costs(self, neighbors, learnt), self, run);
  }

  /** `update_LS` writes every neighbour into every slot of the body, so one survives. */
  ghost predicate OneNeighbor(neighbors: Neighbors, entries: seq<Entry>) {
    && |entries| == |neighbors|
    && (entries == [] || exists n ::
          n in neighbors && forall i | 0 <= i < |entries| :: entries[i] == Entry(n, neighbors[n].cost))
  }

  /** The graph with the own links to `done` entered; `graph` has no row for `self` yet. */
  function Entered(graph: Links, self: Id, neighbors: Neighbors, done: set<Id>, deadline: nat): Links
    requires done <= neighbors.Keys && self !in neighbors
  {
    map u | u in graph.Keys + done + (if done == {} then {} else {self}) ::
      if u == self then OwnRow(neighbors, done, deadline)
      else if u in done then Row(graph, u)[self := Link(neighbors[u].cost, deadline)]
      else graph[u]
  }

  function OwnRow(neighbors: Neighbors, done: set<Id>, deadline: nat): map<Id, Link>
    requires done <= neighbors.Keys
  {
    map n | n in done :: Link(neighbors[n].cost, deadline)
  }

  lemma AnnounceOne(graph: Links, self: Id, neighbors: Neighbors, done: set<Id>, deadline: nat, n: Id)
    requires done <= neighbors.Keys && self !in neighbors && self !in graph && n in neighbors && n !in done
    ensures Entered(graph, self, neighbors, done + {n}, deadline) ==
            WithLink(Entered(graph, self, neighbors, done, deadline), self, n, Link(neighbors[n].cost, deadline))
  {
    var link := Link(neighbors[n].cost, deadline);
    assert OwnRow(neighbors, done, deadline)[n := link] == OwnRow(neighbors, done + {n}, deadline);
    assert OwnRow(neighbors, {}, deadline) == map[];
  }

  /** The graph without the edges that have timed out; rows stay, even when empty. */
  function Unexpired(now: nat, graph: Links): Links {
    map u | u in graph :: Live(now, graph[u])
  }

  function Live(now: nat, row: map<Id, Link>): map<Id, Link> {
    map v | v in row && now < row[v].deadline :: row[v]
  }

  /** `update_LS` on the graph: the router's own links are entered anew. */
  function OwnLinks(graph: Links, self: Id, neighbors: Neighbors, deadline: nat): Links
    requires self !in neighbors
  {
    Entered(WithoutNode(graph, self), self, neighbors, neighbors.Keys, deadline)
  }

  /** What is left of an edge when its source is removed. */
  function LeftAfter(graph: Links, source: Id, x: Id, y: Id): Option<Link> {
    if x == source || EdgeAt(graph, x, y) == None || EdgeAt(graph, x, y).value.cost == source then None
    else EdgeAt(graph, x, y)
  }

  /** Entering the own links anew leaves alone what has been learnt about other links, but for edges whose cost is the
      own number. */
  lemma OwnLinksLookUp(graph: Links, self: Id, neighbors: Neighbors, deadline: nat, x: Id, y: Id)
    requires self !in neighbors
    ensures EdgeAt(OwnLinks(graph, self, neighbors, deadline), x, y) ==
            if x == self && y in neighbors then Some(Link(neighbors[y].cost, deadline))
            else if x in neighbors && y == self then Some(Link(neighbors[x].cost, deadline))
            else LeftAfter(graph, self, x, y)
  {
    assert EdgeAt(WithoutNode(graph, self), x, y) == LeftAfter(graph, self, x, y);
  }

  ghost predicate OwnEdges(before: Links, after: Links, self: Id, neighbors: Neighbors, deadline: nat) {
    forall x, y {:trigger EdgeAt(after, x, y)} ::
      EdgeAt(after, x, y) ==
      if x == self && y in neighbors then Some(Link(neighbors[y].cost, deadline))
      else if x in neighbors && y == self then Some(Link(neighbors[x].cost, deadline))
      else LeftAfter(before, self, x, y)
  }

  lemma OwnLinksEdges(graph: Links, self: Id, neighbors: Neighbors, deadline: nat)
    requires self !in neighbors
    ensures OwnEdges(graph, OwnLinks(graph, self, neighbors, deadline), self, neighbors, deadline)
  {
    forall x, y {
      OwnLinksLookUp(graph, self, neighbors, deadline, x, y);
    }
  }

  /** Exactly the edges whose time has come are gone. */
  lemma UnexpiredLooksUp(now: nat, graph: Links, x: Id, y: Id)
    ensures EdgeAt(Unexpired(now, graph), x, y) ==
            if EdgeAt(graph, x, y).Some? && now < EdgeAt(graph, x, y).value.deadline then EdgeAt(graph, x, y) else None
  {
  }

  /** A flood sends one copy to each neighbour but the one it came from, on the port that leads there. */
  lemma FloodReaches(self: Id, neighbors: Neighbors, ports: Ports, port: Port, packet: Packet, n: Id)
    requires Agree(self, neighbors, ports)
    ensures var copies := FloodCopies(neighbors, FloodTargets(neighbors, port), packet);
            && (forall c | c in copies :: c.packet == packet && c.port in ports && c.port != port)
            && ((exists c :: c in copies && c.port in ports && ports[c.port] == n) <==>
                n in neighbors && !(port in ports && ports[port] == n))
  {
    var copies := FloodCopies(neighbors, FloodTargets(neighbors, port), packet);
    forall c | c in copies ensures c.packet == packet && c.port in ports && c.port != port {
      var m :| m in FloodTargets(neighbors, port) && c == Transmission(neighbors[m].port, packet);
      assert Answers(neighbors, ports, m);
    }
    if n in neighbors {
      assert Answers(neighbors, ports, n);
      if neighbors[n].port != port {
        assert n in FloodTargets(neighbors, port) && Transmission(neighbors[n].port, packet) in copies;
      }
    }
    assert port in ports ==> Used(neighbors, ports, port);
    if c :| c in copies && c.port in ports && ports[c.port] == n {
      var m :| m in FloodTargets(neighbors, port) && c == Transmission(neighbors[m].port, packet);
      assert Answers(neighbors, ports, m);
    }
  }

  /** Looking up a missing route creates one: over router 0, at no cost. */
  function LookedUpRoute(routes: Routes, dest: Id): Routes {
    if dest in routes then routes else routes[dest := Route(0, 0)]
  }

  /** Data for a neighbour with such an entry goes to router 0, which is right only if it is router 0. */
  lemma LookedUpRouteMisleads(self: Id, neighbors: Neighbors, ports: Ports, routes: Routes, dest: Id)
    requires Agree(self, neighbors, ports) && dest in neighbors && dest !in routes
    ensures OutPort(self, neighbors, LookedUpRoute(routes, dest), dest) == Some(neighbors[dest].port) <==> dest == 0
  {
    assert Answers(neighbors, ports, dest);
    if 0 in neighbors {
      assert Answers(neighbors, ports, 0);
    }
  }

  /** The neighbours in the order in which the table is iterated. */
  ghost predicate Orders(neighbors: Neighbors, order: seq<Id>) {
    |order| == |neighbors| && (forall n :: n in order <==> n in neighbors)
  }

  method Listed(neighbors: Neighbors) returns (order: seq<Id>)
    ensures Orders(neighbors, order)
  {
    order := [];
    var todo := neighbors.Keys;
    while todo != {}
      invariant todo <= neighbors.Keys && |order| + |todo| == |neighbors|
      invariant forall n :: n in order <==> n in neighbors && n !in todo
      decreases todo
    {
      var n :| n in todo;
      order, todo := order + [n], todo - {n};
    }
  }

  /** The body of an LSP: for every slot the inner loop writes all neighbours into it, one over the other. */
  method Body(neighbors: Neighbors) returns (entries: seq<Entry>)
    ensures OneNeighbor(neighbors, entries)
  {
    var order := Listed(neighbors);
    var slots := new Entry[|order|];
    var i := 0;
    while i < |order|
      invariant 0 <= i <= |order|
      invariant forall k :: 0 <= k < i ==> slots[k] == Entry(order[|order| - 1], neighbors[order[|order| - 1]].cost)
    {
      var j := 0;
      while j < |order|
        invariant 0 <= j <= |order|
        invariant forall k :: 0 <= k < i ==> slots[k] == Entry(order[|order| - 1], neighbors[order[|order| - 1]].cost)
        invariant j > 0 ==> slots[i] == Entry(order[j - 1], neighbors[order[j - 1]].cost)
      {
        slots[i] := Entry(order[j], neighbors[order[j]].cost);
        j := j + 1;
      }
      i := i + 1;
    }
    entries := slots[..];
    if entries != [] {
      assert order[|order| - 1] in neighbors;
    }
  }

  /** The first loop of `update_LS`, in any order of the neighbours. */
  method AddNeighbors(self: Id, neighbors: Neighbors, graph0: Links, deadline: nat) returns (graph: Links)
    requires self !in neighbors && self !in graph0
    ensures graph == Entered(graph0, self, neighbors, neighbors.Keys, deadline)
  {
    graph := graph0;
    var todo := neighbors.Keys;
    ghost var done: set<Id> := {};
    while todo != {}
      invariant todo !! done && todo + done == neighbors.Keys
      invariant graph == Entered(graph0, self, neighbors, done, deadline)
      decreases todo
    {
      var n :| n in todo;
      AnnounceOne(graph0, self, neighbors, done, deadline, n);
      graph := WithLink(graph, self, n, Link(neighbors[n].cost, deadline));
      todo, done := todo - {n}, done + {n};
    }
    assert done == neighbors.Keys;
  }

  class Router {
    const id: Id
    const peer: map<Port, Id>
    var now: nat
    var neighbors: Neighbors
    var ports: Ports
    var graph: Links
    var routes: Routes
    var maxSequence: map<Id, u16>
    var sequence: nat
    var outbox: seq<set<Transmission>>

    ghost predicate Valid()
      reads `neighbors, `ports
    {
      Wiring(id, peer) && Wired(id, peer, neighbors, ports)
    }

    constructor (id: Id, peer: map<Port, Id>)
      requires Wiring(id, peer)
      ensures Valid() && this.id == id && this.peer == peer && neighbors == map[] && ports == map[] && graph == map[]
      ensures routes == map[] && maxSequence == map[] && sequence == 0 && outbox == [] && now == 0
    {
      this.id, this.peer, now, sequence := id, peer, 0, 0;
      neighbors, ports, graph, routes, maxSequence, outbox := map[], map[], map[], map[], map[], [];
    }

    /** Dijkstra over the tables; nothing else of the router changes. */
    method UpdateForwardingTable() returns (ghost run: Run)
      requires Valid()
      modifies `graph, `routes
      ensures Outcome(id, neighbors, old(graph), routes, graph, run)
    {
      graph, routes, run := ShortestPaths(id, neighbors, ports, graph);
    }

    method DelNode(node: Id)
      modifies `graph
      ensures graph == WithoutNode(old(graph), node)
    {
      var rows := graph.Keys;
      while rows != {}
        invariant rows <= old(graph).Keys
        invariant graph == map u | u in old(graph) ::
                             if u in rows then old(graph)[u] else NotCosting(old(graph)[u], node)
        decreases rows
      {
        var u :| u in rows;
        rows := rows - {u};
        graph := graph[u := NotCosting(graph[u], node)];
      }
      graph := graph - {node};
    }

    method AddEdge(u: Id, v: Id, cost: u16)
      modifies `graph
      ensures graph == WithLink(old(graph), u, v, Link(cost, now + DV_LS_TIMEOUT))
      ensures forall x, y :: EdgeAt(graph, x, y) ==
                if (x == u && y == v) || (x == v && y == u) then Some(Link(cost, now + DV_LS_TIMEOUT))
                else EdgeAt(old(graph), x, y)
    {
      forall x, y {
        WithLinkLooksUp(graph, u, v, Link(cost, now + DV_LS_TIMEOUT), x, y);
      }
      var link := Link(cost, now + DV_LS_TIMEOUT);
      graph := WithEdge(graph, u, v, link);
      graph := WithEdge(graph, v, u, link);
    }

    /** The loop of `recv_LS` over the body of the packet. */
    method EnterLinks(source: Id, entries: seq<Entry>)
      modifies `graph
      ensures graph == WithLinks(old(graph), source, entries, now + DV_LS_TIMEOUT)
    {
      var i := 0;
      while i < |entries|
        invariant i <= |entries|
        invariant graph == WithLinks(old(graph), source, entries[..i], now + DV_LS_TIMEOUT)
      {
        AddEdge(source, entries[i].neighbor, entries[i].cost);
        i := i + 1;
        assert entries[..i][..i - 1] == entries[..i - 1];
      }
      assert entries[..i] == entries;
    }

    /** Hands a copy to every neighbour except the one behind `port`. */
    method SendLs(packet: Packet, port: Port)
      modifies `outbox
      ensures outbox == old(outbox) + [FloodCopies(neighbors, FloodTargets(neighbors, port), packet)]
    {
      var sent: set<Transmission> := {};
      var todo := neighbors.Keys;
      while todo != {}
        invariant todo <= neighbors.Keys
        invariant sent == FloodCopies(neighbors, FloodTargets(neighbors, port) - todo, packet)
        decreases todo
      {
        var n :| n in todo;
        todo := todo - {n};
        if neighbors[n].port != port {
          sent := sent + {Transmission(neighbors[n].port, packet)};
        }
      }
      assert FloodTargets(neighbors, port) - {} == FloodTargets(neighbors, port);
      outbox := outbox + [sent];
    }

    /** The links of a fresh LSP replace those its source had before, and the search is run again. */
    method Learn(packet: Packet) returns (ghost run: Run)
      requires Valid()
      modifies `graph, `routes
      ensures Outcome(id, neighbors, Learnt(old(graph), packet, now + DV_LS_TIMEOUT), routes, graph, run)
    {
      ghost var learnt := Learnt(graph, packet, now + DV_LS_TIMEOUT);
      DelNode(packet.source);
      EnterLinks(packet.source, packet.entries);
      assert graph == learnt;
      run := UpdateForwardingTable();
    }

    /** A fresh LSP is recorded, entered, searched with and passed on. */
    method Accept(port: Port, packet: Packet) returns (ghost run: Run)
      requires Valid()
      modifies `maxSequence, `graph, `routes, `outbox
      ensures maxSequence == old(maxSequence)[packet.source := packet.number]
      ensures Outcome(id, neighbors, Learnt(old(graph), packet, now + DV_LS_TIMEOUT), routes, graph, run)
      ensures outbox == old(outbox) + [FloodCopies(neighbors, FloodTargets(neighbors, port), packet)]
    {
      maxSequence := maxSequence[packet.source := packet.number];
      run := Learn(packet);
      SendLs(packet, port);
    }

    /** A stale LSP changes nothing; a fresh one is accepted. */
    method RecvLs(port: Port, packet: Packet) returns (ghost run: Option<Run>)
      requires Valid()
      modifies `maxSequence, `graph, `routes, `outbox
      ensures Valid() && (run.Some? <==> Flooding.Fresh(old(maxSequence), packet.source, packet.number))
      ensures run == None ==>
                maxSequence == old(maxSequence) && graph == old(graph) && routes == old(routes) && outbox == old(outbox)
      ensures run.Some? ==>
                && maxSequence == old(maxSequence)[packet.source := packet.number]
                && Outcome(id, neighbors, Learnt(old(graph), packet, now + DV_LS_TIMEOUT), routes, graph, run.value)
                && outbox == old(outbox) + [FloodCopies(neighbors, FloodTargets(neighbors, port), packet)]
    {
      run := None;
      if packet.source in maxSequence && maxSequence[packet.source] >= packet.number {
        return;
      }
      ghost var found := Accept(port, packet);
      return Some(found);
    }

    method OwnLsp() returns (packet: Packet)
      modifies `sequence
      ensures packet.source == id && packet.number == Truncate(old(sequence)) && OneNeighbor(neighbors, packet.entries)
      ensures sequence == old(sequence) + 1
    {
      var body := Body(neighbors);
      packet := Packet(id, Truncate(sequence), body);
      sequence := sequence + 1;
    }

    method EnterOwnLinks()
      requires Agree(id, neighbors, ports)
      modifies `graph
      ensures graph == OwnLinks(old(graph), id, neighbors, now + DV_LS_TIMEOUT)
      ensures OwnEdges(old(graph), graph, id, neighbors, now + 45000)
    {
      ghost var graph0 := graph;
      ghost var bare := WithoutNode(graph, id);
      DelNode(id);
      graph := AddNeighbors(id, neighbors, graph, now + DV_LS_TIMEOUT);
      assert graph == Entered(bare, id, neighbors, neighbors.Keys, now + DV_LS_TIMEOUT);
      OwnLinksEdges(graph0, id, neighbors, now + DV_LS_TIMEOUT);
    }

    /** A packet that starts here goes to every neighbour. */
    method SendOwn(packet: Packet)
      requires Agree(id, neighbors, ports)
      modifies `outbox
      ensures outbox == old(outbox) + [FloodCopies(neighbors, neighbors.Keys, packet)]
    {
      FloodSkipsIngress(id, neighbors, ports, SPECIAL_PORT);
      SendLs(packet, SPECIAL_PORT);
    }

    /** Sends an LSP of its own; its number is kept in 16 bits. (Its parts touch different fields.) */
    method UpdateLs() returns (packet: Packet)
      requires Agree(id, neighbors, ports)
      modifies `graph, `sequence, `outbox
      ensures graph == OwnLinks(old(graph), id, neighbors, now + DV_LS_TIMEOUT)
      ensures OwnEdges(old(graph), graph, id, neighbors, now + 45000)
      ensures packet.source == id && packet.number == Truncate(old(sequence)) && OneNeighbor(neighbors, packet.entries)
      ensures sequence == old(sequence) + 1
      ensures outbox == old(outbox) + [FloodCopies(neighbors, neighbors.Keys, packet)]
    {
      packet := OwnLsp();
      SendOwn(packet);
      EnterOwnLinks();
    }

    /** The packet has been sent to every neighbour, and the graph holds the router's own links. */
    ghost predicate Announced(packet: Packet, graph0: Links, sequence0: nat, outbox0: seq<set<Transmission>>)
      requires id !in neighbors
      reads this
    {
      && packet.source == id && packet.number == Truncate(sequence0)
      && OneNeighbor(neighbors, packet.entries) && sequence == sequence0 + 1
      && graph == OwnLinks(graph0, id, neighbors, now + DV_LS_TIMEOUT)
      && OwnEdges(graph0, graph, id, neighbors, now + 45000)
      && outbox == outbox0 + [FloodCopies(neighbors, neighbors.Keys, packet)]
    }

    /** What is sent and entered when a handler has something to announce. */
    ghost predicate Announces(news: bool, graph0: Links, sequence0: nat, outbox0: seq<set<Transmission>>)
      requires id !in neighbors
      reads this
    {
      if news then exists packet :: Announced(packet, graph0, sequence0, outbox0)
      else graph == graph0 && sequence == sequence0 && outbox == outbox0
    }

    method Announce(news: bool)
      requires Agree(id, neighbors, ports)
      modifies `graph, `sequence, `outbox
      ensures Announces(news, old(graph), old(sequence), old(outbox))
    {
      if news {
        ghost var graph0, sequence0, outbox0 := graph, sequence, outbox;
        var packet := UpdateLs();
        assert Announced(packet, graph0, sequence0, outbox0);
      }
    }

    method Greet(port: Port, source: Id, rtt: u16) returns (news: bool)
      requires Valid() && port in peer && peer[port] == source
      modifies `neighbors, `ports, `routes
      ensures Valid() && (news <==> source !in old(neighbors) || old(neighbors)[source].cost != rtt)
      ensures neighbors == Met(old(neighbors), port, source, rtt, old(now))
      ensures ports == old(ports)[port := source]
      ensures routes == if port in old(ports) then LookedUpRoute(old(routes), source) else old(routes)
    {
      PongIsFromPeer(id, peer, neighbors, ports, port, source);
      MetWired(id, peer, neighbors, ports, port, source, rtt, now);
      news := true;
      if port in ports {
        news := neighbors[ports[port]].cost != rtt;
        routes := LookedUpRoute(routes, source);
      }
      neighbors, ports := Met(neighbors, port, source, rtt, now), ports[port := source];
    }

    /** A pong brings the cost of the link to a neighbour; a new one is announced. The routing table is not computed
        anew, but looking up the old cost of a known neighbour may leave an entry for it. */
    method TakePong(port: Port, source: Id, rtt: u16) returns (news: bool)
      requires Valid() && port in peer && peer[port] == source
      modifies `neighbors, `ports, `routes, `graph, `sequence, `outbox
      ensures Valid()
      ensures neighbors == Met(old(neighbors), port, source, rtt, old(now)) && ports == old(ports)[port := source]
      ensures routes == if port in old(ports) then LookedUpRoute(old(routes), source) else old(routes)
      ensures news <==> source !in old(neighbors) || old(neighbors)[source].cost != rtt
      ensures Announces(news, old(graph), old(sequence), old(outbox))
    {
      news := Greet(port, source, rtt);
      ghost var neighbors1, ports1, routes1 := neighbors, ports, routes;
      Announce(news);
      assert neighbors == neighbors1 && ports == ports1 && routes == routes1;
    }

    /** A pong to somebody else is ignored. */
    method RecvPong(port: Port, source: Id, dest: Id, sentAt: nat) returns (news: bool)
      requires Valid() && port in peer && peer[port] == source
      modifies `neighbors, `ports, `routes, `graph, `sequence, `outbox
      ensures Valid() && Announces(news, old(graph), old(sequence), old(outbox))
      ensures dest != id ==> !news && neighbors == old(neighbors) && ports == old(ports) && routes == old(routes)
      ensures dest == id ==>
                && neighbors == Met(old(neighbors), port, source, Rtt(now, sentAt), now)
                && ports == old(ports)[port := source]
                && routes == (if port in old(ports) then LookedUpRoute(old(routes), source) else old(routes))
                && (news <==> source !in old(neighbors) || old(neighbors)[source].cost != Rtt(now, sentAt))
    {
      news := false;
      if dest == id {
        news := TakePong(port, source, Rtt(now, sentAt));
      }
    }

    /** Erases the edges that have timed out. */
    method Expire()
      modifies `graph
      ensures graph == Unexpired(now, old(graph))
    {
      var rows := graph.Keys;
      while rows != {}
        invariant rows <= old(graph).Keys
        invariant graph == map u | u in old(graph) :: if u in rows then old(graph)[u] else Live(now, old(graph)[u])
        decreases rows
      {
        var u :| u in rows;
        rows := rows - {u};
        graph := graph[u := Live(now, graph[u])];
      }
    }

    /** Dead neighbours and expired edges go. */
    method Clean() returns (news: bool)
      requires Valid()
      modifies `neighbors, `ports, `graph
      ensures Valid() && graph == Unexpired(now, old(graph))
      ensures neighbors == old(neighbors) - Dead(now, old(neighbors))
      ensures ports == PortsWithout(old(ports), Dead(now, old(neighbors)))
      ensures news <==> Dead(now, old(neighbors)) != {} || graph != old(graph)
    {
      var neighbors1, ports1, dead := Bury(id, now, neighbors, ports);
      BuriedWired(id, peer, neighbors, ports, dead);
      var graph0 := graph;
      Expire();
      neighbors, ports, news := neighbors1, ports1, dead != {} || graph != graph0;
    }

    /** The check of the timeouts; what is left is announced. */
    method UpdateTimeout() returns (news: bool)
      requires Valid()
      modifies `neighbors, `ports, `graph, `sequence, `outbox
      ensures Valid()
      ensures neighbors == old(neighbors) - Dead(now, old(neighbors))
      ensures ports == PortsWithout(old(ports), Dead(now, old(neighbors)))
      ensures news <==> Dead(now, old(neighbors)) != {} || Unexpired(now, old(graph)) != old(graph)
      ensures Announces(news, Unexpired(now, old(graph)), old(sequence), old(outbox))
    {
      news := Clean();
      Announce(news);
    }
  }

  lemma OnlyOne(ids: set<Id>, x: Id)
    requires |ids| == 1 && x in ids
    ensures ids == {x}
  {
    assert |ids - {x}| == 0;
  }

  /** Such a body names every neighbour if and only if there is at most one. */
  lemma BodyIsComplete(neighbors: Neighbors, entries: seq<Entry>)
    requires OneNeighbor(neighbors, entries)
    ensures (forall n | n in neighbors :: Entry(n, neighbors[n].cost) in entries) <==> |neighbors| <= 1
  {
    if forall n | n in neighbors :: Entry(n, neighbors[n].cost) in entries {
      if entries != [] {
        var last :| last in neighbors
                    && forall i | 0 <= i < |entries| :: entries[i] == Entry(last, neighbors[last].cost);
        assert neighbors.Keys == {last};
        assert |neighbors.Keys| == 1;
      }
    } else if |neighbors| == 1 {
      var last :| last in neighbors && forall i | 0 <= i < |entries| :: entries[i] == Entry(last, neighbors[last].cost);
      OnlyOne(neighbors.Keys, last);
      assert entries[0] == Entry(last, neighbors[last].cost);
    }
  }

  /** The entry is about the edge from `x` to `y`. */
  predicate About(source: Id, e: Entry, x: Id, y: Id) {
    (x == source && y == e.neighbor) || (x == e.neighbor && y == source)
  }

  predicate LastAbout(source: Id, entries: seq<Entry>, i: int, x: Id, y: Id) {
    && 0 <= i < |entries| && About(source, entries[i], x, y)
    && forall j | i < j < |entries| :: !About(source, entries[j], x, y)
  }

  /** Of several entries about an edge the last one counts; an edge that none is about stays. */
  lemma {:induction false} WithLinksLookUp(graph: Links, source: Id, entries: seq<Entry>, deadline: nat, x: Id, y: Id)
    ensures var edge := EdgeAt(WithLinks(graph, source, entries, deadline), x, y);
            && (forall i {:trigger LastAbout(source, entries, i, x, y)} | LastAbout(source, entries, i, x, y) ::
                  edge == Some(Link(entries[i].cost, deadline)))
            && ((forall i | 0 <= i < |entries| :: !About(source, entries[i], x, y)) ==> edge == EdgeAt(graph, x, y))
    decreases |entries|
  {
    if entries == [] {
    } else {
      var before, e := entries[..|entries| - 1], entries[|entries| - 1];
      WithLinksLookUp(graph, source, before, deadline, x, y);
      WithLinkLooksUp(WithLinks(graph, source, before, deadline), source, e.neighbor, Link(e.cost, deadline), x, y);
      forall i {:trigger LastAbout(source, entries, i, x, y)} | LastAbout(source, entries, i, x, y)
        ensures EdgeAt(WithLinks(graph, source, entries, deadline), x, y) == Some(Link(entries[i].cost, deadline))
      {
        if i < |before| {
          assert !About(source, entries[|entries| - 1], x, y);
          assert LastAbout(source, before, i, x, y);
        }
      }
      if forall i | 0 <= i < |entries| :: !About(source, entries[i], x, y) {
        assert forall i | 0 <= i < |before| :: before[i] == entries[i];
      }
    }
  }

  /** What an LSP leaves of the edge from `x` to `y`: the last entry about it, or what is left without the source. */
  lemma LearntLooksUp(graph: Links, packet: Packet, deadline: nat, x: Id, y: Id)
    ensures var edge := EdgeAt(Learnt(graph, packet, deadline), x, y);
            && (forall i {:trigger LastAbout(packet.source, packet.entries, i, x, y)}
                  | LastAbout(packet.source, packet.entries, i, x, y) ::
                  edge == Some(Link(packet.entries[i].cost, deadline)))
            && ((forall i | 0 <= i < |packet.entries| :: !About(packet.source, packet.entries[i], x, y)) ==>
                  edge == LeftAfter(graph, packet.source, x, y))
  {
    WithLinksLookUp(WithoutNode(graph, packet.source), packet.source, packet.entries, deadline, x, y);
    assert EdgeAt(WithoutNode(graph, packet.source), x, y) == LeftAfter(graph, packet.source, x, y);
  }

  /** The same for an LSP that repeats one entry. */
  lemma RepeatedLooksUp(graph: Links, packet: Packet, deadline: nat, e: Entry, x: Id, y: Id)
    requires packet.entries != [] && forall i | 0 <= i < |packet.entries| :: packet.entries[i] == e
    ensures EdgeAt(Learnt(graph, packet, deadline), x, y) ==
            if About(packet.source, e, x, y) then Some(Link(e.cost, deadline))
            else LeftAfter(graph, packet.source, x, y)
  {
    LearntLooksUp(graph, packet, deadline, x, y);
    if About(packet.source, e, x, y) {
      assert LastAbout(packet.source, packet.entries, |packet.entries| - 1, x, y);
    }
  }

  lemma StaysAmong(g: Graph, a: Id, b: Id, nodes: set<Id>)
    requires a in nodes && b !in nodes && forall u, v | Edge(g, u, v) :: v in nodes
    ensures !Reaches(g, a, b)
  {
    forall p ensures !Joins(g, p, a, b) {
      if Joins(g, p, a, b) {
        WalkStaysIn(g, p, nodes);
      }
    }
  }

  /** The row of routers 1, 2 and 3, at a cost of 10 a link. */
  const ROW1: Neighbors := map[2 := Neighbor(10, 0, 15010)]
  const ROW2: Neighbors := map[1 := Neighbor(10, 0, 15010), 3 := Neighbor(10, 1, 15010)]
  const ROW3: Neighbors := map[2 := Neighbor(10, 0, 15010)]

  /** LSPs that routers 2 and 3 may send. */
  const LSP2 := Packet(2, 0, [Entry(1, 10), Entry(1, 10)])
  const LSP3 := Packet(3, 0, [Entry(2, 10)])

  lemma RowLsps()
    ensures OneNeighbor(ROW2, LSP2.entries) && OneNeighbor(ROW3, LSP3.entries)
  {
    assert ROW2.Keys == {1, 3} && |ROW2.Keys| == 2;
    assert ROW3.Keys == {2} && |ROW3.Keys| == 1;
    assert 1 in ROW2 && 2 in ROW3;
  }

  /** What router 1 knows once it has taken both. */
  function AfterBoth(first: Packet, second: Packet, deadline: nat): Links {
    Learnt(Learnt(OwnLinks(map[], 1, ROW1, deadline), first, deadline), second, deadline)
  }

  lemma KnownLast(deadline: nat, u: Id, v: Id)
    ensures EdgeAt(AfterBoth(LSP2, LSP3, deadline), 2, 3) == Some(Link(10, deadline))
    ensures EdgeAt(AfterBoth(LSP3, LSP2, deadline), u, v) != None ==> v == 1 || v == 2
  {
    var own := OwnLinks(map[], 1, ROW1, deadline);
    RepeatedLooksUp(Learnt(own, LSP2, deadline), LSP3, deadline, Entry(2, 10), 2, 3);
    RepeatedLooksUp(Learnt(own, LSP3, deadline), LSP2, deadline, Entry(1, 10), u, v);
    RepeatedLooksUp(own, LSP3, deadline, Entry(2, 10), u, v);
    OwnLinksLookUp(map[], 1, ROW1, deadline, u, v);
  }

  lemma TwoHops(g: Graph)
    requires Edge(g, 1, 2) && Edge(g, 2, 3)
    ensures Reaches(g, 1, 3)
  {
    assert [1, 2, 3][1..] == [2, 3] && [2, 3][1..] == [3];
    assert IsWalk(g, [2, 3]);
    assert Joins(g, [1, 2, 3], 1, 3);
  }

  lemma KnownReaches(deadline: nat)
    ensures Reaches(Costs(1, ROW1, AfterBoth(LSP2, LSP3, deadline)), 1, 3)
  {
    KnownLast(deadline, 2, 3);
    TwoHops(Costs(1, ROW1, AfterBoth(LSP2, LSP3, deadline)));
  }

  lemma KnownMisses(deadline: nat)
    ensures !Reaches(Costs(1, ROW1, AfterBoth(LSP3, LSP2, deadline)), 1, 3)
  {
    var g := Costs(1, ROW1, AfterBoth(LSP3, LSP2, deadline));
    forall u, v | Edge(g, u, v) ensures v in {1, 2} {
      KnownLast(deadline, u, v);
    }
    StaysAmong(g, 1, 3, {1, 2});
  }

  /** Routers 2 and 3 may send these LSPs, and that of router 2 names router 1 twice. Whether router 1 can reach
      router 3 depends on which LSP it has taken last. */
  lemma OrderMatters(deadline: nat)
    ensures OneNeighbor(ROW2, LSP2.entries) && OneNeighbor(ROW3, LSP3.entries)
    ensures Reaches(Costs(1, ROW1, AfterBoth(LSP2, LSP3, deadline)), 1, 3)
    ensures !Reaches(Costs(1, ROW1, AfterBoth(LSP3, LSP2, deadline)), 1, 3)
  {
    RowLsps();
    KnownReaches(deadline);
    KnownMisses(deadline);
  }
}
