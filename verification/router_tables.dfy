/** The table entries every router keeps, whichever protocol it runs. */
module RouterTables {
  import opened Options
  import opened Words

  /** A neighbour: link cost, the port it answers on, and when it is declared dead. */
  datatype Neighbor = Neighbor(cost: u16, port: Port, deadline: nat)

  /** A routing table entry. */
  datatype Route = Route(cost: u16, hop: Id)

  type Routes = map<Id, Route>
  type Neighbors = map<Id, Neighbor>
  type Ports = map<Port, Id>

  /** The port number that marks a packet as locally generated. */
  const SPECIAL_PORT: Port := 0xffff

  /** The neighbour `n` answers on a port that leads to it. */
  ghost predicate Answers(neighbors: Neighbors, ports: Ports, n: Id) {
    n in neighbors && neighbors[n].port in ports && ports[neighbors[n].port] == n
  }

  /** The port `p` leads to a neighbour that answers on it. */
  ghost predicate Used(neighbors: Neighbors, ports: Ports, p: Port) {
    p in ports && ports[p] in neighbors && neighbors[ports[p]].port == p && p != SPECIAL_PORT
  }

  /** The neighbour table and the port table are inverse to each other. */
  ghost predicate Agree(self: Id, neighbors: Neighbors, ports: Ports) {
    && self !in neighbors
    && (forall n {:trigger Answers(neighbors, ports, n)} | n in neighbors :: Answers(neighbors, ports, n))
    && (forall p {:trigger Used(neighbors, ports, p)} | p in ports :: Used(neighbors, ports, p))
  }

  /** `recv_data`: the port a data packet for `dest` leaves on, if it is sent on at all. */
  function OutPort(self: Id, neighbors: Neighbors, routes: Routes, dest: Id): Option<Port> {
    if dest != self && dest in routes && routes[dest].hop in neighbors
    then Some(neighbors[routes[dest].hop].port)
    else None
  }

  /** Follows `recv_data` through its two lookups. */
  method RecvData(self: Id, neighbors: Neighbors, routes: Routes, dest: Id) returns (sent: Option<Port>)
    ensures sent == OutPort(self, neighbors, routes, dest)
  {
    sent := None;
    if dest == self {
      return;
    }
    if dest in routes {
      var nextHop := routes[dest].hop;
      if nextHop in neighbors {
        sent := Some(neighbors[nextHop].port);
      }
    }
  }

  /** A port that is found leads to the next hop, and to nobody else. */
  lemma SentToHop(self: Id, neighbors: Neighbors, ports: Ports, routes: Routes, dest: Id, p: Port)
    requires Agree(self, neighbors, ports) && p in ports
    ensures OutPort(self, neighbors, routes, dest) == Some(p) <==>
              dest != self && dest in routes && ports[p] == routes[dest].hop
  {
    assert Used(neighbors, ports, p);
    if dest in routes && routes[dest].hop in neighbors {
      assert Answers(neighbors, ports, routes[dest].hop);
    }
  }
}
