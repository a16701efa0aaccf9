/** What every router does with its neighbours, whichever protocol it runs: pongs and the check of the timeouts. */
module Contacts {
  import opened RouterTables
  import opened Words

  /** How long a neighbour stays alive without a pong, in milliseconds. */
  const PONG_TIMEOUT := 15000

  /** How long a route or a learnt edge stays alive. */
  const DV_LS_TIMEOUT := 45000

  /** How often the timeouts are checked. */
  const CHECK_PERIOD := 1000

  /** Who is at the other end of each port: at most one link to anyone, and none to oneself. */
  ghost predicate Wiring(self: Id, peer: map<Port, Id>) {
    && SPECIAL_PORT !in peer
    && (forall p | p in peer :: peer[p] != self)
    && (forall p, q | p in peer && q in peer && peer[p] == peer[q] :: p == q)
  }

  /** Neighbour table and port table are inverse to each other and agree with the wiring. */
  ghost predicate Wired(self: Id, peer: map<Port, Id>, neighbors: Neighbors, ports: Ports) {
    && Agree(self, neighbors, ports)
    && (forall p {:trigger Used(neighbors, ports, p)} | p in ports :: p in peer && peer[p] == ports[p])
  }

  // ---- Pongs ----

  /** A pong that left as a ping at `sentAt`. */
  function Rtt(now: nat, sentAt: nat): u16 {
    Truncate(now - sentAt)
  }

  /** The time between ping and pong is right while it fits 16 bits. */
  lemma RttIsRight(now: nat, sentAt: nat)
    requires sentAt <= now
    ensures Rtt(now, sentAt) == now - sentAt <==> now - sentAt < 65536
    ensures (now - sentAt - Rtt(now, sentAt)) % 65536 == 0
  {
  }

  function Met(neighbors: Neighbors, port: Port, source: Id, rtt: u16, now: nat): Neighbors {
    neighbors[source := Neighbor(rtt, port, now + PONG_TIMEOUT)]
  }

  /** A pong on a known port is from the neighbour known there; on a new port, from a new neighbour. */
  lemma PongIsFromPeer(self: Id, peer: map<Port, Id>, neighbors: Neighbors, ports: Ports, port: Port, source: Id)
    requires Wiring(self, peer) && Wired(self, peer, neighbors, ports) && port in peer && peer[port] == source
    ensures port in ports ==> ports[port] == source && source in neighbors && neighbors[source].port == port
    ensures port in ports <==> source in neighbors
    ensures source != self && port != SPECIAL_PORT
  {
    if port in ports {
      assert Used(neighbors, ports, port);
    }
    if source in neighbors {
      assert Answers(neighbors, ports, source);
      var p := neighbors[source].port;
      assert Used(neighbors, ports, p);
      assert peer[p] == peer[port];
    }
  }

  /** A pong keeps neighbour and port table inverse to each other. */
  lemma MetWired(self: Id, peer: map<Port, Id>, neighbors: Neighbors, ports: Ports, port: Port, source: Id, rtt: u16,
                 now: nat)
    requires Wiring(self, peer) && Wired(self, peer, neighbors, ports) && port in peer && peer[port] == source
    ensures Wired(self, peer, Met(neighbors, port, source, rtt, now), ports[port := source])
  {
    PongIsFromPeer(self, peer, neighbors, ports, port, source);
    var neighbors', ports' := Met(neighbors, port, source, rtt, now), ports[port := source];
    forall n | n in neighbors' ensures Answers(neighbors', ports', n) {
      if n != source {
        assert Answers(neighbors, ports, n);
        assert Used(neighbors, ports, neighbors[n].port);
      }
    }
    forall p | p in ports' ensures Used(neighbors', ports', p) && p in peer && peer[p] == ports'[p] {
      if p != port {
        assert Used(neighbors, ports, p);
        assert peer[p] != source;
      }
    }
  }

  // ---- The check of the timeouts ----

  /** The neighbours that have been silent for too long. */
  function Dead(now: nat, neighbors: Neighbors): set<Id> {
    set n | n in neighbors && now >= neighbors[n].deadline
  }

  function PortsWithout(ports: Ports, dead: set<Id>): Ports {
    map p | p in ports && ports[p] !in dead :: ports[p]
  }

  lemma BuryOne(self: Id, neighbors: Neighbors, ports: Ports, dead: set<Id>, n: Id)
    requires Agree(self, neighbors, ports) && n in neighbors && n !in dead
    ensures n in neighbors - dead && (neighbors - dead)[n] == neighbors[n]
    ensures neighbors - (dead + {n}) == (neighbors - dead) - {n}
    ensures PortsWithout(ports, dead + {n}) == PortsWithout(ports, dead) - {neighbors[n].port}
  {
    assert Answers(neighbors, ports, n);
    forall p | p in ports ensures ports[p] == n <==> p == neighbors[n].port {
      assert Used(neighbors, ports, p);
    }
  }

  /** The loop of `update_timeout` over the neighbour table. */
  method Bury(self: Id, now: nat, neighbors0: Neighbors, ports0: Ports)
    returns (neighbors: Neighbors, ports: Ports, dead: set<Id>)
    requires Agree(self, neighbors0, ports0)
    ensures dead == Dead(now, neighbors0)
    ensures neighbors == neighbors0 - dead && ports == PortsWithout(ports0, dead)
  {
    neighbors, ports, dead := neighbors0, ports0, {};
    var todo := neighbors0.Keys;
    while todo != {}
      invariant todo <= neighbors0.Keys && dead == Dead(now, neighbors0) - todo
      invariant neighbors == neighbors0 - dead && ports == PortsWithout(ports0, dead)
      decreases todo
    {
      var n :| n in todo;
      BuryOne(self, neighbors0, ports0, dead, n);
      var neighbor := neighbors[n];
      if now >= neighbor.deadline {
        dead := dead + {n};
        neighbors, ports := neighbors - {n}, ports - {neighbor.port};
      }
      todo := todo - {n};
    }
  }

  lemma BuriedWired(self: Id, peer: map<Port, Id>, neighbors: Neighbors, ports: Ports, dead: set<Id>)
    requires Wired(self, peer, neighbors, ports)
    ensures Wired(self, peer, neighbors - dead, PortsWithout(ports, dead))
  {
    var neighbors', ports' := neighbors - dead, PortsWithout(ports, dead);
    forall n | n in neighbors' ensures Answers(neighbors', ports', n) {
      assert Answers(neighbors, ports, n);
    }
    forall p | p in ports' ensures Used(neighbors', ports', p) && p in peer && peer[p] == ports'[p] {
      assert Used(neighbors, ports, p);
    }
  }
}
