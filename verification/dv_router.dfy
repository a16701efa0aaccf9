/** A router in distance-vector mode. */
module DvRouter {
  import opened Contacts
  import opened Options
  import opened Words
  import opened RouterTables
  import opened DvTables
  import opened DvHandlers

  /** A DV packet handed to the node for one port. */
  datatype Sent = Sent(port: Port, dv: Vector)

  /** `send`: one packet for each neighbour, built from the same table. */
  function Broadcast(neighbors: Neighbors, routes: Routes): map<Id, Sent> {
    map n | n in neighbors :: Sent(neighbors[n].port, Advertise(routes, n))
  }

  /** The loop of `send_DV`. */
  method BuildVector(routes: Routes, dest: Id) returns (dv: Vector)
    ensures dv == Advertise(routes, dest)
  {
    dv := map[];
    var todo := routes.Keys;
    while todo != {}
      invariant todo <= routes.Keys
      invariant dv.Keys == routes.Keys - todo
      invariant forall d | d in dv :: dv[d] == Advertise(routes, dest)[d]
      decreases todo
    {
      var d :| d in todo;
      var cost := routes[d].cost;
      if dest == routes[d].hop && d != dest {
        cost := INFINITY_COST;
      }
      todo, dv := todo - {d}, dv[d := cost];
    }
  }

  /** One entry of a DV packet: the new route, if any, and whether it is confirmed. */
  method Consider(routes: Routes, d: Id, total: u16, source: Id)
    returns (routes': Routes, confirmed: bool, changed: bool)
    ensures routes' == routes[d := Pick(routes, d, total, source)]
    ensures confirmed <==> Pick(routes, d, total, source).hop == source
    ensures changed <==> d !in routes || Pick(routes, d, total, source) != routes[d]
  {
    routes', confirmed, changed := routes, false, false;
    if d !in routes {
      routes', confirmed, changed := routes[d := Route(total, source)], true, true;
    } else {
      if routes[d].hop == source && routes[d].cost == total {
        confirmed := true;
      }
      if (routes[d].hop == source && routes[d].cost != total) || routes[d].cost > total {
        routes', confirmed, changed := routes[d := Route(total, source)], true, true;
      }
    }
  }

  /** The loop of `recv`, over the entries in any order. */
  method Merge(self: Id, source: Id, link: u16, dv: Vector, routes0: Routes, stamps0: map<Id, nat>, deadline: nat)
    returns (routes: Routes, stamps: map<Id, nat>, changed: bool)
    ensures routes == MergedBut(self, source, link, dv, routes0, {})
    ensures stamps == Stamp(stamps0, ConfirmedBut(self, source, link, dv, routes0, {}), deadline)
    ensures changed <==> routes != routes0
  {
    routes, stamps, changed := routes0, stamps0, false;
    var todo := dv.Keys;
    while todo != {}
      invariant todo <= dv.Keys
      invariant routes == MergedBut(self, source, link, dv, routes0, todo)
      invariant stamps == Stamp(stamps0, ConfirmedBut(self, source, link, dv, routes0, todo), deadline)
      invariant changed <==> routes != routes0
      decreases todo
    {
      var d :| d in todo;
      MergeOne(self, source, link, dv, routes0, todo, d);
      ConfirmOne(self, source, link, dv, routes0, todo, d);
      if Offers(self, dv, d) {
        var total := TotalCost(dv, link, d);
        ChangeDiffers(routes, routes0, d, Pick(routes0, d, total, source));
        StampOne(stamps0, ConfirmedBut(self, source, link, dv, routes0, todo), deadline, d);
        var confirmed, replaced;
        routes, confirmed, replaced := Consider(routes, d, total, source);
        changed := changed || replaced;
        if confirmed { stamps := stamps[d := deadline]; }
      }
      todo := todo - {d};
    }
  }

  /** The loop of `update`, over the routes in any order. */
  method AdjustAll(id: Id, difference: u16, neighbors: Neighbors, routes0: Routes, stamps0: map<Id, nat>, deadline: nat)
    returns (routes: Routes, stamps: map<Id, nat>)
    ensures routes == AdjustedBut(id, difference, neighbors, routes0, {})
    ensures stamps == Stamp(stamps0, ThroughBut(routes0, id, {}), deadline)
  {
    routes, stamps := routes0, stamps0;
    var todo := routes0.Keys;
    while todo != {}
      invariant todo <= routes0.Keys
      invariant routes == AdjustedBut(id, difference, neighbors, routes0, todo)
      invariant stamps == Stamp(stamps0, ThroughBut(routes0, id, todo), deadline)
      decreases todo
    {
      var d :| d in todo;
      AdjustOne(id, difference, neighbors, routes0, todo, d);
      StampOne(stamps0, ThroughBut(routes0, id, todo), deadline, d);
      var route := routes[d];
      if route.hop == id {
        route := Route(Truncate(route.cost + difference), route.hop);
        stamps := stamps[d := deadline];
      }
      if d in neighbors && neighbors[d].cost < route.cost {
        route := Route(neighbors[d].cost, d);
      }
      routes := routes[d := route];
      todo := todo - {d};
    }
  }

  /** `earseDV`: first the routes over dead neighbours are collected, then they are replaced or dropped. */
  method EraseDv(now: nat, st0: State, dead: set<Id>) returns (st: State, changed: bool)
    requires st0.stamps.Keys == st0.routes.Keys
    ensures st == Withdraw(now, st0, ThroughDead(st0.routes, dead))
    ensures changed <==> ThroughDead(st0.routes, dead) != {}
  {
    st := st0;
    var gone := ThroughDead(st0.routes, dead);
    changed := gone != {};
    var todo := gone;
    ghost var done: set<Id> := {};
    while todo != {}
      invariant todo !! done && todo + done == gone
      invariant st == Withdraw(now, st0, done)
      decreases todo
    {
      var d :| d in todo;
      WithdrawOne(now, st0, done, d);
      if d in st.neighbors {
        st := st.(routes := st.routes[d := Route(st.neighbors[d].cost, d)],
                  stamps := st.stamps[d := now + DV_LS_TIMEOUT]);
      } else {
        st := st.(routes := st.routes - {d}, stamps := st.stamps - {d});
      }
      todo, done := todo - {d}, done + {d};
    }
    assert done == gone;
  }

  /** The loop of `refresh`, over `DV_time` in any order. */
  method RefreshAll(now: nat, st0: State) returns (st: State, changed: bool)
    requires st0.stamps.Keys == st0.routes.Keys
    ensures st == AfterRefresh(now, st0)
    ensures changed <==> Expired(now, st0) != {}
  {
    st, changed := st0, false;
    var todo := st0.stamps.Keys;
    while todo != {}
      invariant todo <= st0.stamps.Keys
      invariant st == RefreshedBut(now, st0, todo)
      invariant changed <==> Expired(now, st0) - todo != {}
      decreases todo
    {
      var d :| d in todo;
      RefreshOne(now, st0, todo, d);
      if d == st.routes[d].hop {
        st := st.(stamps := st.stamps[d := now + DV_LS_TIMEOUT]);
      }
      if now >= st.stamps[d] {
        if d in st.neighbors {
          st := st.(routes := st.routes[d := Route(st.neighbors[d].cost, d)],
                    stamps := st.stamps[d := now + DV_LS_TIMEOUT]);
        } else {
          st := st.(routes := st.routes - {d}, stamps := st.stamps - {d});
        }
        changed := true;
      }
      todo := todo - {d};
    }
  }

  lemma StampNone(stamps: map<Id, nat>, deadline: nat)
    ensures Stamp(stamps, {}, deadline) == stamps
  {
  }

  /** The first part of `update`: the route to the neighbour itself. */
  method SetDirect(now: nat, st0: State, id: Id, rtt: u16) returns (st: State, update: bool)
    ensures update == Adjusts(id, rtt, st0.routes)
    ensures st == st0.(routes := DirectRoute(id, rtt, st0.routes),
                       stamps := Stamp(st0.stamps, if id !in st0.routes || update then {id} else {},
                                       now + DV_LS_TIMEOUT))
  {
    StampNone(st0.stamps, now + DV_LS_TIMEOUT);
    StampOne(st0.stamps, {}, now + DV_LS_TIMEOUT, id);
    assert {} + {id} == {id};
    st, update := st0, false;
    if id !in st.routes {
      st := st.(routes := st.routes[id := Route(rtt, id)], stamps := st.stamps[id := now + DV_LS_TIMEOUT]);
    } else {
      var nextHop := st.routes[id].hop;
      if nextHop == id || rtt < st.routes[id].cost {
        st := st.(routes := st.routes[id := Route(rtt, id)], stamps := st.stamps[id := now + DV_LS_TIMEOUT]);
        update := true;
      }
    }
  }

  /** `update` as far as the tables go. */
  method UpdateRoutes(now: nat, st0: State, id: Id, rtt: u16, oldRtt: u16) returns (st: State)
    ensures st == AfterUpdate(now, st0, id, rtt, oldRtt)
  {
    var update;
    st, update := SetDirect(now, st0, id, rtt);
    if update {
      var routes, stamps :=
        AdjustAll(id, Truncate(rtt - oldRtt), st.neighbors, st.routes, st.stamps, now + DV_LS_TIMEOUT);
      st := st.(routes := routes, stamps := stamps);
    }
  }

  /** `send`: the packets for all neighbours. */
  method BuildPackets(neighbors: Neighbors, routes: Routes) returns (packets: map<Id, Sent>)
    ensures packets == Broadcast(neighbors, routes)
  {
    packets := map[];
    var todo := neighbors.Keys;
    while todo != {}
      invariant todo <= neighbors.Keys
      invariant packets.Keys == neighbors.Keys - todo
      invariant forall n | n in packets :: packets[n] == Sent(neighbors[n].port, Advertise(routes, n))
      decreases todo
    {
      var n :| n in todo;
      var dv := BuildVector(routes, n);
      packets := packets[n := Sent(neighbors[n].port, dv)];
      todo := todo - {n};
    }
  }

  /** A direct route taken in the first step is not given up in the loop. */
  lemma DirectSticks(self: Id, source: Id, link: u16, dv: Vector, routes: Routes)
    ensures TakeDirect(self, source, dv, routes) != routes ==> Receive(self, source, link, dv, routes) != routes
  {
    var routes' := Receive(self, source, link, dv, routes);
    if TakeDirect(self, source, dv, routes) != routes {
      assert routes'[source].hop == source;
    }
  }

  /** `recv` as far as the tables go. */
  method ReceiveVector(self: Id, source: Id, link: u16, dv: Vector, routes0: Routes, stamps0: map<Id, nat>,
                       deadline: nat)
    returns (routes: Routes, stamps: map<Id, nat>, changed: bool)
    ensures routes == Receive(self, source, link, dv, routes0)
    ensures stamps == Stamp(stamps0, Confirmed(self, source, link, dv, routes0), deadline)
    ensures changed <==> routes != routes0
  {
    routes, changed := routes0, false;
    if source in routes && routes[source].cost > OwnEntry(dv, self) && routes[source].hop != source {
      routes := routes[source := Route(OwnEntry(dv, self), source)];
      changed := true;
    }
    DirectSticks(self, source, link, dv, routes0);
    ghost var routes1 := routes;
    var replaced;
    routes, stamps, replaced := Merge(self, source, link, dv, routes, stamps0, deadline);
    assert routes1 == TakeDirect(self, source, dv, routes0);
    changed := changed || replaced;
  }

  /** `recv` on the tables: a packet from no neighbour changes nothing. */
  method HandleDv(self: Id, now: nat, st0: State, port: Port, source: Id, dv: Vector) returns (st: State, changed: bool)
    requires source in st0.neighbors ==> port in st0.ports && st0.ports[port] == source
    ensures st == AfterDv(self, now, st0, source, dv)
    ensures changed <==> st.routes != st0.routes
  {
    st, changed := st0, false;
    if source in st.neighbors {
      var link := st.neighbors[st.ports[port]].cost;
      var routes, stamps;
      routes, stamps, changed := ReceiveVector(self, source, link, dv, st.routes, st.stamps, now + DV_LS_TIMEOUT);
      st := st.(routes := routes, stamps := stamps);
    }
  }

  /** `recv_pong` on the tables; the routes are looked at only if the cost of the link has changed. */
  method HandlePong(now: nat, st0: State, port: Port, source: Id, rtt: u16) returns (st: State, update: bool)
    requires port in st0.ports ==> st0.ports[port] == source && source in st0.neighbors && source in st0.routes
    ensures st == AfterPong(now, st0, port, source, rtt)
    ensures update <==> CostChanges(st0, port, rtt)
  {
    update := false;
    var oldRtt: u16 := 0;
    if port in st0.ports {
      var prevCost := st0.neighbors[st0.ports[port]].cost;
      oldRtt := st0.routes[source].cost;
      update := prevCost != rtt;
      st := st0.(neighbors := st0.neighbors[source := Neighbor(rtt, port, now + PONG_TIMEOUT)]);
    } else {
      st := st0.(neighbors := st0.neighbors[source := Neighbor(rtt, port, now + PONG_TIMEOUT)],
                 ports := st0.ports[port := source]);
      update := true;
    }
    if update {
      st := UpdateRoutes(now, st, source, rtt, oldRtt);
    }
  }

  /** Whether a check of the timeouts loses a route. */
  ghost predicate LosesRoutes(now: nat, st: State) {
    ThroughDead(st.routes, Dead(now, st.neighbors)) != {} || Expired(now, AfterErase(now, st)) != {}
  }

  lemma NobodyDead(self: Id, now: nat, st: State)
    requires Dead(now, st.neighbors) == {}
    ensures AfterErase(now, st) == st && ThroughDead(st.routes, {}) == {}
  {
    var st' := AfterErase(now, st);
    assert st'.neighbors == st.neighbors && st'.ports == st.ports;
    assert st'.routes == st.routes && st'.stamps == st.stamps;
  }

  /** A check that loses no route changes none. */
  lemma LosesOrKeeps(now: nat, st: State)
    ensures AfterTimeout(now, st).routes != st.routes ==> LosesRoutes(now, st)
  {
    if !LosesRoutes(now, st) {
      assert AfterErase(now, st).routes == st.routes;
    }
  }

  /** `update_timeout` on the tables. */
  method HandleTimeout(self: Id, now: nat, st0: State) returns (st: State, lost: bool)
    requires Agree(self, st0.neighbors, st0.ports) && Routed(self, st0)
    ensures st == AfterTimeout(now, st0)
    ensures lost <==> LosesRoutes(now, st0)
  {
    var neighbors, ports, dead := Bury(self, now, st0.neighbors, st0.ports);
    var st1 := st0.(neighbors := neighbors, ports := ports);
    lost := false;
    if dead != {} {
      st1, lost := EraseDv(now, st1, dead);
    } else {
      NobodyDead(self, now, st0);
    }
    assert st1 == AfterErase(now, st0);
    EraseRouted(self, now, st0);
    var expired;
    st, expired := RefreshAll(now, st1);
    lost := lost || expired;
  }

  class Router {
    const id: Id
    const peer: map<Port, Id>
    var now: nat
    var neighbors: Neighbors
    var ports: Ports
    var routes: Routes
    var stamps: map<Id, nat>
    var isUpdated: bool
    var outbox: seq<map<Id, Sent>>

    ghost function Tables(): State
      reads this
    {
      State(neighbors, ports, routes, stamps)
    }

    ghost predicate Valid()
      reads this
    {
      Consistent(id, peer, Tables()) && isUpdated
    }

    constructor (id: Id, peer: map<Port, Id>)
      requires Wiring(id, peer)
      ensures Valid() && this.id == id && this.peer == peer && outbox == [] && neighbors == map[]
    {
      this.id, this.peer, now := id, peer, 0;
      neighbors, ports, routes, stamps := map[], map[], map[], map[];
      isUpdated, outbox := true, [];
    }

    method Send()
      modifies `outbox
      ensures outbox == old(outbox) + [Broadcast(neighbors, routes)]
    {
      var packets := BuildPackets(neighbors, routes);
      outbox := outbox + [packets];
    }

    /** What a handler has made of the tables. */
    method Adopt(st: State)
      requires Consistent(id, peer, st)
      modifies `neighbors, `ports, `routes, `stamps
      ensures Tables() == st && Consistent(id, peer, Tables())
    {
      neighbors, ports, routes, stamps := st.neighbors, st.ports, st.routes, st.stamps;
      assert Tables() == st;
    }

    /** A change is sent on at once. */
    method Flush(changed: bool)
      requires isUpdated
      modifies `isUpdated, `outbox
      ensures isUpdated && outbox == old(outbox) + if changed then [Broadcast(neighbors, routes)] else []
    {
      isUpdated := !changed;
      if !isUpdated {
        Send();
        isUpdated := true;
      }
    }

    /** A DV packet of the router behind `port`; a change is sent on at once. */
    method RecvDv(port: Port, source: Id, dv: Vector)
      requires Valid() && port in peer && peer[port] == source
      modifies this
      ensures Valid() && now == old(now)
      ensures Tables() == AfterDv(id, now, old(Tables()), source, dv)
      ensures outbox == old(outbox) + if routes != old(routes) then [Broadcast(neighbors, routes)] else []
    {
      DvKeeps(id, peer, now, Tables(), source, dv);
      PongIsFromPeer(id, peer, neighbors, ports, port, source);
      var st, changed := HandleDv(id, now, State(neighbors, ports, routes, stamps), port, source, dv);
      Adopt(st);
      Flush(changed);
    }

    /** A pong to this router; one that brings a new cost is followed by a broadcast. */
    method TakePong(port: Port, source: Id, rtt: u16)
      requires Valid() && port in peer && peer[port] == source
      modifies this
      ensures Valid() && now == old(now)
      ensures Tables() == AfterPong(now, old(Tables()), port, source, rtt)
      ensures outbox ==
                old(outbox) + if CostChanges(old(Tables()), port, rtt) then [Broadcast(neighbors, routes)] else []
    {
      PongKeeps(id, peer, now, Tables(), port, source, rtt);
      PongIsFromPeer(id, peer, neighbors, ports, port, source);
      var st, update := HandlePong(now, State(neighbors, ports, routes, stamps), port, source, rtt);
      Adopt(st);
      Flush(update);
    }

    /** A pong to somebody else is ignored. */
    method RecvPong(port: Port, source: Id, dest: Id, sentAt: nat)
      requires Valid() && port in peer && peer[port] == source
      modifies this
      ensures Valid() && now == old(now)
      ensures dest != id ==> Tables() == old(Tables()) && outbox == old(outbox)
      ensures dest == id ==> Tables() == AfterPong(now, old(Tables()), port, source, Rtt(now, sentAt))
      ensures dest == id ==>
                outbox == old(outbox) +
                  (if CostChanges(old(Tables()), port, Rtt(now, sentAt)) then [Broadcast(neighbors, routes)] else [])
      ensures routes != old(routes) ==> dest == id && CostChanges(old(Tables()), port, Rtt(now, sentAt))
    {
      if dest == id {
        TakePong(port, source, Rtt(now, sentAt));
      }
    }

    /** The check of the timeouts; a lost route is made known at once. */
    method UpdateTimeout()
      requires Valid()
      modifies this
      ensures Valid() && now == old(now)
      ensures Tables() == AfterTimeout(now, old(Tables()))
      ensures outbox == old(outbox) + if LosesRoutes(now, old(Tables())) then [Broadcast(neighbors, routes)] else []
      ensures routes != old(routes) ==> LosesRoutes(now, old(Tables()))
    {
      TimeoutKeeps(id, peer, now, Tables());
      LosesOrKeeps(now, Tables());
      var st, lost := HandleTimeout(id, now, State(neighbors, ports, routes, stamps));
      Adopt(st);
      Flush(lost);
    }

    /** A data packet for another router is sent on exactly when there is a route to it, to its hop. */
    method ForwardData(dest: Id) returns (port: Option<Port>)
      requires Valid()
      ensures port == None <==> dest !in routes
      ensures dest in routes ==> port.value in peer && peer[port.value] == routes[dest].hop
    {
      FoundIsSent(id, peer, Tables(), dest);
      port := RecvData(id, neighbors, routes, dest);
    }
  }
}
