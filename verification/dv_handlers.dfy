/** What each handler of a router in distance-vector mode does to its tables, and what all of them keep. */
module DvHandlers {
  import opened Contacts
  import opened Options
  import opened Words
  import opened RouterTables
  import opened DvTables

  /** `stamps` is `DV_time`: when a route was last confirmed, plus `DV_LS_TIMEOUT`. */
  datatype State = State(neighbors: Neighbors, ports: Ports, routes: Routes, stamps: map<Id, nat>)

  ghost predicate HopAlive(neighbors: Neighbors, routes: Routes, d: Id) {
    d in routes && routes[d].hop in neighbors
  }

  /** Every route, except maybe those to `gone`, goes over a neighbour. */
  ghost predicate HopsAlive(neighbors: Neighbors, routes: Routes, gone: set<Id>) {
    forall d {:trigger HopAlive(neighbors, routes, d)} | d in routes && d !in gone :: HopAlive(neighbors, routes, d)
  }

  /** Every neighbour has a route, every route a stamp and a living hop. */
  ghost predicate Routed(self: Id, st: State) {
    && (forall n {:trigger st.neighbors[n]} | n in st.neighbors :: n in st.routes)
    && st.stamps.Keys == st.routes.Keys
    && self !in st.routes
    && HopsAlive(st.neighbors, st.routes, {})
  }

  ghost predicate Consistent(self: Id, peer: map<Port, Id>, st: State) {
    Wiring(self, peer) && Wired(self, peer, st.neighbors, st.ports) && Routed(self, st)
  }

  // ---- recv: a DV packet ----

  /** The routes that a packet of `source` confirms or installs. */
  function Confirmed(self: Id, source: Id, link: u16, dv: Vector, routes: Routes): set<Id> {
    ConfirmedBut(self, source, link, dv, TakeDirect(self, source, dv, routes), {})
  }

  function Stamp(stamps: map<Id, nat>, which: set<Id>, deadline: nat): (stamped: map<Id, nat>)
    ensures stamped.Keys == stamps.Keys + which
  {
    map d | d in stamps.Keys + which :: if d in which then deadline else stamps[d]
  }

  lemma StampOne(stamps: map<Id, nat>, which: set<Id>, deadline: nat, d: Id)
    ensures Stamp(stamps, which + {d}, deadline) == Stamp(stamps, which, deadline)[d := deadline]
  {
  }

  function AfterDv(self: Id, now: nat, st: State, source: Id, dv: Vector): (st': State)
    ensures st'.neighbors == st.neighbors && st'.ports == st.ports
  {
    if source !in st.neighbors then st else
    var link := st.neighbors[source].cost;
    st.(routes := Receive(self, source, link, dv, st.routes),
        stamps := Stamp(st.stamps, Confirmed(self, source, link, dv, st.routes), now + DV_LS_TIMEOUT))
  }

  // ---- recv_pong and update: the cost of a link ----

  /** The first part of `update`: the route to the neighbour itself. */
  function DirectRoute(id: Id, rtt: u16, routes: Routes): Routes {
    if id !in routes || routes[id].hop == id || rtt < routes[id].cost then routes[id := Route(rtt, id)] else routes
  }

  /** Whether the routes are adjusted: not for a neighbour that had no route at all. */
  predicate Adjusts(id: Id, rtt: u16, routes: Routes) {
    id in routes && (routes[id].hop == id || rtt < routes[id].cost)
  }

  /** One turn of the loop of `update`; the sum is kept in 16 bits. */
  function Adjusted(id: Id, difference: u16, neighbors: Neighbors, d: Id, route: Route): Route {
    var route1 := if route.hop == id then Route(Truncate(route.cost + difference), route.hop) else route;
    if d in neighbors && neighbors[d].cost < route1.cost then Route(neighbors[d].cost, d) else route1
  }

  /** The loop of `update` after all routes but those to `todo`, in any order. */
  function AdjustedBut(id: Id, difference: u16, neighbors: Neighbors, routes: Routes, todo: set<Id>): Routes {
    map d | d in routes :: if d in todo then routes[d] else Adjusted(id, difference, neighbors, d, routes[d])
  }

  function ThroughBut(routes: Routes, hop: Id, todo: set<Id>): set<Id> {
    set d | d in routes && d !in todo && routes[d].hop == hop
  }

  lemma AdjustOne(id: Id, difference: u16, neighbors: Neighbors, routes: Routes, todo: set<Id>, d: Id)
    requires d in routes && d in todo
    ensures AdjustedBut(id, difference, neighbors, routes, todo - {d}) ==
            AdjustedBut(id, difference, neighbors, routes, todo)[d := Adjusted(id, difference, neighbors, d, routes[d])]
    ensures ThroughBut(routes, id, todo - {d}) ==
            if routes[d].hop == id then ThroughBut(routes, id, todo) + {d} else ThroughBut(routes, id, todo)
  {
  }

  function AfterUpdate(now: nat, st: State, id: Id, rtt: u16, oldRtt: u16): (st': State)
    ensures st'.neighbors == st.neighbors && st'.ports == st.ports
  {
    var routes1 := DirectRoute(id, rtt, st.routes);
    var direct := if id !in st.routes || Adjusts(id, rtt, st.routes) then {id} else {};
    if Adjusts(id, rtt, st.routes) then
      var difference := Truncate(rtt - oldRtt);
      st.(routes := AdjustedBut(id, difference, st.neighbors, routes1, {}),
          stamps := Stamp(Stamp(st.stamps, direct, now + DV_LS_TIMEOUT), ThroughBut(routes1, id, {}),
                          now + DV_LS_TIMEOUT))
    else
      st.(routes := routes1, stamps := Stamp(st.stamps, direct, now + DV_LS_TIMEOUT))
  }

  /** Whether the cost of the link is news. */
  predicate CostChanges(st: State, port: Port, rtt: u16) {
    port in st.ports && st.ports[port] in st.neighbors ==> st.neighbors[st.ports[port]].cost != rtt
  }

  function Greeted(now: nat, st: State, port: Port, source: Id, rtt: u16): State {
    st.(neighbors := Met(st.neighbors, port, source, rtt, now),
        ports := if port in st.ports then st.ports else st.ports[port := source])
  }

  /** What `recv_pong` takes for the old round-trip time: the cost of the route, direct or not. */
  function OldRtt(st: State, port: Port, source: Id): u16 {
    if port in st.ports && source in st.routes then st.routes[source].cost else 0
  }

  function AfterPong(now: nat, st: State, port: Port, source: Id, rtt: u16): (st': State)
    ensures st'.neighbors == Greeted(now, st, port, source, rtt).neighbors
    ensures st'.ports == Greeted(now, st, port, source, rtt).ports
  {
    var st1 := Greeted(now, st, port, source, rtt);
    if CostChanges(st, port, rtt) then AfterUpdate(now, st1, source, rtt, OldRtt(st, port, source)) else st1
  }

  // ---- update_timeout, earseDV and refresh ----

  /** The tables without the neighbours that have been silent for too long. */
  function Buried(now: nat, st: State): State {
    var dead := Dead(now, st.neighbors);
    st.(neighbors := st.neighbors - dead, ports := PortsWithout(st.ports, dead))
  }

  /** Replaces the routes of `gone` by direct links, or drops them. */
  function Withdraw(now: nat, st: State, gone: set<Id>): State {
    st.(routes := map d | d in st.routes && (d !in gone || d in st.neighbors) ::
                    if d in gone then Route(st.neighbors[d].cost, d) else st.routes[d],
        stamps := map d | d in st.stamps && (d !in gone || d in st.neighbors) ::
                    if d in gone then now + DV_LS_TIMEOUT else st.stamps[d])
  }

  lemma WithdrawOne(now: nat, st: State, gone: set<Id>, d: Id)
    requires d in st.routes && st.stamps.Keys == st.routes.Keys && d !in gone
    ensures var st1, st2 := Withdraw(now, st, gone), Withdraw(now, st, gone + {d});
            && d in st1.routes && d in st1.stamps && st1.routes[d] == st.routes[d] && st1.stamps[d] == st.stamps[d]
            && st2 == if d in st.neighbors
                      then st1.(routes := st1.routes[d := Route(st.neighbors[d].cost, d)],
                                stamps := st1.stamps[d := now + DV_LS_TIMEOUT])
                      else st1.(routes := st1.routes - {d}, stamps := st1.stamps - {d})
  {
  }

  function ThroughDead(routes: Routes, dead: set<Id>): set<Id> {
    set d | d in routes && routes[d].hop in dead
  }

  /** Direct routes never expire here: `refresh` renews them first. */
  function RenewedBut(now: nat, st: State, todo: set<Id>): State {
    st.(stamps := map d | d in st.stamps ::
          if d !in todo && d in st.routes && st.routes[d].hop == d then now + DV_LS_TIMEOUT else st.stamps[d])
  }

  function Expired(now: nat, st: State): set<Id> {
    set d | d in st.stamps && d in st.routes && st.routes[d].hop != d && now >= st.stamps[d]
  }

  /** The loop of `refresh` after all entries but those for `todo`, in any order. */
  function RefreshedBut(now: nat, st: State, todo: set<Id>): State {
    Withdraw(now, RenewedBut(now, st, todo), Expired(now, st) - todo)
  }

  /** `refresh` on one entry: renewed, kept, replaced by the direct link, or dropped. */
  function RefreshedEntry(now: nat, st: State, d: Id, st1: State): State
    requires d in st.routes && d in st.stamps
  {
    if st.routes[d].hop == d then st1.(stamps := st1.stamps[d := now + DV_LS_TIMEOUT])
    else if now < st.stamps[d] then st1
    else if d in st.neighbors then st1.(routes := st1.routes[d := Route(st.neighbors[d].cost, d)],
                                        stamps := st1.stamps[d := now + DV_LS_TIMEOUT])
    else st1.(routes := st1.routes - {d}, stamps := st1.stamps - {d})
  }

  lemma RefreshOneUntouched(now: nat, st: State, todo: set<Id>, d: Id)
    requires d in st.routes && st.stamps.Keys == st.routes.Keys && d in todo
    ensures var st1 := RefreshedBut(now, st, todo);
            d in st1.routes && d in st1.stamps && st1.routes[d] == st.routes[d] && st1.stamps[d] == st.stamps[d]
  {
  }

  lemma ExpiredOne(now: nat, st: State, todo: set<Id>, d: Id)
    requires d in todo
    ensures Expired(now, st) - (todo - {d}) ==
            if d in Expired(now, st) then Expired(now, st) - todo + {d} else Expired(now, st) - todo
  {
  }

  lemma RefreshOneRoutes(now: nat, st: State, todo: set<Id>, d: Id)
    requires d in st.routes && st.stamps.Keys == st.routes.Keys && d in todo
    ensures RefreshedBut(now, st, todo - {d}).routes == RefreshedEntry(now, st, d, RefreshedBut(now, st, todo)).routes
  {
    ExpiredOne(now, st, todo, d);
  }

  lemma RefreshOneStamps(now: nat, st: State, todo: set<Id>, d: Id)
    requires d in st.routes && st.stamps.Keys == st.routes.Keys && d in todo
    ensures RefreshedBut(now, st, todo - {d}).stamps == RefreshedEntry(now, st, d, RefreshedBut(now, st, todo)).stamps
  {
    ExpiredOne(now, st, todo, d);
  }

  lemma RefreshOne(now: nat, st: State, todo: set<Id>, d: Id)
    requires d in st.routes && st.stamps.Keys == st.routes.Keys && d in todo
    ensures var st1 := RefreshedBut(now, st, todo);
            && d in st1.routes && d in st1.stamps && st1.routes[d] == st.routes[d] && st1.stamps[d] == st.stamps[d]
            && RefreshedBut(now, st, todo - {d}) == RefreshedEntry(now, st, d, st1)
  {
    RefreshOneUntouched(now, st, todo, d);
    RefreshOneRoutes(now, st, todo, d);
    RefreshOneStamps(now, st, todo, d);
  }

  function AfterRefresh(now: nat, st: State): State {
    RefreshedBut(now, st, {})
  }

  function AfterErase(now: nat, st: State): State {
    var st1 := Buried(now, st);
    Withdraw(now, st1, ThroughDead(st.routes, Dead(now, st.neighbors)))
  }

  function AfterTimeout(now: nat, st: State): State {
    AfterRefresh(now, AfterErase(now, st))
  }

  // ---- What every handler keeps ----

  /** A reception only adds routes that it confirms, and only through the sender. */
  lemma ReceiveKeys(self: Id, source: Id, link: u16, dv: Vector, routes: Routes)
    requires self !in routes
    ensures var routes' := Receive(self, source, link, dv, routes);
            && routes'.Keys == routes.Keys + Confirmed(self, source, link, dv, routes)
            && (forall d {:trigger routes'[d]} | d in routes' ::
                  routes'[d].hop == source || (d in routes && routes'[d] == routes[d]))
            && self !in routes'
  {
    var routes' := Receive(self, source, link, dv, routes);
    forall d | d in routes' && d !in routes ensures d in Confirmed(self, source, link, dv, routes) {
      assert Offers(self, dv, d);
    }
  }

  /** Adding routes through a neighbour, with their stamps, keeps a state routed. */
  lemma AddedRouted(self: Id, st: State, st': State, added: set<Id>, hop: Id)
    requires Routed(self, st) && st'.neighbors == st.neighbors && hop in st.neighbors
    requires st'.routes.Keys == st.routes.Keys + added && st'.stamps.Keys == st.stamps.Keys + added
    requires self !in st'.routes
    requires forall d {:trigger st'.routes[d]} | d in st'.routes ::
               st'.routes[d].hop == hop || (d in st.routes && st'.routes[d] == st.routes[d])
    ensures Routed(self, st')
  {
    forall d | d in st'.routes ensures HopAlive(st'.neighbors, st'.routes, d) {
      assert d in st.routes ==> HopAlive(st.neighbors, st.routes, d);
    }
  }

  lemma DvRouted(self: Id, now: nat, st: State, source: Id, dv: Vector)
    requires Routed(self, st)
    ensures Routed(self, AfterDv(self, now, st, source, dv))
  {
    if source in st.neighbors {
      var link := st.neighbors[source].cost;
      ReceiveKeys(self, source, link, dv, st.routes);
      AddedRouted(self, st, AfterDv(self, now, st, source, dv), Confirmed(self, source, link, dv, st.routes), source);
    }
  }

  lemma DvKeeps(self: Id, peer: map<Port, Id>, now: nat, st: State, source: Id, dv: Vector)
    requires Consistent(self, peer, st)
    ensures Consistent(self, peer, AfterDv(self, now, st, source, dv))
  {
    DvRouted(self, now, st, source, dv);
  }

  lemma GreetedWired(self: Id, peer: map<Port, Id>, now: nat, st: State, port: Port, source: Id, rtt: u16)
    requires Wiring(self, peer) && Wired(self, peer, st.neighbors, st.ports) && port in peer && peer[port] == source
    ensures var st' := Greeted(now, st, port, source, rtt);
            Wired(self, peer, st'.neighbors, st'.ports)
  {
    PongIsFromPeer(self, peer, st.neighbors, st.ports, port, source);
    MetWired(self, peer, st.neighbors, st.ports, port, source, rtt, now);
    assert port in st.ports ==> st.ports[port := source] == st.ports;
  }

  /** `update` keeps the keys of both tables equal and sends routes through neighbours only. */
  lemma UpdateKeeps(self: Id, now: nat, st: State, id: Id, rtt: u16, oldRtt: u16)
    requires st.stamps.Keys == st.routes.Keys && self !in st.routes && id != self && id in st.neighbors
    requires HopsAlive(st.neighbors, st.routes, {})
    ensures var st' := AfterUpdate(now, st, id, rtt, oldRtt);
            && st'.neighbors == st.neighbors && st'.ports == st.ports
            && st'.routes.Keys == st'.stamps.Keys == st.routes.Keys + {id}
            && HopsAlive(st.neighbors, st'.routes, {})
  {
    var st' := AfterUpdate(now, st, id, rtt, oldRtt);
    var routes1 := DirectRoute(id, rtt, st.routes);
    assert routes1.Keys == st.routes.Keys + {id};
    assert ThroughBut(routes1, id, {}) <= routes1.Keys;
    forall d | d in st'.routes ensures HopAlive(st.neighbors, st'.routes, d) {
      assert d in st.routes ==> HopAlive(st.neighbors, st.routes, d);
    }
  }

  lemma GreetedRouted(self: Id, now: nat, st: State, port: Port, source: Id, rtt: u16)
    requires Routed(self, st) && source in st.neighbors
    ensures Routed(self, Greeted(now, st, port, source, rtt))
  {
    var st' := Greeted(now, st, port, source, rtt);
    forall n | n in st'.neighbors ensures n in st'.routes {
      var was := st.neighbors[n];
    }
    forall d | d in st'.routes ensures HopAlive(st'.neighbors, st'.routes, d) {
      assert HopAlive(st.neighbors, st.routes, d);
    }
  }

  lemma UpdateRouted(self: Id, now: nat, st: State, id: Id, rtt: u16, oldRtt: u16)
    requires st.stamps.Keys == st.routes.Keys && self !in st.routes && id != self && id in st.neighbors
    requires forall n {:trigger st.neighbors[n]} | n in st.neighbors && n != id :: n in st.routes
    requires HopsAlive(st.neighbors, st.routes, {})
    ensures Routed(self, AfterUpdate(now, st, id, rtt, oldRtt))
  {
    UpdateKeeps(self, now, st, id, rtt, oldRtt);
  }

  lemma PongRouted(self: Id, now: nat, st: State, port: Port, source: Id, rtt: u16)
    requires Routed(self, st) && source != self
    requires port in st.ports ==> st.ports[port] == source && source in st.neighbors
    ensures Routed(self, AfterPong(now, st, port, source, rtt))
  {
    if CostChanges(st, port, rtt) {
      var oldRtt := OldRtt(st, port, source);
      var st1 := Greeted(now, st, port, source, rtt);
      forall d | d in st1.routes ensures HopAlive(st1.neighbors, st1.routes, d) {
        assert HopAlive(st.neighbors, st.routes, d);
      }
      UpdateRouted(self, now, st1, source, rtt, oldRtt);
    } else {
      GreetedRouted(self, now, st, port, source, rtt);
    }
  }

  lemma PongKeeps(self: Id, peer: map<Port, Id>, now: nat, st: State, port: Port, source: Id, rtt: u16)
    requires Consistent(self, peer, st) && port in peer && peer[port] == source
    ensures Consistent(self, peer, AfterPong(now, st, port, source, rtt))
  {
    PongIsFromPeer(self, peer, st.neighbors, st.ports, port, source);
    PongRouted(self, now, st, port, source, rtt);
    GreetedWired(self, peer, now, st, port, source, rtt);
  }

  /** Withdrawing every route over a hop that is no neighbour leaves a routed state. */
  lemma WithdrawRouted(self: Id, now: nat, st: State, gone: set<Id>)
    requires st.stamps.Keys == st.routes.Keys && self !in st.routes
    requires forall n {:trigger st.neighbors[n]} | n in st.neighbors :: n in st.routes
    requires HopsAlive(st.neighbors, st.routes, gone)
    ensures Routed(self, Withdraw(now, st, gone))
  {
    var st' := Withdraw(now, st, gone);
    forall d | d in st'.routes ensures HopAlive(st'.neighbors, st'.routes, d) {
      assert d !in gone ==> HopAlive(st.neighbors, st.routes, d);
    }
  }

  lemma EraseRouted(self: Id, now: nat, st: State)
    requires Routed(self, st)
    ensures Routed(self, AfterErase(now, st))
  {
    var st1, gone := Buried(now, st), ThroughDead(st.routes, Dead(now, st.neighbors));
    forall d | d in st1.routes && d !in gone ensures HopAlive(st1.neighbors, st1.routes, d) {
      assert HopAlive(st.neighbors, st.routes, d);
    }
    WithdrawRouted(self, now, st1, gone);
  }

  lemma RefreshRouted(self: Id, now: nat, st: State)
    requires Routed(self, st)
    ensures Routed(self, AfterRefresh(now, st))
  {
    var st1, gone := RenewedBut(now, st, {}), Expired(now, st) - {};
    forall d | d in st1.routes ensures HopAlive(st1.neighbors, st1.routes, d) {
      assert HopAlive(st.neighbors, st.routes, d);
    }
    WithdrawRouted(self, now, st1, gone);
  }

  lemma TimeoutKeeps(self: Id, peer: map<Port, Id>, now: nat, st: State)
    requires Consistent(self, peer, st)
    ensures Consistent(self, peer, AfterTimeout(now, st))
  {
    EraseRouted(self, now, st);
    RefreshRouted(self, now, AfterErase(now, st));
    BuriedWired(self, peer, st.neighbors, st.ports, Dead(now, st.neighbors));
  }

  /** Whatever route `recv_data` finds, it can send on. */
  lemma FoundIsSent(self: Id, peer: map<Port, Id>, st: State, dest: Id)
    requires Consistent(self, peer, st)
    ensures OutPort(self, st.neighbors, st.routes, dest) == None <==> dest !in st.routes
    ensures dest in st.routes ==>
              var port := OutPort(self, st.neighbors, st.routes, dest).value;
              port in peer && peer[port] == st.routes[dest].hop
  {
    if dest in st.routes {
      assert dest != self && HopAlive(st.neighbors, st.routes, dest);
      assert Answers(st.neighbors, st.ports, st.routes[dest].hop);
      var port := st.neighbors[st.routes[dest].hop].port;
      assert Used(st.neighbors, st.ports, port);
    }
  }

  // ---- A change of the cost of a link ----

  /** The pong runs the loop of `update`: it brings a new cost, and the neighbour has a route that is direct or
      dearer. */
  predicate Adjusting(st: State, port: Port, source: Id, rtt: u16) {
    CostChanges(st, port, rtt) && Adjusts(source, rtt, st.routes)
  }

  /** Then every route is visited once, the neighbour's own with the new cost already in. */
  lemma PongAdjusts(now: nat, st: State, port: Port, source: Id, rtt: u16, d: Id)
    requires Adjusting(st, port, source, rtt) && d in st.routes
    ensures var st' := AfterPong(now, st, port, source, rtt);
            && st'.routes.Keys == st.routes.Keys
            && st'.routes[d] == Adjusted(source, Truncate(rtt - OldRtt(st, port, source)), st'.neighbors, d,
                                         if d == source then Route(rtt, source) else st.routes[d])
            && st'.neighbors == Met(st.neighbors, port, source, rtt, now)
  {
  }

  /** The pong of a known neighbour, reached directly, brings another cost. */
  predicate CostMoves(st: State, port: Port, source: Id, rtt: u16) {
    && port in st.ports && st.ports[port] == source
    && source in st.neighbors && st.neighbors[source].cost != rtt
    && source in st.routes && st.routes[source].hop == source
  }

  /** Where the sums fit 16 bits, a rise of the round-trip time shifts a route over the link by
      exactly the rise, and a neighbour with a cheaper direct link falls back to it. */
  lemma RiseShifts(now: nat, st: State, port: Port, source: Id, rtt: u16, d: Id)
    requires CostMoves(st, port, source, rtt) && d in st.routes
    requires st.routes[source].cost < rtt && rtt as int + (rtt - st.routes[source].cost) as int < U16_RANGE
    requires st.routes[d].hop == source ==>
               st.routes[d].cost as int + (rtt - st.routes[source].cost) as int < U16_RANGE
    ensures var st' := AfterPong(now, st, port, source, rtt);
            var rise := if st.routes[d].hop == source then rtt - st.routes[source].cost else 0;
            var shifted := st.routes[d].cost as int + rise;
            && st'.routes.Keys == st.routes.Keys
            && (d == source ==> st'.routes[d] == Route(rtt, source))
            && (d != source ==>
                  st'.routes[d] == (if d in st.neighbors && st.neighbors[d].cost < shifted
                                    then Route(st.neighbors[d].cost, d) else Route(shifted, st.routes[d].hop)))
  {
    PongAdjusts(now, st, port, source, rtt, d);
  }

  /** What any pong does to the neighbour's own route. If the loop runs, the route is adjusted twice, and ends at the
      new round-trip time exactly when the second adjustment, modulo 16 bits, does not leave it below; the old time is
      that of `OldRtt`, 0 for a pong on a new port. Otherwise a missing route is entered and nothing else changes. */
  lemma OwnRouteOvershoots(now: nat, st: State, port: Port, source: Id, rtt: u16)
    ensures var routes', was := AfterPong(now, st, port, source, rtt).routes, OldRtt(st, port, source);
            && (Adjusting(st, port, source, rtt) ==>
                  && source in routes'
                  && (routes'[source] == Route(rtt, source) <==>
                      (was <= rtt && 2 * rtt as int - was as int < U16_RANGE) || 2 * rtt as int < was))
            && (!Adjusting(st, port, source, rtt) ==>
                  routes' == if CostChanges(st, port, rtt) && source !in st.routes
                             then st.routes[source := Route(rtt, source)] else st.routes)
  {
    if Adjusting(st, port, source, rtt) {
      PongAdjusts(now, st, port, source, rtt, source);
      var was := OldRtt(st, port, source);
      assert Truncate(rtt - was) == if was <= rtt then rtt - was else rtt - was + U16_RANGE;
    }
  }

  /** A link of 20 ms that becomes one of 10 ms leaves a route of cost 0. */
  lemma FallUndershoots()
    ensures var st := State(map[2 := Neighbor(20, 0, 15020)], map[0 := 2], map[2 := Route(20, 2)], map[2 := 55000]);
            AfterPong(10010, st, 0, 2, Rtt(10010, 10000)).routes[2] == Route(0, 2)
  {
  }

  /** A neighbour reached at a cost of 30 over another one, whose link falls from 40 to 20 ms, gets a route of
      cost 10. */
  lemma UndercutUndershoots()
    ensures var st := State(map[2 := Neighbor(40, 0, 15040), 3 := Neighbor(5, 1, 15005)], map[0 := 2, 1 := 3],
                            map[2 := Route(30, 3), 3 := Route(5, 3)], map[2 := 45050, 3 := 55000]);
            AfterPong(10020, st, 0, 2, Rtt(10020, 10000)).routes[2] == Route(10, 2)
  {
    var st := State(map[2 := Neighbor(40, 0, 15040), 3 := Neighbor(5, 1, 15005)], map[0 := 2, 1 := 3],
                    map[2 := Route(30, 3), 3 := Route(5, 3)], map[2 := 45050, 3 := 55000]);
    PongAdjusts(10020, st, 0, 2, 20, 2);
  }
}
