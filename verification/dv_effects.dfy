/** What the handlers of a distance-vector router do, entry by entry, and what that means between two routers. */
module DvEffects {
  import opened Contacts
  import opened DvHandlers
  import opened DvRouter
  import opened DvTables
  import opened RouterTables
  import opened Words

  // ---- a packet that goes out ----

  /** A router offers a destination at its own cost, but as out of reach to the router that it goes over. */
  lemma PacketSays(routes: Routes, dest: Id, d: Id)
    ensures d in Advertise(routes, dest) <==> d in routes
    ensures d in routes && routes[d].hop != dest ==> Advertise(routes, dest)[d] == routes[d].cost
    ensures d in routes && d == dest ==> Advertise(routes, dest)[d] == routes[d].cost
    ensures d in routes && routes[d].hop == dest && d != dest ==> Advertise(routes, dest)[d] == 65535
  {
  }

  /** A broadcast is one packet for each neighbour, on the port that leads to it. */
  lemma BroadcastReaches(self: Id, peer: map<Port, Id>, st: State, n: Id)
    requires Consistent(self, peer, st)
    ensures n in Broadcast(st.neighbors, st.routes) <==> n in st.neighbors
    ensures n in st.neighbors ==>
              var sent := Broadcast(st.neighbors, st.routes)[n];
              sent.port in peer && peer[sent.port] == n && sent.dv == Advertise(st.routes, n)
  {
    if n in st.neighbors {
      assert Answers(st.neighbors, st.ports, n);
      assert Used(st.neighbors, st.ports, st.neighbors[n].port);
    }
  }

  /** What `its` sends to `s` does nothing to a destination that it reaches over `s`. */
  lemma NeverGivenBack(s: Id, t: Id, link: u16, its: Routes, mine: Routes, d: Id)
    requires d != s && d != t && d in its && its[d].hop == s
    ensures var after := Receive(s, t, link, Advertise(its, s), mine);
            (d in after <==> d in mine) && (d in mine ==> after[d] == mine[d])
  {
    PacketSays(its, s, d);
  }

  // ---- a packet that comes in ----

  /** The offer of `source` for `d` is taken: there is no route, or one over `source`, or a dearer one. */
  predicate Taken(self: Id, st: State, source: Id, dv: Vector, d: Id) {
    && source in st.neighbors && d in dv && d != self && dv[d] != 65535
    && (d !in st.routes || st.routes[d].hop == source
        || st.routes[d].cost > (dv[d] + st.neighbors[source].cost) % 65536)
  }

  /** A taken offer becomes the route, stamped anew; every other route, but for that to the sender itself, stays. */
  lemma PacketTakes(self: Id, now: nat, st: State, source: Id, dv: Vector, d: Id)
    requires d != source && st.stamps.Keys == st.routes.Keys
    ensures var st' := AfterDv(self, now, st, source, dv);
            && st'.neighbors == st.neighbors && st'.ports == st.ports
            && (Taken(self, st, source, dv, d) ==>
                  && d in st'.routes && st'.routes[d] == Route((dv[d] + st.neighbors[source].cost) % 65536, source)
                  && d in st'.stamps && st'.stamps[d] == now + 45000)
            && (!Taken(self, st, source, dv, d) ==>
                  && (d in st'.routes <==> d in st.routes) && (d in st'.stamps <==> d in st.stamps)
                  && (d in st.routes ==> st'.routes[d] == st.routes[d] && st'.stamps[d] == st.stamps[d]))
  {
    if source in st.neighbors {
      var dv' := TakeDirect(self, source, dv, st.routes);
      assert (d in dv' <==> d in st.routes) && (d in st.routes ==> dv'[d] == st.routes[d]);
      if d in dv { assert TotalCost(dv, st.neighbors[source].cost, d) == (dv[d] + st.neighbors[source].cost) % 65536; }
    }
  }

  /** A dearer route to the sender over somebody else becomes the direct one, at the cost that the
      sender gives; if it gives none, at no cost. */
  lemma PacketDirects(self: Id, now: nat, st: State, source: Id, dv: Vector)
    requires source !in dv && st.stamps.Keys == st.routes.Keys
    ensures var st' := AfterDv(self, now, st, source, dv);
            var own: u16 := if self in dv then dv[self] else 0;
            && (source in st'.routes <==> source in st.routes)
            && (source in st.routes ==>
                  st'.routes[source] ==
                    if source in st.neighbors && st.routes[source].hop != source && own < st.routes[source].cost
                    then Route(own, source) else st.routes[source])
            && (source in st.stamps ==> source in st'.stamps && st'.stamps[source] == st.stamps[source])
  {
  }

  // ---- a check ----

  /** The hop has answered lately, and the route, if it is not direct, has been confirmed lately. */
  predicate Lasts(now: nat, st: State, d: Id) {
    && d in st.routes && d in st.stamps && st.routes[d].hop in st.neighbors
    && now < st.neighbors[st.routes[d].hop].deadline && (st.routes[d].hop == d || now < st.stamps[d])
  }

  /** A check leaves alone exactly the neighbours that have answered lately. */
  lemma CheckKeepsNeighbors(now: nat, st: State, n: Id)
    ensures var st' := AfterTimeout(now, st);
            && (n in st'.neighbors <==> n in st.neighbors && now < st.neighbors[n].deadline)
            && (n in st'.neighbors ==> st'.neighbors[n] == st.neighbors[n])
  {
  }

  /** A route that lasts stays as it is; every other one becomes the direct link to a living neighbour, or goes. */
  lemma CheckKeepsRoutes(now: nat, st: State, d: Id)
    requires st.stamps.Keys == st.routes.Keys && forall x | x in st.routes :: st.routes[x].hop in st.neighbors
    ensures var st' := AfterTimeout(now, st);
            && (Lasts(now, st, d) ==> d in st'.routes && st'.routes[d] == st.routes[d])
            && (!Lasts(now, st, d) ==>
                  && (d in st'.routes <==> d in st.routes && d in st.neighbors && now < st.neighbors[d].deadline)
                  && (d in st'.routes ==> st'.routes[d] == Route(st.neighbors[d].cost, d)))
  {
    EraseKeeps(now, st, d);
    RefreshKeeps(now, AfterErase(now, st), d);
  }

  lemma EraseKeeps(now: nat, st: State, d: Id)
    requires st.stamps.Keys == st.routes.Keys && forall x | x in st.routes :: st.routes[x].hop in st.neighbors
    ensures var st' := AfterErase(now, st);
            && st'.stamps.Keys == st'.routes.Keys
            && (d in st.routes && now < st.neighbors[st.routes[d].hop].deadline ==>
                  d in st'.routes && st'.routes[d] == st.routes[d] && st'.stamps[d] == st.stamps[d])
            && (d in st.routes && now >= st.neighbors[st.routes[d].hop].deadline ==>
                  && (d in st'.routes <==> d in st.neighbors && now < st.neighbors[d].deadline)
                  && (d in st'.routes ==>
                        st'.routes[d] == Route(st.neighbors[d].cost, d) && st'.stamps[d] == now + 45000))
            && (d !in st.routes ==> d !in st'.routes)
  {
  }

  lemma RefreshKeeps(now: nat, st: State, d: Id)
    requires st.stamps.Keys == st.routes.Keys
    ensures var st' := AfterRefresh(now, st);
            && st'.neighbors == st.neighbors && st'.stamps.Keys == st'.routes.Keys
            && (d in st.routes && (st.routes[d].hop == d || now < st.stamps[d]) ==>
                  && d in st'.routes && st'.routes[d] == st.routes[d]
                  && st'.stamps[d] == if st.routes[d].hop == d then now + 45000 else st.stamps[d])
            && (d in st.routes && st.routes[d].hop != d && now >= st.stamps[d] ==>
                  && (d in st'.routes <==> d in st.neighbors)
                  && (d in st'.routes ==>
                        st'.routes[d] == Route(st.neighbors[d].cost, d) && st'.stamps[d] == now + 45000))
            && (d !in st.routes ==> d !in st'.routes)
  {
  }

  /** Direct routes are dated anew, and the others keep their dates. */
  lemma CheckStamps(now: nat, st: State, d: Id)
    requires st.stamps.Keys == st.routes.Keys && forall x | x in st.routes :: st.routes[x].hop in st.neighbors
    ensures var st' := AfterTimeout(now, st);
            && st'.stamps.Keys == st'.routes.Keys
            && (d in st'.routes ==>
                  st'.stamps[d] == if st'.routes[d].hop == d then now + 45000
                                   else if d in st.stamps then st.stamps[d] else 0)
  {
    EraseKeeps(now, st, d);
    RefreshKeeps(now, AfterErase(now, st), d);
  }

  /** A check is made known exactly when some route does not last. */
  lemma CheckTells(now: nat, st: State)
    requires st.stamps.Keys == st.routes.Keys && forall x | x in st.routes :: st.routes[x].hop in st.neighbors
    ensures LosesRoutes(now, st) <==> exists d :: d in st.routes && !Lasts(now, st, d)
  {
    var erased := AfterErase(now, st);
    if d :| d in st.routes && !Lasts(now, st, d) {
      EraseKeeps(now, st, d);
      assert d in ThroughDead(st.routes, Dead(now, st.neighbors)) || d in Expired(now, erased);
    }
    if d :| d in ThroughDead(st.routes, Dead(now, st.neighbors)) {
      assert !Lasts(now, st, d);
    } else if d :| d in Expired(now, erased) {
      EraseKeeps(now, st, d);
      assert d in st.routes && !Lasts(now, st, d);
    }
  }

  // ---- a pong ----

  /** The round-trip time that a pong is compared with. */
  function Before(st: State, port: Port, source: Id): int {
    if port in st.ports && source in st.routes then st.routes[source].cost else 0
  }

  /** The neighbour's own route takes the new time, if it is direct or dearer. */
  predicate Renews(st: State, port: Port, source: Id, rtt: u16) {
    && !(port in st.ports && st.ports[port] in st.neighbors && st.neighbors[st.ports[port]].cost == rtt)
    && source in st.routes && (st.routes[source].hop == source || rtt < st.routes[source].cost)
  }

  lemma TruncateSum(c: int, x: int)
    ensures Truncate(c + Truncate(x)) == Truncate(c + x)
  {
  }

  /** The direct link to `d`, where it is cheaper. */
  function Shortcut(neighbors: Neighbors, d: Id, route: Route): Route {
    if d in neighbors && neighbors[d].cost < route.cost then Route(neighbors[d].cost, d) else route
  }

  /** A cost that has moved by `x`, in 16 bits. */
  function Shifted(cost: u16, x: int): (moved: u16)
    ensures moved as int == (cost + x) % 65536
  {
    Truncate(cost + x)
  }

  lemma AdjustedMoves(id: Id, neighbors: Neighbors, d: Id, route: Route, x: int)
    ensures Adjusted(id, Truncate(x), neighbors, d, route) ==
            Shortcut(neighbors, d, if route.hop == id then Route(Shifted(route.cost, x), id) else route)
  {
    TruncateSum(route.cost, x);
  }

  lemma ComparesWith(st: State, port: Port, source: Id, rtt: u16)
    ensures OldRtt(st, port, source) == Before(st, port, source)
    ensures Adjusting(st, port, source, rtt) <==> Renews(st, port, source, rtt)
  {
  }

  lemma PongShortcuts(now: nat, st: State, port: Port, source: Id, rtt: u16, d: Id, route: Route)
    requires d in st.routes && Adjusting(st, port, source, rtt)
    requires route == if d == source then Route(rtt, source) else st.routes[d]
    ensures var st' := AfterPong(now, st, port, source, rtt);
            && d in st'.routes && st'.neighbors == Met(st.neighbors, port, source, rtt, now)
            && st'.routes[d] == Shortcut(st'.neighbors, d,
                                         if route.hop == source
                                         then Route(Shifted(route.cost, rtt - OldRtt(st, port, source)), source)
                                         else route)
  {
    PongAdjusts(now, st, port, source, rtt, d);
    AdjustedMoves(source, Met(st.neighbors, port, source, rtt, now), d, route, rtt - OldRtt(st, port, source));
  }

  /** Then routes over the neighbour move by the difference, in 16 bits; and wherever a direct link is cheaper it takes
      over. */
  lemma PongMoves(now: nat, st: State, port: Port, source: Id, rtt: u16, d: Id)
    requires d in st.routes && d != source && Renews(st, port, source, rtt)
    ensures var st' := AfterPong(now, st, port, source, rtt);
            && d in st'.routes
            && st'.routes[d] == Shortcut(st.neighbors, d,
                                         if st.routes[d].hop == source
                                         then Route(Shifted(st.routes[d].cost, rtt - Before(st, port, source)), source)
                                         else st.routes[d])
  {
    ComparesWith(st, port, source, rtt);
    PongShortcuts(now, st, port, source, rtt, d, st.routes[d]);
  }

  /** The neighbour's own route moves once more from the new time on. */
  lemma PongMovesOwn(now: nat, st: State, port: Port, source: Id, rtt: u16)
    requires Renews(st, port, source, rtt)
    ensures var st' := AfterPong(now, st, port, source, rtt);
            var cost := Shifted(rtt, rtt - Before(st, port, source));
            source in st'.routes && st'.routes[source] == Route(if rtt < cost then rtt else cost, source)
  {
    ComparesWith(st, port, source, rtt);
    PongShortcuts(now, st, port, source, rtt, source, Route(rtt, source));
  }

  /** Without that no route changes but for a missing one. */
  lemma PongLeaves(now: nat, st: State, port: Port, source: Id, rtt: u16, d: Id)
    requires d in st.routes && !Renews(st, port, source, rtt)
    ensures var st' := AfterPong(now, st, port, source, rtt); d in st'.routes && st'.routes[d] == st.routes[d]
  {
  }

  /** The routes that have moved are dated anew. */
  lemma PongStamps(now: nat, st: State, port: Port, source: Id, rtt: u16, d: Id)
    requires st.stamps.Keys == st.routes.Keys && d in st.routes
    ensures var st' := AfterPong(now, st, port, source, rtt);
            && d in st'.stamps
            && st'.stamps[d] == if Renews(st, port, source, rtt) && (d == source || st.routes[d].hop == source)
                                then now + 45000 else st.stamps[d]
  {
  }

  /** A pong enters its sender, with its time and for fifteen seconds, and nobody else. */
  lemma PongEnters(now: nat, st: State, port: Port, source: Id, rtt: u16, n: Id)
    ensures var st' := AfterPong(now, st, port, source, rtt);
            && (n in st'.neighbors <==> n == source || n in st.neighbors)
            && (n in st'.neighbors ==>
                  st'.neighbors[n] == if n == source then Neighbor(rtt, port, now + 15000) else st.neighbors[n])
            && (n in st'.routes <==> n in st.routes || (n == source && st'.routes != st.routes))
  {
  }

  /** A missing route to the sender of a pong is entered, if the pong brings a new cost. */
  lemma PongFinds(now: nat, st: State, port: Port, source: Id, rtt: u16)
    requires st.stamps.Keys == st.routes.Keys && source !in st.routes
    ensures var st' := AfterPong(now, st, port, source, rtt);
            if port in st.ports && st.ports[port] in st.neighbors && st.neighbors[st.ports[port]].cost == rtt
            then st'.routes == st.routes && st'.stamps == st.stamps
            else st'.routes == st.routes[source := Route(rtt, source)] && st'.stamps == st.stamps[source := now + 45000]
  {
  }
}
