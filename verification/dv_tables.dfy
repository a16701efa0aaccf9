/** What distance-vector routing does to a routing table: the advertisement and the reception. */
module DvTables {
  import opened Words
  import opened RouterTables

  const INFINITY_COST: u16 := 0xffff

  /** The entries of a DV packet. */
  type Vector = map<Id, u16>

  /** `send_DV`: the table as sent to `dest`, with poison reverse. */
  function Advertise(routes: Routes, dest: Id): Vector {
    map d | d in routes :: if routes[d].hop == dest && d != dest then INFINITY_COST else routes[d].cost
  }

  /** The sender's cost to the receiver; looking up a missing entry creates it as 0. */
  function OwnEntry(dv: Vector, self: Id): u16 {
    if self in dv then dv[self] else 0
  }

  /** The first update of `recv`: the sender's own cost may replace an indirect route to it. */
  function TakeDirect(self: Id, source: Id, dv: Vector, routes: Routes): Routes {
    if source in routes && routes[source].cost > OwnEntry(dv, self) && routes[source].hop != source
    then routes[source := Route(OwnEntry(dv, self), source)]
    else routes
  }

  /** The entries the loop of `recv` does not skip. */
  predicate Offers(self: Id, dv: Vector, d: Id) {
    d in dv && d != self && dv[d] != INFINITY_COST
  }

  function TotalCost(dv: Vector, link: u16, d: Id): u16
    requires d in dv
  {
    Truncate(dv[d] + link)
  }

  /** The route to `d` after an offer of `total` by `source`. */
  function Pick(routes: Routes, d: Id, total: u16, source: Id): Route {
    if d !in routes || routes[d].hop == source || routes[d].cost > total then Route(total, source) else routes[d]
  }

  /** The loop of `recv` after all entries but those for `todo`, in any order. */
  function MergedBut(self: Id, source: Id, link: u16, dv: Vector, routes: Routes, todo: set<Id>): Routes {
    map d | d in routes.Keys + dv.Keys && (d in routes || (Offers(self, dv, d) && d !in todo)) ::
      if Offers(self, dv, d) && d !in todo then Pick(routes, d, TotalCost(dv, link, d), source) else routes[d]
  }

  /** The routes it has confirmed or installed by then. */
  function ConfirmedBut(self: Id, source: Id, link: u16, dv: Vector, routes: Routes, todo: set<Id>): set<Id> {
    set d | d in dv && d !in todo && Offers(self, dv, d)
            && Pick(routes, d, TotalCost(dv, link, d), source).hop == source
  }

  /** `recv`: the table after a packet `dv` of the neighbour `source` at cost `link`. */
  function Receive(self: Id, source: Id, link: u16, dv: Vector, routes: Routes): Routes {
    MergedBut(self, source, link, dv, TakeDirect(self, source, dv, routes), {})
  }

  /** One turn of the loop: the entry for `d` is still untouched, and becomes the pick. */
  lemma MergeOne(self: Id, source: Id, link: u16, dv: Vector, routes: Routes, todo: set<Id>, d: Id)
    requires d in dv && d in todo
    ensures var before := MergedBut(self, source, link, dv, routes, todo);
            && (d in before <==> d in routes) && (d in routes ==> before[d] == routes[d])
            && MergedBut(self, source, link, dv, routes, todo - {d}) ==
                 if Offers(self, dv, d) then before[d := Pick(routes, d, TotalCost(dv, link, d), source)] else before
  {
  }

  lemma ConfirmOne(self: Id, source: Id, link: u16, dv: Vector, routes: Routes, todo: set<Id>, d: Id)
    requires d in dv && d in todo
    ensures ConfirmedBut(self, source, link, dv, routes, todo - {d}) ==
            if Offers(self, dv, d) && Pick(routes, d, TotalCost(dv, link, d), source).hop == source
            then ConfirmedBut(self, source, link, dv, routes, todo) + {d}
            else ConfirmedBut(self, source, link, dv, routes, todo)
  {
  }

  /** Changing an entry on which two tables agree leaves them equal only if it does nothing. */
  lemma ChangeDiffers(a: Routes, b: Routes, d: Id, route: Route)
    requires (d in a <==> d in b) && (d in a ==> a[d] == b[d])
    ensures a[d := route] == b <==> a == b && d in b && b[d] == route
  {
    if a[d := route] == b {
      assert a[d := route][d] == b[d];
      assert a == a[d := route];
    }
  }
}
