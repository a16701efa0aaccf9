/** Distance vector over fixed links: what holds of the tables, and that sound packets keep it. */
module DvStatic {
  import opened Words
  import opened Walks
  import opened RouterTables
  import opened DvTables

  /** The routing table of each router. */
  type Tables = map<Id, Routes>

  /** Going over any link and on by any simple walk stays below the infinite cost. */
  ghost predicate FitsVector(g: Graph) {
    forall r, p {:trigger IsSimple(p), g[r]} |
      IsWalk(g, p) && IsSimple(p) && Edge(g, r, p[0]) :: g[r][p[0]] + Cost(g, p) < INFINITY_COST
  }

  /** A network: symmetric links between known routers. */
  ghost predicate Fixed(g: Graph) {
    Symmetric(g) && FitsVector(g)
  }

  /** Every router starts with the routes to its neighbours. */
  function Direct(g: Graph): Tables {
    map r | r in g :: map n | n in g[r] :: Route(g[r][n], n)
  }

  /** A packet on its way. */
  datatype Message = Message(from: Id, to: Id, dv: Vector)

  /** `to` handles the packet `dv` of `from`. */
  function Accept(g: Graph, tables: Tables, from: Id, to: Id, dv: Vector): Tables
    requires Edge(g, to, from) && to in tables
  {
    tables[to := Receive(to, from, g[to][from], dv, tables[to])]
  }

  /** `to` handles a packet that `from` has just built for it. */
  function Deliver(g: Graph, tables: Tables, from: Id, to: Id): Tables
    requires Edge(g, to, from) && from in tables && to in tables
  {
    Accept(g, tables, from, to, Advertise(tables[from], to))
  }

  // ---- The invariant ----

  ghost predicate HasRoute(tables: Tables, r: Id, d: Id) {
    r in tables && d in tables[r]
  }

  function CostOf(tables: Tables, r: Id, d: Id): u16
    requires r in tables && d in tables[r]
  {
    tables[r][d].cost
  }

  /** The hop is a neighbour that is nearer to `d` by at least the link, or `d` itself. */
  ghost predicate Descends(g: Graph, tables: Tables, r: Id, d: Id)
    requires HasRoute(tables, r, d)
  {
    var h := tables[r][d].hop;
    Edge(g, r, h) &&
    (h == d || (HasRoute(tables, h, d) && CostOf(tables, h, d) as int + g[r][h] as int <= CostOf(tables, r, d)))
  }

  /** The cost is the length of a walk. */
  ghost predicate IsLength(g: Graph, r: Id, d: Id, c: int) {
    exists p :: Joins(g, p, r, d) && Cost(g, p) == c
  }

  /** Every router on `p` but the last has a route to `d` no longer than the rest of `p`. */
  ghost predicate Dominates(g: Graph, tables: Tables, p: seq<Id>, d: Id)
    requires IsWalk(g, p)
    decreases |p|
  {
    |p| > 1 ==> HasRoute(tables, p[0], d) && CostOf(tables, p[0], d) <= Cost(g, p) && Dominates(g, tables, p[1..], d)
  }

  ghost predicate Backs(g: Graph, tables: Tables, p: seq<Id>, r: Id, d: Id) {
    Joins(g, p, r, d) && IsSimple(p) && |p| > 1 && Dominates(g, tables, p, d)
  }

  ghost predicate Backed(g: Graph, tables: Tables, r: Id, d: Id) {
    exists p :: Backs(g, tables, p, r, d)
  }

  ghost predicate EntryOk(g: Graph, tables: Tables, r: Id, d: Id)
    requires HasRoute(tables, r, d)
  {
    Descends(g, tables, r, d) && IsLength(g, r, d, CostOf(tables, r, d)) && Backed(g, tables, r, d)
  }

  ghost predicate RowOk(g: Graph, tables: Tables, r: Id)
    requires r in tables
  {
    && r !in tables[r]
    && (forall n | Edge(g, r, n) :: n in tables[r] && CostOf(tables, r, n) <= g[r][n])
    && (forall d {:trigger EntryOk(g, tables, r, d)} | d in tables[r] :: EntryOk(g, tables, r, d))
  }

  ghost predicate Inv(g: Graph, tables: Tables) {
    && tables.Keys == g.Keys
    && forall r {:trigger RowOk(g, tables, r)} | r in tables :: RowOk(g, tables, r)
  }

  lemma DirectInv(g: Graph)
    requires Fixed(g)
    ensures Inv(g, Direct(g))
  {
    var tables := Direct(g);
    forall r | r in tables ensures RowOk(g, tables, r) {
      forall d | d in tables[r] ensures EntryOk(g, tables, r, d) {
        assert Edge(g, r, d);
        var p := [r, d];
        assert p[1..] == [d];
        assert IsWalk(g, [d]) && Cost(g, [d]) == 0;
        assert Joins(g, p, r, d) && IsSimple(p) && Cost(g, p) == g[r][d];
        assert Backs(g, tables, p, r, d);
      }
    }
  }

  // ---- Sound packets ----

  ghost predicate BackedAt(g: Graph, tables: Tables, r: Id, d: Id, c: int) {
    exists p :: Backs(g, tables, p, r, d) && c <= Cost(g, p)
  }

  /** `r` has had a route to `d` of cost `c`, and has one that is no dearer. */
  ghost predicate Held(g: Graph, tables: Tables, r: Id, d: Id, c: int) {
    && HasRoute(tables, r, d) && CostOf(tables, r, d) <= c
    && IsLength(g, r, d, c) && BackedAt(g, tables, r, d, c)
  }

  /** The packet says what the table of `s` was at some time; it may be old. */
  ghost predicate SoundVector(g: Graph, tables: Tables, s: Id, t: Id, dv: Vector) {
    && s !in dv && t in dv && dv[t] != INFINITY_COST
    && forall d {:trigger Held(g, tables, s, d, dv[d])} | d in dv && dv[d] != INFINITY_COST ::
         Held(g, tables, s, d, dv[d])
  }

  /** It is no older than the routes of `t` over `s`. */
  ghost predicate Undercuts(g: Graph, tables: Tables, s: Id, t: Id, dv: Vector)
    requires Edge(g, t, s)
  {
    forall d {:trigger HasRoute(tables, t, d)}
      | d in dv && dv[d] != INFINITY_COST && HasRoute(tables, t, d) && tables[t][d].hop == s ::
      dv[d] as int + g[t][s] as int <= CostOf(tables, t, d)
  }

  ghost predicate Acceptable(g: Graph, tables: Tables, s: Id, t: Id, dv: Vector) {
    Edge(g, t, s) && t in tables && s in tables && SoundVector(g, tables, s, t, dv) && Undercuts(g, tables, s, t, dv)
  }

  lemma HeldBelowInfinity(g: Graph, tables: Tables, r: Id, d: Id, c: int, t: Id)
    requires Fixed(g) && Held(g, tables, r, d, c) && Edge(g, t, r)
    ensures c + g[t][r] as int < INFINITY_COST
  {
    var p :| Backs(g, tables, p, r, d) && c <= Cost(g, p);
    assert g[t][p[0]] + Cost(g, p) < INFINITY_COST;
  }

  lemma StoredIsHeld(g: Graph, tables: Tables, r: Id, d: Id)
    requires Inv(g, tables) && HasRoute(tables, r, d)
    ensures Held(g, tables, r, d, CostOf(tables, r, d))
  {
    assert RowOk(g, tables, r) && EntryOk(g, tables, r, d);
    var p :| Backs(g, tables, p, r, d);
    assert CostOf(tables, r, d) <= Cost(g, p);
  }

  lemma CostBelowInfinity(g: Graph, tables: Tables, r: Id, d: Id, t: Id)
    requires Fixed(g) && Inv(g, tables) && HasRoute(tables, r, d) && Edge(g, t, r)
    ensures CostOf(tables, r, d) as int + g[t][r] as int < INFINITY_COST
  {
    StoredIsHeld(g, tables, r, d);
    HeldBelowInfinity(g, tables, r, d, CostOf(tables, r, d), t);
  }

  /** A packet just built is sound, and newer than anything its receiver knows. */
  lemma FreshIsAcceptable(g: Graph, tables: Tables, s: Id, t: Id)
    requires Fixed(g) && Inv(g, tables) && Edge(g, t, s) && t in tables && s in tables
    ensures Acceptable(g, tables, s, t, Advertise(tables[s], t))
  {
    var dv := Advertise(tables[s], t);
    assert RowOk(g, tables, s) && RowOk(g, tables, t) && Edge(g, s, t);
    assert HasRoute(tables, s, t);
    CostBelowInfinity(g, tables, s, t, t);
    forall d | d in dv && dv[d] != INFINITY_COST ensures Held(g, tables, s, d, dv[d]) {
      assert HasRoute(tables, s, d);
      StoredIsHeld(g, tables, s, d);
    }
    forall d | d in dv && dv[d] != INFINITY_COST && HasRoute(tables, t, d) && tables[t][d].hop == s
      ensures dv[d] as int + g[t][s] as int <= CostOf(tables, t, d)
    {
      assert EntryOk(g, tables, t, d);
    }
  }

  // ---- One reception ----

  /** What an entry of the receiver can be after a reception. */
  ghost predicate Case(g: Graph, tables: Tables, s: Id, t: Id, dv: Vector, d: Id, route: Route)
    requires Edge(g, t, s) && t in tables
  {
    || (d in tables[t] && route == tables[t][d])
    || (Offers(t, dv, d) && route.hop == s && route.cost as int == dv[d] as int + g[t][s] as int)
    || (d == s && t in dv && HasRoute(tables, t, s) && route == Route(dv[t], s) && tables[t][s].hop != s)
  }

  lemma AcceptCases(g: Graph, tables: Tables, s: Id, t: Id, dv: Vector, d: Id)
    requires Fixed(g) && Inv(g, tables) && Acceptable(g, tables, s, t, dv)
    requires d in Accept(g, tables, s, t, dv)[t]
    ensures Case(g, tables, s, t, dv, d, Accept(g, tables, s, t, dv)[t][d])
    ensures d in tables[t] ==> Accept(g, tables, s, t, dv)[t][d].cost <= CostOf(tables, t, d)
  {
    if Offers(t, dv, d) {
      assert Held(g, tables, s, d, dv[d]);
      HeldBelowInfinity(g, tables, s, d, dv[d], t);
      if d in tables[t] { assert HasRoute(tables, t, d); }
    }
  }

  /** No route is lost and no cost rises. */
  ghost predicate Lower(tables: Tables, tables': Tables) {
    tables'.Keys == tables.Keys &&
    forall r, d {:trigger HasRoute(tables, r, d)} {:trigger HasRoute(tables', r, d)} |
      HasRoute(tables, r, d) :: HasRoute(tables', r, d) && CostOf(tables', r, d) <= CostOf(tables, r, d)
  }

  lemma AcceptLowers(g: Graph, tables: Tables, s: Id, t: Id, dv: Vector)
    requires Fixed(g) && Inv(g, tables) && Acceptable(g, tables, s, t, dv)
    ensures Lower(tables, Accept(g, tables, s, t, dv))
  {
    var tables' := Accept(g, tables, s, t, dv);
    forall r, d | HasRoute(tables, r, d)
      ensures HasRoute(tables', r, d) && CostOf(tables', r, d) <= CostOf(tables, r, d)
    {
      if r == t { AcceptCases(g, tables, s, t, dv, d); }
    }
  }

  lemma {:induction false} DominatesStays(g: Graph, tables: Tables, tables': Tables, p: seq<Id>, d: Id)
    requires Lower(tables, tables') && IsWalk(g, p) && Dominates(g, tables, p, d)
    ensures Dominates(g, tables', p, d)
    decreases |p|
  {
    if |p| <= 1 {
    } else {
      DominatesStays(g, tables, tables', p[1..], d);
    }
  }

  lemma BackedStays(g: Graph, tables: Tables, tables': Tables, r: Id, d: Id)
    requires Lower(tables, tables') && Backed(g, tables, r, d)
    ensures Backed(g, tables', r, d)
  {
    var p :| Backs(g, tables, p, r, d);
    DominatesStays(g, tables, tables', p, d);
    assert Backs(g, tables', p, r, d);
  }

  /** What has been held stays so. */
  lemma HeldStays(g: Graph, tables: Tables, tables': Tables, r: Id, d: Id, c: int)
    requires Lower(tables, tables') && Held(g, tables, r, d, c)
    ensures Held(g, tables', r, d, c)
  {
    var p :| Backs(g, tables, p, r, d) && c <= Cost(g, p);
    DominatesStays(g, tables, tables', p, d);
    assert Backs(g, tables', p, r, d);
  }

  lemma SoundStays(g: Graph, tables: Tables, tables': Tables, s: Id, t: Id, dv: Vector)
    requires Lower(tables, tables') && SoundVector(g, tables, s, t, dv)
    ensures SoundVector(g, tables', s, t, dv)
  {
    forall d | d in dv && dv[d] != INFINITY_COST ensures Held(g, tables', s, d, dv[d]) {
      assert Held(g, tables, s, d, dv[d]);
      HeldStays(g, tables, tables', s, d, dv[d]);
    }
  }

  /** Whoever is on a dominated walk knows its end. */
  lemma {:induction false} DominatedKnows(g: Graph, tables: Tables, p: seq<Id>, d: Id, r: Id)
    requires IsWalk(g, p) && Dominates(g, tables, p, d) && r in p && r != p[|p| - 1]
    ensures HasRoute(tables, r, d)
    decreases |p|
  {
    if r != p[0] {
      assert p == [p[0]] + p[1..];
      DominatedKnows(g, tables, p[1..], d, r);
    }
  }

  /** A router that learns of `d` from `s` is on no walk behind the route of `s`. */
  lemma NewlyBacked(g: Graph, tables: Tables, tables': Tables, s: Id, t: Id, d: Id, c: int)
    requires Lower(tables, tables') && BackedAt(g, tables, s, d, c) && Edge(g, t, s) && d != t
    requires !HasRoute(tables, t, d) && HasRoute(tables', t, d) && CostOf(tables', t, d) as int == c + g[t][s] as int
    ensures Backed(g, tables', t, d)
  {
    var p :| Backs(g, tables, p, s, d) && c <= Cost(g, p);
    if t in p { DominatedKnows(g, tables, p, d, t); }
    CostPrepend(g, t, p);
    DominatesStays(g, tables, tables', p, d);
    var q := [t] + p;
    assert q[1..] == p;
    assert Backs(g, tables', q, t, d);
  }

  lemma PrependLength(g: Graph, t: Id, s: Id, d: Id, c: int)
    requires Edge(g, t, s) && IsLength(g, s, d, c)
    ensures IsLength(g, t, d, g[t][s] + c)
  {
    var p :| Joins(g, p, s, d) && Cost(g, p) == c;
    CostPrepend(g, t, p);
    assert Joins(g, [t] + p, t, d);
  }

  lemma ReverseLength(g: Graph, s: Id, t: Id, c: int)
    requires Symmetric(g) && IsLength(g, s, t, c)
    ensures IsLength(g, t, s, c)
  {
    var p :| Joins(g, p, s, t) && Cost(g, p) == c;
    ReverseCost(g, p);
    assert Joins(g, Reverse(p), t, s);
  }

  lemma AcceptedEntry(g: Graph, tables: Tables, s: Id, t: Id, dv: Vector, d: Id)
    requires Fixed(g) && Inv(g, tables) && Acceptable(g, tables, s, t, dv)
    requires HasRoute(Accept(g, tables, s, t, dv), t, d)
    ensures EntryOk(g, Accept(g, tables, s, t, dv), t, d) && d != t
  {
    var tables' := Accept(g, tables, s, t, dv);
    var route := tables'[t][d];
    AcceptLowers(g, tables, s, t, dv);
    AcceptCases(g, tables, s, t, dv, d);
    assert RowOk(g, tables, t);
    if HasRoute(tables, t, d) {
      assert EntryOk(g, tables, t, d);
      BackedStays(g, tables, tables', t, d);
    }
    if HasRoute(tables, t, d) && route == tables[t][d] {
    } else if Offers(t, dv, d) && route.hop == s && route.cost as int == dv[d] as int + g[t][s] as int {
      assert Held(g, tables, s, d, dv[d]);
      PrependLength(g, t, s, d, dv[d]);
      if !HasRoute(tables, t, d) { NewlyBacked(g, tables, tables', s, t, d, dv[d]); }
    } else {
      assert Held(g, tables, s, t, dv[t]);
      ReverseLength(g, s, t, dv[t]);
    }
  }

  lemma OtherEntry(g: Graph, tables: Tables, tables': Tables, r: Id, d: Id)
    requires Lower(tables, tables') && HasRoute(tables, r, d) && EntryOk(g, tables, r, d)
    requires tables'[r] == tables[r]
    ensures EntryOk(g, tables', r, d)
  {
    BackedStays(g, tables, tables', r, d);
    var h := tables[r][d].hop;
    if h != d { assert HasRoute(tables, h, d); }
  }

  /** A reception keeps what holds of the tables, and lowers them. */
  lemma AcceptInv(g: Graph, tables: Tables, s: Id, t: Id, dv: Vector)
    requires Fixed(g) && Inv(g, tables) && Acceptable(g, tables, s, t, dv)
    ensures Inv(g, Accept(g, tables, s, t, dv)) && Lower(tables, Accept(g, tables, s, t, dv))
  {
    var tables' := Accept(g, tables, s, t, dv);
    AcceptLowers(g, tables, s, t, dv);
    forall r | r in tables' ensures RowOk(g, tables', r) {
      assert RowOk(g, tables, r);
      forall n | Edge(g, r, n) ensures n in tables'[r] && CostOf(tables', r, n) <= g[r][n] {
        assert HasRoute(tables, r, n);
      }
      forall d | d in tables'[r] ensures EntryOk(g, tables', r, d) && d != r {
        if r == t {
          AcceptedEntry(g, tables, s, t, dv, d);
        } else {
          assert EntryOk(g, tables, r, d);
          OtherEntry(g, tables, tables', r, d);
        }
      }
    }
  }

  lemma DeliverInv(g: Graph, tables: Tables, s: Id, t: Id)
    requires Fixed(g) && Inv(g, tables) && Edge(g, t, s) && t in tables && s in tables
    ensures Inv(g, Deliver(g, tables, s, t)) && Lower(tables, Deliver(g, tables, s, t))
  {
    FreshIsAcceptable(g, tables, s, t);
    AcceptInv(g, tables, s, t, Advertise(tables[s], t));
  }

  /** A reception that keeps a cost keeps the whole route. */
  lemma SameCostSameRoute(g: Graph, tables: Tables, s: Id, t: Id, dv: Vector, d: Id)
    requires Inv(g, tables) && Edge(g, t, s) && t in tables && t in dv && s !in dv
    requires HasRoute(tables, t, d) && HasRoute(Accept(g, tables, s, t, dv), t, d)
    requires CostOf(Accept(g, tables, s, t, dv), t, d) == CostOf(tables, t, d)
    ensures Accept(g, tables, s, t, dv)[t][d] == tables[t][d]
  {
  }
}
