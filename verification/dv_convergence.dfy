/** The static distance-vector network with packets delivered as soon as they are built: no loops, and shortest
    distances in the end. */
module DvConvergence {
  import opened Words
  import opened Walks
  import opened RouterTables
  import opened DvTables
  import opened DvStatic
  import opened Sums

  /** A packet freshly built by `from` reaches `to`. */
  datatype Delivery = Delivery(from: Id, to: Id)

  ghost predicate Possible(g: Graph, x: Delivery) {
    Edge(g, x.to, x.from) && x.to in g && x.from in g
  }

  /** The tables after deliveries in any order. */
  ghost function After(g: Graph, schedule: seq<Delivery>): (tables: Tables)
    requires Fixed(g) && forall i | 0 <= i < |schedule| :: Possible(g, schedule[i])
    ensures Inv(g, tables)
  {
    if schedule == [] then
      DirectInv(g);
      Direct(g)
    else
      var x := schedule[|schedule| - 1];
      var tables := After(g, schedule[..|schedule| - 1]);
      assert Possible(g, x);
      DeliverInv(g, tables, x.from, x.to);
      Deliver(g, tables, x.from, x.to)
  }

  // ---- Loop freedom ----

  /** The routers on the way from `r` to `d`, following the stored hops. */
  ghost predicate FollowsHops(tables: Tables, p: seq<Id>, d: Id) {
    |p| > 1 ==> HasRoute(tables, p[0], d) && tables[p[0]][d].hop == p[1] && FollowsHops(tables, p[1..], d)
  }

  /** The stored cost falls at every hop until the hop is `d` itself. */
  ghost predicate Falls(tables: Tables, p: seq<Id>, d: Id) {
    |p| > 2 ==> HasRoute(tables, p[0], d) && HasRoute(tables, p[1], d) &&
                CostOf(tables, p[1], d) < CostOf(tables, p[0], d) && Falls(tables, p[1..], d)
  }

  ghost function Way(g: Graph, tables: Tables, r: Id, d: Id): (p: seq<Id>)
    requires Fixed(g) && Inv(g, tables) && HasRoute(tables, r, d)
    ensures Joins(g, p, r, d) && FollowsHops(tables, p, d) && Falls(tables, p, d)
    ensures |p| > 1
    decreases CostOf(tables, r, d)
  {
    assert RowOk(g, tables, r) && EntryOk(g, tables, r, d);
    var h := tables[r][d].hop;
    var p := if h == d then [d] else Way(g, tables, h, d);
    var q := [r] + p;
    assert q[1..] == p && q[1] == h;
    assert Joins(g, q, r, d) && FollowsHops(tables, q, d);
    assert Falls(tables, q, d);
    q
  }

  lemma {:induction false} FallingIsSimple(g: Graph, tables: Tables, p: seq<Id>, d: Id)
    requires IsWalk(g, p) && |p| > 1 && p[|p| - 1] == d && Falls(tables, p, d) && HasRoute(tables, p[0], d)
    requires forall r | HasRoute(tables, r, d) :: r != d
    ensures IsSimple(p)
    ensures forall i | 0 <= i < |p| - 1 ::
              HasRoute(tables, p[i], d) && CostOf(tables, p[i], d) <= CostOf(tables, p[0], d)
    decreases |p|
  {
    if |p| <= 2 {
    } else {
      FallingIsSimple(g, tables, p[1..], d);
      assert forall i | 1 <= i < |p| :: p[i] == p[1..][i - 1];
    }
  }

  /** Where the invariant holds, following next hops to a known destination gets there, and passes no router twice. */
  lemma WayIsSimple(g: Graph, tables: Tables, r: Id, d: Id)
    requires Fixed(g) && Inv(g, tables) && HasRoute(tables, r, d)
    ensures exists p :: Joins(g, p, r, d) && IsSimple(p) && FollowsHops(tables, p, d)
  {
    var p := Way(g, tables, r, d);
    forall x | HasRoute(tables, x, d) ensures x != d { assert RowOk(g, tables, x); }
    FallingIsSimple(g, tables, p, d);
  }

  /** After any schedule of packets delivered as soon as they are built, there is no loop. */
  lemma NoForwardingLoop(g: Graph, schedule: seq<Delivery>, r: Id, d: Id)
    requires Fixed(g) && forall i | 0 <= i < |schedule| :: Possible(g, schedule[i])
    requires HasRoute(After(g, schedule), r, d)
    ensures exists p :: Joins(g, p, r, d) && IsSimple(p) && FollowsHops(After(g, schedule), p, d)
  {
    WayIsSimple(g, After(g, schedule), r, d);
  }

  // ---- Stable states ----

  ghost predicate Stable(g: Graph, tables: Tables)
    requires tables.Keys == g.Keys
  {
    forall x | Possible(g, x) :: Deliver(g, tables, x.from, x.to) == tables
  }

  /** Every router knows exactly the routers it can reach, each at its true distance. */
  ghost predicate AllShortest(g: Graph, tables: Tables) {
    forall r, d {:trigger HasRoute(tables, r, d)} | r in g && r != d ::
      && (HasRoute(tables, r, d) <==> Reaches(g, r, d))
      && (HasRoute(tables, r, d) ==> IsDistance(g, r, d, CostOf(tables, r, d)))
  }

  /** What `s` knows, `t` knows as well, over `s` or better. */
  ghost predicate Absorbed(g: Graph, tables: Tables, s: Id, t: Id)
    requires Edge(g, t, s)
  {
    forall d {:trigger HasRoute(tables, s, d)} | HasRoute(tables, s, d) && d != t ::
      HasRoute(tables, t, d) && CostOf(tables, t, d) as int <= g[t][s] as int + CostOf(tables, s, d) as int
  }

  ghost predicate AllAbsorbed(g: Graph, tables: Tables) {
    forall x | Possible(g, x) :: Absorbed(g, tables, x.from, x.to)
  }

  /** A delivery that changes nothing offers nothing better, poisoned or not. */
  lemma StableHop(g: Graph, tables: Tables, r: Id, h: Id, d: Id)
    requires Fixed(g) && Inv(g, tables) && Edge(g, r, h) && h in tables && r in tables && d != r
    requires Deliver(g, tables, h, r) == tables && HasRoute(tables, h, d)
    ensures HasRoute(tables, r, d) && CostOf(tables, r, d) as int <= g[r][h] as int + CostOf(tables, h, d) as int
  {
    assert RowOk(g, tables, h) && EntryOk(g, tables, h, d);
    CostBelowInfinity(g, tables, h, d, r);
    assert Deliver(g, tables, h, r)[r] == tables[r];
    if tables[h][d].hop != r {
      var dv := Advertise(tables[h], r);
      assert Offers(r, dv, d);
      assert d in tables[r];
    }
  }

  lemma StableAbsorbed(g: Graph, tables: Tables)
    requires Fixed(g) && Inv(g, tables) && Stable(g, tables)
    ensures AllAbsorbed(g, tables)
  {
    forall x | Possible(g, x) ensures Absorbed(g, tables, x.from, x.to) {
      forall d | HasRoute(tables, x.from, d) && d != x.to
        ensures HasRoute(tables, x.to, d)
        ensures CostOf(tables, x.to, d) as int <= g[x.to][x.from] as int + CostOf(tables, x.from, d) as int
      {
        StableHop(g, tables, x.to, x.from, d);
      }
    }
  }

  lemma {:induction false} AbsorbedBelow(g: Graph, tables: Tables, p: seq<Id>)
    requires Fixed(g) && Inv(g, tables) && AllAbsorbed(g, tables)
    requires IsWalk(g, p) && |p| > 1 && p[0] in g && p[0] != p[|p| - 1]
    ensures HasRoute(tables, p[0], p[|p| - 1])
    ensures CostOf(tables, p[0], p[|p| - 1]) <= Cost(g, p)
    decreases |p|
  {
    var r, h, d := p[0], p[1], p[|p| - 1];
    assert RowOk(g, tables, r) && Edge(g, h, r);
    assert Possible(g, Delivery(h, r));
    if h != d {
      AbsorbedBelow(g, tables, p[1..]);
      assert HasRoute(tables, h, d);
    } else {
      assert d in tables[r] && CostOf(tables, r, d) <= g[r][d];
    }
  }

  /** Where every router knows what its neighbours know, all know the true distances. */
  lemma AbsorbedIsShortest(g: Graph, tables: Tables)
    requires Fixed(g) && Inv(g, tables) && AllAbsorbed(g, tables)
    ensures AllShortest(g, tables)
  {
    forall r, d | r in g && r != d
      ensures HasRoute(tables, r, d) <==> Reaches(g, r, d)
      ensures HasRoute(tables, r, d) ==> IsDistance(g, r, d, CostOf(tables, r, d))
    {
      forall p | Joins(g, p, r, d)
        ensures HasRoute(tables, r, d) && CostOf(tables, r, d) <= Cost(g, p)
      {
        AbsorbedBelow(g, tables, p);
      }
      if HasRoute(tables, r, d) {
        assert RowOk(g, tables, r) && EntryOk(g, tables, r, d);
        assert IsLength(g, r, d, CostOf(tables, r, d));
      }
    }
  }

  lemma StableIsShortest(g: Graph, tables: Tables)
    requires Fixed(g) && Inv(g, tables) && Stable(g, tables)
    ensures AllShortest(g, tables)
  {
    StableAbsorbed(g, tables);
    AbsorbedIsShortest(g, tables);
  }

  /** Shortest tables are not changed by any delivery. */
  lemma ShortestIsStable(g: Graph, tables: Tables)
    requires Fixed(g) && Inv(g, tables) && AllShortest(g, tables)
    ensures Stable(g, tables)
  {
    forall x | Possible(g, x) ensures Deliver(g, tables, x.from, x.to) == tables {
      ShortestUnchanged(g, tables, x.from, x.to);
    }
  }

  lemma ShortestUnchanged(g: Graph, tables: Tables, s: Id, t: Id)
    requires Fixed(g) && Inv(g, tables) && AllShortest(g, tables) && Possible(g, Delivery(s, t))
    ensures Deliver(g, tables, s, t) == tables
  {
    var tables' := Deliver(g, tables, s, t);
    DeliverInv(g, tables, s, t);
    forall d | d in tables'[t] ensures d in tables[t] && tables'[t][d] == tables[t][d] {
      assert RowOk(g, tables', t) && EntryOk(g, tables', t, d);
      var p :| Joins(g, p, t, d) && Cost(g, p) == CostOf(tables', t, d);
      assert Reaches(g, t, d);
      assert HasRoute(tables, t, d) && IsDistance(g, t, d, CostOf(tables, t, d));
      assert HasRoute(tables', t, d) && CostOf(tables', t, d) == CostOf(tables, t, d);
      UnchangedCost(g, tables, s, t, d);
    }
    forall d | d in tables[t] ensures d in tables'[t] {
      assert HasRoute(tables, t, d);
    }
    assert tables'[t] == tables[t];
  }

  /** A reception that keeps a cost keeps the whole route. */
  lemma UnchangedCost(g: Graph, tables: Tables, s: Id, t: Id, d: Id)
    requires Fixed(g) && Inv(g, tables) && Possible(g, Delivery(s, t))
    requires HasRoute(tables, t, d) && HasRoute(Deliver(g, tables, s, t), t, d)
    requires CostOf(Deliver(g, tables, s, t), t, d) == CostOf(tables, t, d)
    ensures Deliver(g, tables, s, t)[t][d] == tables[t][d]
  {
    FreshIsAcceptable(g, tables, s, t);
    SameCostSameRoute(g, tables, s, t, Advertise(tables[s], t), d);
  }

  // ---- Progress ----

  ghost function MissingBy(tables: Tables): map<Id, nat> {
    map r | r in tables :: MissingIn(tables[r])
  }

  ghost function Missing(tables: Tables): nat {
    Sum(MissingBy(tables))
  }

  /** How many ids a table has no route to. */
  ghost function MissingIn(routes: Routes): nat {
    |AllIds() - routes.Keys|
  }

  ghost function RowSum(routes: Routes): nat {
    Sum(map d | d in routes :: routes[d].cost as nat)
  }

  ghost function CostsBy(tables: Tables): map<Id, nat> {
    map r | r in tables :: RowSum(tables[r])
  }

  ghost function TotalCosts(tables: Tables): nat {
    Sum(CostsBy(tables))
  }

  /** An effective delivery finds a missing route, or else lowers a cost. */
  lemma DeliverProgresses(g: Graph, tables: Tables, s: Id, t: Id)
    requires Fixed(g) && Inv(g, tables) && Possible(g, Delivery(s, t))
    requires Deliver(g, tables, s, t) != tables
    ensures var tables' := Deliver(g, tables, s, t);
            && Inv(g, tables')
            && (Missing(tables') < Missing(tables) ||
                (Missing(tables') == Missing(tables) && TotalCosts(tables') < TotalCosts(tables)))
  {
    var tables' := Deliver(g, tables, s, t);
    DeliverInv(g, tables, s, t);
    forall d | d in tables[t] ensures d in tables'[t] { assert HasRoute(tables, t, d); }
    if tables'[t].Keys == tables[t].Keys {
      RowProgresses(g, tables, s, t);
    }
    ChangeProgresses(tables, t, tables'[t]);
  }

  lemma ChangeProgresses(tables: Tables, t: Id, row: Routes)
    requires t in tables && tables[t].Keys <= row.Keys
    requires row.Keys == tables[t].Keys ==> RowSum(row) < RowSum(tables[t])
    ensures var tables' := tables[t := row];
            Missing(tables') < Missing(tables) ||
            (Missing(tables') == Missing(tables) && TotalCosts(tables') < TotalCosts(tables))
  {
    FewerMissing(tables[t], row);
    MissingUpdate(tables, t, row);
    CostsUpdate(tables, t, row);
  }

  lemma MissingUpdate(tables: Tables, t: Id, row: Routes)
    requires t in tables
    ensures Missing(tables[t := row]) == Missing(tables) - MissingIn(tables[t]) + MissingIn(row)
  {
    SumUpdate(MissingBy(tables), t, MissingIn(row));
    MissingByUpdate(tables, t, row);
  }

  lemma MissingByUpdate(tables: Tables, t: Id, row: Routes)
    requires t in tables
    ensures MissingBy(tables[t := row]) == MissingBy(tables)[t := MissingIn(row)]
  {
  }

  lemma CostsUpdate(tables: Tables, t: Id, row: Routes)
    requires t in tables
    ensures TotalCosts(tables[t := row]) == TotalCosts(tables) - RowSum(tables[t]) + RowSum(row)
  {
    SumUpdate(CostsBy(tables), t, RowSum(row));
    assert CostsBy(tables[t := row]) == CostsBy(tables)[t := RowSum(row)];
  }

  lemma FewerMissing(a: Routes, b: Routes)
    requires a.Keys <= b.Keys
    ensures if a.Keys == b.Keys then MissingIn(b) == MissingIn(a) else MissingIn(b) < MissingIn(a)
  {
    FewerLeft(AllIds(), a.Keys, b.Keys);
  }

  lemma FewerLeft(all: set<Id>, a: set<Id>, b: set<Id>)
    requires a <= b && b <= all
    ensures if a == b then |all - b| == |all - a| else |all - b| < |all - a|
  {
    var left, gained := all - b, b - a;
    assert all - a == left + gained && left !! gained;
    assert |left + gained| == |left| + |gained|;
  }

  lemma RowProgresses(g: Graph, tables: Tables, s: Id, t: Id)
    requires Fixed(g) && Inv(g, tables) && Possible(g, Delivery(s, t))
    requires Deliver(g, tables, s, t)[t] != tables[t] && Deliver(g, tables, s, t)[t].Keys == tables[t].Keys
    ensures RowSum(Deliver(g, tables, s, t)[t]) < RowSum(tables[t])
  {
    var row, row' := tables[t], Deliver(g, tables, s, t)[t];
    DeliverInv(g, tables, s, t);
    forall d | d in row ensures row'[d].cost <= row[d].cost {
      assert HasRoute(tables, t, d);
    }
    var d :| d in row && row'[d] != row[d];
    if row'[d].cost == row[d].cost { UnchangedCost(g, tables, s, t, d); }
    var m, m' := map d | d in row :: row[d].cost as nat, map d | d in row' :: row'[d].cost as nat;
    assert m'[d] < m[d];
    SumLowers(m, m');
  }

  /** In a reachable state, no delivery has an effect exactly when every table is shortest. */
  lemma StableIffShortest(g: Graph, schedule: seq<Delivery>)
    requires Fixed(g) && forall i | 0 <= i < |schedule| :: Possible(g, schedule[i])
    ensures Stable(g, After(g, schedule)) <==> AllShortest(g, After(g, schedule))
  {
    var tables := After(g, schedule);
    if Stable(g, tables) { StableIsShortest(g, tables); }
    if AllShortest(g, tables) { ShortestIsStable(g, tables); }
  }
}
