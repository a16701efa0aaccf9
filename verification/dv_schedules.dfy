/** Schedules of deliveries in the static distance-vector network: how many have an effect, and how soon all is done. */
module DvSchedules {
  import opened Words
  import opened Walks
  import opened RouterTables
  import opened DvTables
  import opened DvStatic
  import opened DvConvergence
  import opened Sums

  ghost predicate AllPossible(g: Graph, schedule: seq<Delivery>) {
    forall x | x in schedule :: Possible(g, x)
  }

  /** The tables after the deliveries of `schedule`, from `tables` on. */
  ghost function From(g: Graph, tables: Tables, schedule: seq<Delivery>): (tables': Tables)
    requires Fixed(g) && Inv(g, tables) && AllPossible(g, schedule)
    ensures Inv(g, tables')
    decreases |schedule|
  {
    if schedule == [] then tables else
    var x := schedule[0];
    assert Possible(g, x);
    DeliverInv(g, tables, x.from, x.to);
    From(g, Deliver(g, tables, x.from, x.to), schedule[1..])
  }

  lemma {:induction false} FromAppend(g: Graph, tables: Tables, a: seq<Delivery>, b: seq<Delivery>)
    requires Fixed(g) && Inv(g, tables) && AllPossible(g, a) && AllPossible(g, b)
    ensures AllPossible(g, a + b) && From(g, tables, a + b) == From(g, From(g, tables, a), b)
    decreases |a|
  {
    if a == [] {
      assert a + b == b;
    } else {
      var x := a[0];
      assert Possible(g, x);
      DeliverInv(g, tables, x.from, x.to);
      FromAppend(g, Deliver(g, tables, x.from, x.to), a[1..], b);
      assert (a + b)[1..] == a[1..] + b;
    }
  }

  lemma LowerTransitive(a: Tables, b: Tables, c: Tables)
    requires Lower(a, b) && Lower(b, c)
    ensures Lower(a, c)
  {
  }

  lemma {:induction false} FromLowers(g: Graph, tables: Tables, schedule: seq<Delivery>)
    requires Fixed(g) && Inv(g, tables) && AllPossible(g, schedule)
    ensures Lower(tables, From(g, tables, schedule))
    decreases |schedule|
  {
    if schedule == [] {
    } else {
      var x := schedule[0];
      assert Possible(g, x);
      DeliverInv(g, tables, x.from, x.to);
      FromLowers(g, Deliver(g, tables, x.from, x.to), schedule[1..]);
      LowerTransitive(tables, Deliver(g, tables, x.from, x.to), From(g, tables, schedule));
    }
  }

  lemma FromOne(g: Graph, tables: Tables, a: seq<Delivery>, x: Delivery)
    requires Fixed(g) && Inv(g, tables) && AllPossible(g, a) && Possible(g, x)
    ensures AllPossible(g, a + [x])
    ensures From(g, tables, a + [x]) == Deliver(g, From(g, tables, a), x.from, x.to)
  {
    FromAppend(g, tables, a, [x]);
    DeliverInv(g, From(g, tables, a), x.from, x.to);
    assert [x][1..] == [];
  }

  /** The schedules from the start are those of `After`. */
  lemma {:induction false} FromDirect(g: Graph, schedule: seq<Delivery>)
    requires Fixed(g) && forall i | 0 <= i < |schedule| :: Possible(g, schedule[i])
    ensures Inv(g, Direct(g)) && AllPossible(g, schedule) && After(g, schedule) == From(g, Direct(g), schedule)
    decreases |schedule|
  {
    DirectInv(g);
    if schedule == [] {
    } else {
      var before, x := schedule[..|schedule| - 1], schedule[|schedule| - 1];
      FromDirect(g, before);
      assert schedule == before + [x] && Possible(g, x);
      FromOne(g, Direct(g), before, x);
    }
  }

  // ---- How many deliveries have an effect ----

  /** How many deliveries of the schedule change something. */
  ghost function Effective(g: Graph, tables: Tables, schedule: seq<Delivery>): nat
    requires Fixed(g) && Inv(g, tables) && AllPossible(g, schedule)
    decreases |schedule|
  {
    if schedule == [] then 0 else
    var x := schedule[0];
    assert Possible(g, x);
    DeliverInv(g, tables, x.from, x.to);
    var tables' := Deliver(g, tables, x.from, x.to);
    (if tables' != tables then 1 else 0) + Effective(g, tables', schedule[1..])
  }

  /** What a table still has to give: its costs, a missing one counting as infinite. */
  ghost function Weights(g: Graph, row: Routes): map<Id, nat> {
    map d | d in g :: if d in row then row[d].cost as nat else INFINITY_COST as nat
  }

  ghost function RowPotentials(g: Graph, tables: Tables): map<Id, nat> {
    map r | r in tables :: Sum(Weights(g, tables[r]))
  }

  ghost function Potential(g: Graph, tables: Tables): nat {
    Sum(RowPotentials(g, tables))
  }

  lemma {:induction false} LastKnown(g: Graph, p: seq<Id>)
    requires Symmetric(g) && IsWalk(g, p) && |p| > 1
    ensures p[|p| - 1] in g
    decreases |p|
  {
    if |p| > 2 {
      LastKnown(g, p[1..]);
    } else {
      assert Edge(g, p[1], p[0]);
    }
  }

  lemma EntryKnown(g: Graph, tables: Tables, r: Id, d: Id)
    requires Fixed(g) && Inv(g, tables) && HasRoute(tables, r, d)
    ensures d in g && CostOf(tables, r, d) < INFINITY_COST
  {
    assert RowOk(g, tables, r) && EntryOk(g, tables, r, d);
    var h := tables[r][d].hop;
    assert Edge(g, r, h) && Edge(g, h, r);
    CostBelowInfinity(g, tables, r, d, h);
    var p :| Backs(g, tables, p, r, d);
    LastKnown(g, p);
  }

  /** A reception with an effect makes some row lighter. */
  lemma RowFalls(g: Graph, tables: Tables, s: Id, t: Id, dv: Vector)
    requires Fixed(g) && Inv(g, tables) && Acceptable(g, tables, s, t, dv) && Accept(g, tables, s, t, dv) != tables
    ensures Sum(Weights(g, Accept(g, tables, s, t, dv)[t])) < Sum(Weights(g, tables[t]))
  {
    var tables' := Accept(g, tables, s, t, dv);
    AcceptInv(g, tables, s, t, dv);
    var row, row' := tables[t], tables'[t];
    forall d | d in g ensures Weights(g, row')[d] <= Weights(g, row)[d] {
      if d in row { assert HasRoute(tables, t, d); }
      if d in row' { assert HasRoute(tables', t, d); EntryKnown(g, tables', t, d); }
    }
    var d := Changed(g, tables, s, t, dv);
    EntryKnown(g, tables', t, d);
    assert Weights(g, row')[d] < Weights(g, row)[d];
    SumLowers(Weights(g, row), Weights(g, row'));
  }

  lemma Changed(g: Graph, tables: Tables, s: Id, t: Id, dv: Vector) returns (d: Id)
    requires Fixed(g) && Inv(g, tables) && Acceptable(g, tables, s, t, dv) && Accept(g, tables, s, t, dv) != tables
    ensures var tables' := Accept(g, tables, s, t, dv);
            HasRoute(tables', t, d) && (d in tables[t] ==> CostOf(tables', t, d) < CostOf(tables, t, d))
  {
    var tables' := Accept(g, tables, s, t, dv);
    AcceptLowers(g, tables, s, t, dv);
    var row, row' := tables[t], tables'[t];
    forall x | x in row ensures x in row' && row'[x].cost <= row[x].cost { assert HasRoute(tables, t, x); }
    assert row' == row ==> tables' == tables;
    if row.Keys == row'.Keys {
      d :| d in row && row'[d] != row[d];
      if row'[d].cost == row[d].cost { SameCostSameRoute(g, tables, s, t, dv, d); }
    } else {
      d :| d in row' && d !in row;
    }
  }

  lemma PotentialUpdate(g: Graph, tables: Tables, t: Id, row: Routes)
    requires t in tables
    ensures Potential(g, tables[t := row]) == Potential(g, tables) - Sum(Weights(g, tables[t])) + Sum(Weights(g, row))
  {
    SumUpdate(RowPotentials(g, tables), t, Sum(Weights(g, row)));
    PotentialsUpdate(g, tables, t, row);
  }

  lemma PotentialsUpdate(g: Graph, tables: Tables, t: Id, row: Routes)
    requires t in tables
    ensures RowPotentials(g, tables[t := row]) == RowPotentials(g, tables)[t := Sum(Weights(g, row))]
  {
  }

  /** Any reception with an effect uses up some of the potential. */
  lemma AcceptFalls(g: Graph, tables: Tables, s: Id, t: Id, dv: Vector)
    requires Fixed(g) && Inv(g, tables) && Acceptable(g, tables, s, t, dv) && Accept(g, tables, s, t, dv) != tables
    ensures Potential(g, Accept(g, tables, s, t, dv)) < Potential(g, tables)
  {
    RowFalls(g, tables, s, t, dv);
    PotentialUpdate(g, tables, t, Accept(g, tables, s, t, dv)[t]);
    assert Accept(g, tables, s, t, dv) == tables[t := Accept(g, tables, s, t, dv)[t]];
  }

  lemma DeliverFalls(g: Graph, tables: Tables, s: Id, t: Id)
    requires Fixed(g) && Inv(g, tables) && Possible(g, Delivery(s, t)) && Deliver(g, tables, s, t) != tables
    ensures Potential(g, Deliver(g, tables, s, t)) < Potential(g, tables)
  {
    FreshIsAcceptable(g, tables, s, t);
    AcceptFalls(g, tables, s, t, Advertise(tables[s], t));
  }

  /** Every effective delivery uses up some of the potential. */
  lemma {:induction false} EffectiveBelow(g: Graph, tables: Tables, schedule: seq<Delivery>)
    requires Fixed(g) && Inv(g, tables) && AllPossible(g, schedule)
    ensures Effective(g, tables, schedule) + Potential(g, From(g, tables, schedule)) <= Potential(g, tables)
    decreases |schedule|
  {
    if schedule == [] {
    } else {
      var x := schedule[0];
      assert Possible(g, x);
      DeliverInv(g, tables, x.from, x.to);
      if Deliver(g, tables, x.from, x.to) != tables { DeliverFalls(g, tables, x.from, x.to); }
      EffectiveBelow(g, Deliver(g, tables, x.from, x.to), schedule[1..]);
    }
  }

  lemma OneMoreTimes(n: nat, w: nat)
    requires n > 0
    ensures n * w == (n - 1) * w + w
  {
  }

  ghost predicate AllBelow(m: map<Id, nat>, w: nat) {
    forall k {:trigger m[k]} | k in m :: m[k] <= w
  }

  lemma {:induction false} SumBelow(m: map<Id, nat>, n: nat, w: nat)
    requires |m| == n && AllBelow(m, w)
    ensures Sum(m) <= n * w
    decreases n
  {
    if m == map[] {
    } else {
      var k :| k in m && Sum(m) == m[k] + Sum(m - {k});
      assert |m - {k}| == n - 1;
      SumBelow(m - {k}, n - 1, w);
      OneMoreTimes(n, w);
    }
  }

  lemma SameSize(g: Graph, m: map<Id, nat>)
    requires m.Keys == g.Keys
    ensures |m| == |g|
  {
    assert |m| == |m.Keys| && |g| == |g.Keys|;
  }

  lemma RowBelow(g: Graph, row: Routes)
    ensures Sum(Weights(g, row)) <= |g| * INFINITY_COST as nat
  {
    SameSize(g, Weights(g, row));
    SumBelow(Weights(g, row), |g|, INFINITY_COST as nat);
  }

  lemma RowPotentialBelow(g: Graph, tables: Tables, r: Id)
    requires r in tables
    ensures r in RowPotentials(g, tables) && RowPotentials(g, tables)[r] <= |g| * INFINITY_COST as nat
  {
    RowBelow(g, tables[r]);
  }

  lemma RowPotentialsBelow(g: Graph, tables: Tables)
    ensures AllBelow(RowPotentials(g, tables), |g| * INFINITY_COST as nat)
  {
    forall r | r in RowPotentials(g, tables) ensures RowPotentials(g, tables)[r] <= |g| * INFINITY_COST as nat {
      RowPotentialBelow(g, tables, r);
    }
  }

  /** The most that `n` rows of `n` entries can weigh. */
  ghost function Heaviest(n: nat): nat {
    n * (n * INFINITY_COST as nat)
  }

  lemma PotentialBelow(g: Graph, tables: Tables, n: nat, w: nat)
    requires tables.Keys == g.Keys && |g| == n && AllBelow(RowPotentials(g, tables), w)
    ensures Potential(g, tables) <= n * w
  {
    SameSize(g, RowPotentials(g, tables));
    SumBelow(RowPotentials(g, tables), n, w);
  }

  /** Of any schedule, however long and in whatever order, at most |g| * |g| * 65535 deliveries have an effect. */
  lemma FewAreEffective(g: Graph, tables: Tables, schedule: seq<Delivery>)
    requires Fixed(g) && Inv(g, tables) && AllPossible(g, schedule)
    ensures Effective(g, tables, schedule) <= Heaviest(|g|)
  {
    RowPotentialsBelow(g, tables);
    PotentialBelow(g, tables, |g|, |g| * INFINITY_COST as nat);
    EffectiveBelow(g, tables, schedule);
  }

  /** Delivering wherever a delivery still has an effect ends, in shortest tables. */
  lemma {:induction false} Settles(g: Graph, tables: Tables) returns (schedule: seq<Delivery>)
    requires Fixed(g) && Inv(g, tables)
    ensures AllPossible(g, schedule) && Effective(g, tables, schedule) == |schedule|
    ensures AllShortest(g, From(g, tables, schedule))
    decreases Potential(g, tables)
  {
    if Stable(g, tables) {
      StableIsShortest(g, tables);
      schedule := [];
    } else {
      var x :| Possible(g, x) && Deliver(g, tables, x.from, x.to) != tables;
      DeliverInv(g, tables, x.from, x.to);
      DeliverFalls(g, tables, x.from, x.to);
      var rest := Settles(g, Deliver(g, tables, x.from, x.to));
      schedule := [x] + rest;
      assert schedule[1..] == rest;
    }
  }

  // ---- How soon all is done ----

  /** Every walk of at most `k` routers is known, and undercut if need be. */
  ghost predicate Known(g: Graph, tables: Tables, k: nat) {
    forall p {:trigger IsWalk(g, p)} | IsWalk(g, p) && 1 < |p| <= k && p[0] != p[|p| - 1] :: Undercut(g, tables, p)
  }

  ghost predicate Undercut(g: Graph, tables: Tables, p: seq<Id>)
    requires IsWalk(g, p)
  {
    HasRoute(tables, p[0], p[|p| - 1]) && CostOf(tables, p[0], p[|p| - 1]) <= Cost(g, p)
  }

  lemma KnownStays(g: Graph, tables: Tables, tables': Tables, k: nat)
    requires Known(g, tables, k) && Lower(tables, tables')
    ensures Known(g, tables', k)
  {
    forall p | IsWalk(g, p) && 1 < |p| <= k && p[0] != p[|p| - 1] ensures Undercut(g, tables', p) {
      assert Undercut(g, tables, p);
    }
  }

  lemma NeighborsKnown(g: Graph, tables: Tables, p: seq<Id>)
    requires Fixed(g) && Inv(g, tables) && IsWalk(g, p) && |p| > 1 && p[1] == p[|p| - 1]
    ensures Undercut(g, tables, p)
  {
    assert RowOk(g, tables, p[0]) && Edge(g, p[0], p[1]);
  }

  /** What a delivery makes of the sender's route, poisoned or not. */
  lemma Offered(g: Graph, tables: Tables, h: Id, r: Id, d: Id)
    requires Fixed(g) && Inv(g, tables) && Possible(g, Delivery(h, r)) && HasRoute(tables, h, d) && d != r
    ensures HasRoute(Deliver(g, tables, h, r), r, d)
    ensures CostOf(Deliver(g, tables, h, r), r, d) as int <= g[r][h] as int + CostOf(tables, h, d) as int
  {
    var tables' := Deliver(g, tables, h, r);
    DeliverInv(g, tables, h, r);
    assert RowOk(g, tables, h) && EntryOk(g, tables, h, d);
    CostBelowInfinity(g, tables, h, d, r);
    if tables[h][d].hop == r {
      assert HasRoute(tables, r, d) && HasRoute(tables', r, d);
    } else {
      assert Offers(r, Advertise(tables[h], r), d);
    }
  }

  /** A walk is known once a packet has come over its first link, if its rest was known to the sender. */
  lemma WalkOffered(g: Graph, tables: Tables, p: seq<Id>)
    requires Fixed(g) && Inv(g, tables) && IsWalk(g, p) && |p| > 2 && p[0] != p[|p| - 1]
    requires Possible(g, Delivery(p[1], p[0])) && Undercut(g, tables, p[1..])
    ensures Undercut(g, Deliver(g, tables, p[1], p[0]), p)
  {
    Offered(g, tables, p[1], p[0], p[|p| - 1]);
  }

  /** A round uses every link at least once, in both directions. */
  ghost predicate IsRound(g: Graph, schedule: seq<Delivery>) {
    AllPossible(g, schedule) && forall x | Possible(g, x) :: x in schedule
  }

  lemma WalkKnownAfterRound(g: Graph, tables: Tables, round: seq<Delivery>, k: nat, p: seq<Id>)
    requires Fixed(g) && Inv(g, tables) && IsRound(g, round) && Known(g, tables, k)
    requires IsWalk(g, p) && 1 < |p| <= k + 1 && p[0] != p[|p| - 1]
    ensures Undercut(g, From(g, tables, round), p)
  {
    var end := From(g, tables, round);
    if p[1] == p[|p| - 1] {
      NeighborsKnown(g, end, p);
    } else {
      assert Edge(g, p[1], p[0]) && Possible(g, Delivery(p[1], p[0]));
      var x := Delivery(p[1], p[0]);
      var i :| 0 <= i < |round| && round[i] == x;
      Around(g, tables, round, i);
      var mid := From(g, tables, round[..i]);
      FromLowers(g, tables, round[..i]);
      KnownStays(g, tables, mid, k);
      assert Undercut(g, mid, p[1..]);
      WalkOffered(g, mid, p);
      assert Undercut(g, Deliver(g, mid, x.from, x.to), p);
    }
  }

  /** The schedule before, at and after one of its deliveries. */
  lemma Around(g: Graph, tables: Tables, schedule: seq<Delivery>, i: nat)
    requires Fixed(g) && Inv(g, tables) && AllPossible(g, schedule) && i < |schedule|
    ensures AllPossible(g, schedule[..i]) && Possible(g, schedule[i])
    ensures var x, mid := schedule[i], From(g, tables, schedule[..i]);
            Lower(Deliver(g, mid, x.from, x.to), From(g, tables, schedule))
  {
    var x, before, after := schedule[i], schedule[..i], schedule[i + 1..];
    assert schedule == (before + [x]) + after;
    FromOne(g, tables, before, x);
    FromAppend(g, tables, before + [x], after);
    FromLowers(g, From(g, tables, before + [x]), after);
  }

  lemma RoundExtends(g: Graph, tables: Tables, round: seq<Delivery>, k: nat)
    requires Fixed(g) && Inv(g, tables) && IsRound(g, round) && Known(g, tables, k)
    ensures Known(g, From(g, tables, round), k + 1)
  {
    forall p | IsWalk(g, p) && 1 < |p| <= k + 1 && p[0] != p[|p| - 1] ensures Undercut(g, From(g, tables, round), p) {
      WalkKnownAfterRound(g, tables, round, k, p);
    }
  }

  ghost function Flat(rounds: seq<seq<Delivery>>): seq<Delivery> {
    if rounds == [] then [] else Flat(rounds[..|rounds| - 1]) + rounds[|rounds| - 1]
  }

  lemma {:induction false} RoundsExtend(g: Graph, tables: Tables, rounds: seq<seq<Delivery>>)
    requires Fixed(g) && Inv(g, tables) && forall i | 0 <= i < |rounds| :: IsRound(g, rounds[i])
    ensures AllPossible(g, Flat(rounds)) && Known(g, From(g, tables, Flat(rounds)), |rounds| + 2)
    decreases |rounds|
  {
    if rounds == [] {
      forall p | IsWalk(g, p) && 1 < |p| <= 2 && p[0] != p[|p| - 1] ensures Undercut(g, tables, p) {
        NeighborsKnown(g, tables, p);
      }
    } else {
      var before, last := rounds[..|rounds| - 1], rounds[|rounds| - 1];
      RoundsExtend(g, tables, before);
      RoundExtends(g, From(g, tables, Flat(before)), last, |before| + 2);
      FromAppend(g, tables, Flat(before), last);
    }
  }

  /** What is known of all walks as long as there are routers is all there is to know. */
  lemma KnownIsShortest(g: Graph, tables: Tables)
    requires Fixed(g) && Inv(g, tables) && Known(g, tables, |g|)
    ensures AllShortest(g, tables)
  {
    forall r, d | r in g && r != d
      ensures HasRoute(tables, r, d) <==> Reaches(g, r, d)
      ensures HasRoute(tables, r, d) ==> IsDistance(g, r, d, CostOf(tables, r, d))
    {
      forall p | Joins(g, p, r, d) ensures HasRoute(tables, r, d) && CostOf(tables, r, d) <= Cost(g, p) {
        ShortWalk(g, tables, p);
      }
      if HasRoute(tables, r, d) {
        assert RowOk(g, tables, r) && EntryOk(g, tables, r, d);
        assert IsLength(g, r, d, CostOf(tables, r, d));
      }
    }
  }

  lemma ShortWalk(g: Graph, tables: Tables, p: seq<Id>)
    requires Fixed(g) && Known(g, tables, |g|) && IsWalk(g, p) && p[0] in g && p[0] != p[|p| - 1]
    ensures Undercut(g, tables, p)
  {
    var q := Shorten(g, p);
    forall u, v | Edge(g, u, v) ensures v in g.Keys {
      assert Edge(g, v, u);
    }
    WalkStaysIn(g, q, g.Keys);
    SimpleLength(q, g.Keys);
    assert Undercut(g, tables, q);
  }

  /** Once every link has been used in each of |g| - 2 rounds, in whatever order within a round, every table is
      shortest, and stays so. */
  lemma RoundsSuffice(g: Graph, tables: Tables, rounds: seq<seq<Delivery>>)
    requires Fixed(g) && Inv(g, tables) && forall i | 0 <= i < |rounds| :: IsRound(g, rounds[i])
    requires |g| <= |rounds| + 2
    ensures AllPossible(g, Flat(rounds)) && AllShortest(g, From(g, tables, Flat(rounds)))
    ensures Stable(g, From(g, tables, Flat(rounds)))
  {
    RoundsExtend(g, tables, rounds);
    KnownIsShortest(g, From(g, tables, Flat(rounds)));
    ShortestIsStable(g, From(g, tables, Flat(rounds)));
  }
}
