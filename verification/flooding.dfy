/** Link-state flooding over a fixed network: what has been learnt when nothing is left in flight. */
module Flooding {
  import opened Collections
  import opened Words

  /** Who is linked to whom. */
  type Neighborhood = map<Id, set<Id>>

  /** A copy of the LSP `number` of `source` on its way over one link. */
  datatype Lsp = Lsp(source: Id, number: u16, from: Id, to: Id)

  datatype Acceptance = Acceptance(router: Id, source: Id, number: u16)

  /** `count[r]` is the `sequence_num` of `r`, `seen[r]` its `max_sequence_num`;
      `delivered` and `accepted` record the past. */
  datatype State = State(count: map<Id, nat>, seen: map<Id, map<Id, u16>>, flight: seq<Lsp>,
                         delivered: seq<Lsp>, accepted: set<Acceptance>)

  datatype Action = Originate(router: Id) | Deliver(index: nat)

  /** The gate of `recv_LS`. */
  predicate Fresh(seen: map<Id, u16>, source: Id, number: u16) {
    source !in seen || seen[source] < number
  }

  ghost predicate Symmetric(adj: Neighborhood) {
    forall u, v | u in adj && v in adj[u] :: u != v && v in adj && u in adj[v]
  }

  /** One copy for each target, in some order. */
  ghost function Copies(source: Id, number: u16, from: Id, targets: set<Id>): (copies: seq<Lsp>)
    ensures forall m :: m in copies <==> m.source == source && m.number == number && m.from == from && m.to in targets
    ensures |copies| == |targets|
  {
    if targets == {} then [] else
    var n :| n in targets;
    Copies(source, number, from, targets - {n}) + [Lsp(source, number, from, n)]
  }

  ghost function Initial(adj: Neighborhood): State {
    State(map r | r in adj :: 0, map r | r in adj :: map[], [], [], {})
  }

  ghost predicate WellFormed(adj: Neighborhood, st: State) {
    && st.count.Keys == st.seen.Keys == adj.Keys
    && forall m | m in st.flight :: m.from in adj && m.to in adj[m.from] && m.source in adj
  }

  ghost predicate Enabled(adj: Neighborhood, st: State, a: Action) {
    match a
    case Originate(r) => r in adj
    case Deliver(i) => i < |st.flight|
  }

  ghost function Next(adj: Neighborhood, st: State, a: Action): (st': State)
    requires Symmetric(adj) && WellFormed(adj, st) && Enabled(adj, st, a)
    ensures WellFormed(adj, st')
  {
    match a
    case Originate(r) =>
      var number := Truncate(st.count[r]);
      st.(count := st.count[r := st.count[r] + 1], flight := st.flight + Copies(r, number, r, adj[r]))
    case Deliver(i) =>
      var m := st.flight[i];
      var st1 := st.(flight := Without(st.flight, i), delivered := st.delivered + [m]);
      if Fresh(st.seen[m.to], m.source, m.number) then
        var heard: map<Id, u16> := st.seen[m.to][m.source := m.number];
        st1.(seen := st.seen[m.to := heard],
             flight := st1.flight + Copies(m.source, m.number, m.to, adj[m.to] - {m.from}),
             accepted := st.accepted + {Acceptance(m.to, m.source, m.number)})
      else
        st1
  }

  /** Every action of `actions` is enabled when its turn comes. */
  ghost predicate Legal(adj: Neighborhood, st: State, actions: seq<Action>)
    requires Symmetric(adj) && WellFormed(adj, st)
    decreases |actions|
  {
    actions == [] ||
    (Enabled(adj, st, actions[0]) && Legal(adj, Next(adj, st, actions[0]), actions[1..]))
  }

  ghost function Run(adj: Neighborhood, st: State, actions: seq<Action>): (st': State)
    requires Symmetric(adj) && WellFormed(adj, st) && Legal(adj, st, actions)
    ensures WellFormed(adj, st')
    decreases |actions|
  {
    if actions == [] then st else Run(adj, Next(adj, st, actions[0]), actions[1..])
  }

  // ---- Coverage ----

  /** The highest number of `s` that `x` knows of; -1 if none. */
  ghost function Level(adj: Neighborhood, st: State, s: Id, x: Id): int
    requires WellFormed(adj, st) && s in adj && x in adj
  {
    if x == s then st.count[s] as int - 1
    else if s in st.seen[x] then st.seen[x][s]
    else -1
  }

  /** Nobody is ahead of the source, and no copy is ahead of its sender. */
  ghost predicate Bounded(adj: Neighborhood, st: State, s: Id)
    requires WellFormed(adj, st) && s in adj
  {
    && (forall x | x in adj && s in st.seen[x] :: st.seen[x][s] < st.count[s])
    && (forall m | m in st.flight && m.source == s :: m.number <= Level(adj, st, s, m.from))
  }

  /** A neighbour that lags behind has a copy of the newest LSP coming. */
  ghost predicate Chased(adj: Neighborhood, st: State, s: Id, x: Id, y: Id)
    requires WellFormed(adj, st) && s in adj && x in adj && y in adj
  {
    Level(adj, st, s, x) <= Level(adj, st, s, y) ||
    exists m :: m in st.flight && m.source == s && m.number == Level(adj, st, s, x) && m.from == x && m.to == y
  }

  ghost predicate Covered(adj: Neighborhood, st: State, s: Id)
    requires Symmetric(adj) && WellFormed(adj, st) && s in adj
  {
    Bounded(adj, st, s) && forall x, y | x in adj && y in adj[x] && y != s :: Chased(adj, st, s, x, y)
  }

  lemma OriginateBounded(adj: Neighborhood, st: State, s: Id, r: Id)
    requires Symmetric(adj) && WellFormed(adj, st) && s in adj && Bounded(adj, st, s)
    requires r in adj && (r == s ==> st.count[s] < U16_RANGE)
    ensures Bounded(adj, Next(adj, st, Originate(r)), s)
  {
  }

  lemma OriginateCovers(adj: Neighborhood, st: State, s: Id, r: Id)
    requires Symmetric(adj) && WellFormed(adj, st) && s in adj && Covered(adj, st, s)
    requires r in adj && (r == s ==> st.count[s] < U16_RANGE)
    ensures Covered(adj, Next(adj, st, Originate(r)), s)
  {
    OriginateBounded(adj, st, s, r);
    var st' := Next(adj, st, Originate(r));
    forall x, y | x in adj && y in adj[x] && y != s ensures Chased(adj, st', s, x, y) {
      assert Chased(adj, st, s, x, y);
      if x == s && r == s {
        assert Lsp(s, Truncate(st.count[s]), s, y) in st'.flight;
      } else if m :| m in st.flight && m.source == s && m.number == Level(adj, st, s, x) && m.from == x && m.to == y {
        assert m in st'.flight;
      }
    }
  }

  lemma DeliverBounded(adj: Neighborhood, st: State, s: Id, i: nat)
    requires Symmetric(adj) && WellFormed(adj, st) && s in adj && Bounded(adj, st, s) && i < |st.flight|
    ensures Bounded(adj, Next(adj, st, Deliver(i)), s)
    ensures forall x | x in adj :: Level(adj, st, s, x) <= Level(adj, Next(adj, st, Deliver(i)), s, x)
  {
    var m := st.flight[i];
    var st' := Next(adj, st, Deliver(i));
    assert m in st.flight;
    forall n | n in st'.flight && n.source == s ensures n.number <= Level(adj, st', s, n.from) {
      InWithout(st.flight, i, n);
    }
  }

  /** A delivery loses nothing but the packet delivered; an accepted one is passed on. */
  lemma DeliverFlight(adj: Neighborhood, st: State, i: nat, n: Lsp)
    requires Symmetric(adj) && WellFormed(adj, st) && i < |st.flight|
    ensures var m := st.flight[i];
            var st' := Next(adj, st, Deliver(i));
            && (n in st.flight && n != m ==> n in st'.flight)
            && (Fresh(st.seen[m.to], m.source, m.number) && n == Lsp(m.source, m.number, m.to, n.to) ==>
                  n.to in adj[m.to] && n.to != m.from ==> n in st'.flight)
  {
    InWithout(st.flight, i, n);
  }

  /** A delivery raises the level of nobody but a receiver that accepts. */
  lemma DeliverLevel(adj: Neighborhood, st: State, s: Id, i: nat, x: Id)
    requires Symmetric(adj) && WellFormed(adj, st) && s in adj && i < |st.flight| && x in adj
    ensures var m := st.flight[i];
            Level(adj, Next(adj, st, Deliver(i)), s, x) ==
              if m.to == x && m.source == s && x != s && Fresh(st.seen[x], s, m.number) then m.number
              else Level(adj, st, s, x)
  {
  }

  lemma DeliverChases(adj: Neighborhood, st: State, s: Id, i: nat, x: Id, y: Id)
    requires Symmetric(adj) && WellFormed(adj, st) && s in adj && Bounded(adj, st, s) && i < |st.flight|
    requires x in adj && y in adj[x] && y != s && Chased(adj, st, s, x, y)
    ensures Chased(adj, Next(adj, st, Deliver(i)), s, x, y)
  {
    var m := st.flight[i];
    var st' := Next(adj, st, Deliver(i));
    DeliverLevel(adj, st, s, i, x);
    DeliverLevel(adj, st, s, i, y);
    DeliverLevel(adj, st, s, i, m.from);
    if Level(adj, st', s, x) > Level(adj, st', s, y) {
      if Level(adj, st', s, x) != Level(adj, st, s, x) {
        // x has just accepted m and passed it on to everyone but its sender, who knows it
        assert m in st.flight;
        DeliverFlight(adj, st, i, Lsp(s, m.number, x, y));
      } else {
        var n :| n in st.flight && n.source == s && n.number == Level(adj, st, s, x) && n.from == x && n.to == y;
        DeliverFlight(adj, st, i, n);
      }
    }
  }

  lemma NextCovers(adj: Neighborhood, st: State, s: Id, a: Action)
    requires Symmetric(adj) && WellFormed(adj, st) && s in adj && Covered(adj, st, s) && Enabled(adj, st, a)
    requires Next(adj, st, a).count[s] <= U16_RANGE
    ensures Covered(adj, Next(adj, st, a), s)
  {
    match a
    case Originate(r) => OriginateCovers(adj, st, s, r);
    case Deliver(i) =>
      DeliverBounded(adj, st, s, i);
      forall x, y | x in adj && y in adj[x] && y != s ensures Chased(adj, Next(adj, st, a), s, x, y) {
        assert Chased(adj, st, s, x, y);
        DeliverChases(adj, st, s, i, x, y);
      }
  }

  lemma {:induction false} CountsGrow(adj: Neighborhood, st: State, actions: seq<Action>, s: Id)
    requires Symmetric(adj) && WellFormed(adj, st) && Legal(adj, st, actions) && s in adj
    ensures st.count[s] <= Run(adj, st, actions).count[s]
    decreases |actions|
  {
    if actions == [] {
    } else {
      CountsGrow(adj, Next(adj, st, actions[0]), actions[1..], s);
    }
  }

  lemma {:induction false} RunCovers(adj: Neighborhood, st: State, actions: seq<Action>, s: Id)
    requires Symmetric(adj) && WellFormed(adj, st) && Legal(adj, st, actions) && s in adj && Covered(adj, st, s)
    requires Run(adj, st, actions).count[s] <= U16_RANGE
    ensures Covered(adj, Run(adj, st, actions), s)
    decreases |actions|
  {
    if actions == [] {
    } else {
      var st1 := Next(adj, st, actions[0]);
      CountsGrow(adj, st1, actions[1..], s);
      NextCovers(adj, st, s, actions[0]);
      RunCovers(adj, st1, actions[1..], s);
    }
  }

  /** `x` is linked to `s` over some routers. */
  ghost predicate Linked(adj: Neighborhood, p: seq<Id>) {
    |p| >= 1 && p[0] in adj && (|p| > 1 ==> p[1] in adj[p[0]] && Linked(adj, p[1..]))
  }

  ghost predicate Quiet(st: State, s: Id) {
    forall m | m in st.flight :: m.source != s
  }

  lemma {:induction false} QuietLevels(adj: Neighborhood, st: State, s: Id, p: seq<Id>)
    requires Symmetric(adj) && WellFormed(adj, st) && s in adj && Covered(adj, st, s) && Quiet(st, s)
    requires Linked(adj, p)
    ensures p[|p| - 1] in adj
    ensures Level(adj, st, s, p[0]) <= Level(adj, st, s, p[|p| - 1])
  {
    if |p| <= 1 {
    } else {
      QuietLevels(adj, st, s, p[1..]);
      if p[1] != s {
        assert Chased(adj, st, s, p[0], p[1]);
      }
    }
  }

  /** Once no LSP of `s` is in flight, a router linked to `s` holds the highest number `s` has sent
      exactly when `s` has sent at most 65536: from then on the 16 bits of the packet repeat. */
  lemma QuietMeansKnown(adj: Neighborhood, actions: seq<Action>, s: Id, p: seq<Id>)
    requires Symmetric(adj) && Legal(adj, Initial(adj), actions) && s in adj
    requires Linked(adj, p) && p[0] == s && p[|p| - 1] != s
    requires Quiet(Run(adj, Initial(adj), actions), s)
    ensures var st := Run(adj, Initial(adj), actions);
            var x := p[|p| - 1];
            st.count[s] > 0 ==>
              ((x in adj && s in st.seen[x] && st.seen[x][s] as int == st.count[s] - 1) <==> st.count[s] <= U16_RANGE)
  {
    var st := Run(adj, Initial(adj), actions);
    if 0 < st.count[s] <= U16_RANGE {
      RunCovers(adj, Initial(adj), actions, s);
      QuietLevels(adj, st, s, p);
    }
  }

  /** The highest number there is. */
  const LAST_NUMBER: u16 := U16_RANGE - 1

  ghost predicate Deaf(st: State, s: Id, x: Id) {
    x in st.seen && s in st.seen[x] && st.seen[x][s] == LAST_NUMBER
  }

  /** Nothing is accepted any more. */
  ghost predicate NothingNew(st: State, st': State, s: Id, x: Id) {
    forall k {:trigger Acceptance(x, s, k)} ::
      Acceptance(x, s, k) in st'.accepted ==> Acceptance(x, s, k) in st.accepted
  }

  lemma DeafAgain(adj: Neighborhood, st: State, a: Action, s: Id, x: Id)
    requires Symmetric(adj) && WellFormed(adj, st) && Enabled(adj, st, a) && Deaf(st, s, x)
    ensures Deaf(Next(adj, st, a), s, x) && NothingNew(st, Next(adj, st, a), s, x)
  {
  }

  lemma {:induction false} DeafForever(adj: Neighborhood, st: State, actions: seq<Action>, s: Id, x: Id)
    requires Symmetric(adj) && WellFormed(adj, st) && Legal(adj, st, actions) && Deaf(st, s, x)
    ensures Deaf(Run(adj, st, actions), s, x) && NothingNew(st, Run(adj, st, actions), s, x)
    decreases |actions|
  {
    if actions == [] {
    } else {
      DeafAgain(adj, st, actions[0], s, x);
      DeafForever(adj, Next(adj, st, actions[0]), actions[1..], s, x);
    }
  }

  /** Once the LSP 65535 of `s` has spread, a router linked to `s` accepts no LSP of `s` again, whatever `s` sends. */
  lemma NothingLearntAgain(adj: Neighborhood, actions: seq<Action>, more: seq<Action>, s: Id, p: seq<Id>)
    requires Symmetric(adj) && Legal(adj, Initial(adj), actions) && s in adj
    requires Linked(adj, p) && p[0] == s && p[|p| - 1] != s
    requires Quiet(Run(adj, Initial(adj), actions), s) && Run(adj, Initial(adj), actions).count[s] == U16_RANGE
    requires Legal(adj, Run(adj, Initial(adj), actions), more)
    ensures var st := Run(adj, Initial(adj), actions);
            var st' := Run(adj, st, more);
            var x := p[|p| - 1];
            Deaf(st', s, x) && NothingNew(st, st', s, x)
  {
    QuietMeansKnown(adj, actions, s, p);
    DeafForever(adj, Run(adj, Initial(adj), actions), more, s, p[|p| - 1]);
  }
}
