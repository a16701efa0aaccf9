/** Floods end: deliveries without new LSPs are bounded, and lead to quiet states. */
module FloodEnds {
  import opened Collections
  import opened Words
  import opened Flooding
  import opened Sums

  /** How many numbers of a source a router could still accept. */
  function Room(seen: map<Id, u16>, s: Id): nat {
    if s in seen then LAST_NUMBER - seen[s] else U16_RANGE
  }

  ghost function Rooms(adj: Neighborhood, seen: map<Id, u16>): map<Id, nat> {
    map s | s in adj :: Room(seen, s)
  }

  ghost function AllRooms(adj: Neighborhood, seen: map<Id, map<Id, u16>>): map<Id, nat>
    requires adj.Keys <= seen.Keys
  {
    map x | x in adj :: Sum(Rooms(adj, seen[x]))
  }

  /** The packets in flight, and those that may still be passed on. */
  ghost function Burden(adj: Neighborhood, st: State): nat
    requires WellFormed(adj, st)
  {
    |st.flight| + Times(|adj|, Sum(AllRooms(adj, st.seen)))
  }

  lemma RowFills(adj: Neighborhood, seen: map<Id, u16>, s: Id, k: u16)
    requires s in adj && Flooding.Fresh(seen, s, k)
    ensures Sum(Rooms(adj, seen[s := k])) < Sum(Rooms(adj, seen))
  {
    assert Rooms(adj, seen[s := k])[s] < Rooms(adj, seen)[s];
    SumLowers(Rooms(adj, seen), Rooms(adj, seen[s := k]));
  }

  lemma RoomsUpdate(adj: Neighborhood, seen: map<Id, map<Id, u16>>, x: Id, heard: map<Id, u16>)
    requires seen.Keys == adj.Keys && x in adj
    ensures AllRooms(adj, seen[x := heard]) == AllRooms(adj, seen)[x := Sum(Rooms(adj, heard))]
  {
  }

  /** Accepting an LSP takes up some of the room. */
  lemma AcceptFills(adj: Neighborhood, seen: map<Id, map<Id, u16>>, x: Id, s: Id, k: u16)
    requires seen.Keys == adj.Keys && x in adj && s in adj && Flooding.Fresh(seen[x], s, k)
    ensures var heard: map<Id, u16> := seen[x][s := k];
            Sum(AllRooms(adj, seen[x := heard])) < Sum(AllRooms(adj, seen))
  {
    var heard: map<Id, u16> := seen[x][s := k];
    RowFills(adj, seen[x], s, k);
    RoomsUpdate(adj, seen, x, heard);
    SumUpdate(AllRooms(adj, seen), x, Sum(Rooms(adj, heard)));
  }

  lemma FewTargets(adj: Neighborhood, x: Id, from: Id)
    requires Symmetric(adj) && x in adj
    ensures |adj[x] - {from}| <= |adj|
  {
    forall v | v in adj[x] ensures v in adj.Keys {
    }
    SubsetSize(adj[x] - {from}, adj.Keys);
    assert |adj.Keys| == |adj|;
  }

  /** Every delivery takes off some of the burden, even when the packet is passed on. */
  lemma DeliverLightens(adj: Neighborhood, st: State, i: nat)
    requires Symmetric(adj) && WellFormed(adj, st) && i < |st.flight|
    ensures Burden(adj, Next(adj, st, Deliver(i))) < Burden(adj, st)
  {
    var m, st' := st.flight[i], Next(adj, st, Deliver(i));
    assert m in st.flight;
    if Flooding.Fresh(st.seen[m.to], m.source, m.number) {
      AcceptFills(adj, st.seen, m.to, m.source, m.number);
      FewTargets(adj, m.to, m.from);
      TimesLess(|adj|, Sum(AllRooms(adj, st'.seen)), Sum(AllRooms(adj, st.seen)));
    }
  }

  /** From any state, deliveries alone come to an end. */
  lemma {:induction false} DeliveriesEnd(adj: Neighborhood, st: State, actions: seq<Action>)
    requires Symmetric(adj) && WellFormed(adj, st) && Legal(adj, st, actions)
    requires forall a | a in actions :: a.Deliver?
    ensures |actions| + Burden(adj, Run(adj, st, actions)) <= Burden(adj, st)
    decreases |actions|
  {
    if actions == [] {
    } else {
      DeliverLightens(adj, st, actions[0].index);
      DeliveriesEnd(adj, Next(adj, st, actions[0]), actions[1..]);
    }
  }

  /** And they can end with nothing in flight. */
  lemma {:induction false} Drain(adj: Neighborhood, st: State) returns (actions: seq<Action>)
    requires Symmetric(adj) && WellFormed(adj, st)
    ensures Legal(adj, st, actions) && forall a | a in actions :: a.Deliver?
    ensures Run(adj, st, actions).flight == [] && Run(adj, st, actions).count == st.count
    decreases Burden(adj, st)
  {
    if st.flight == [] {
      actions := [];
    } else {
      DeliverLightens(adj, st, 0);
      var rest := Drain(adj, Next(adj, st, Deliver(0)));
      actions := [Deliver(0)] + rest;
      assert actions[1..] == rest;
    }
  }

  /** However many LSPs a source sends, there is a run after which all is quiet. */
  lemma {:induction false} QuietRun(adj: Neighborhood, st: State, s: Id, n: nat) returns (actions: seq<Action>)
    requires Symmetric(adj) && WellFormed(adj, st) && s in adj
    ensures Legal(adj, st, actions) && Quiet(Run(adj, st, actions), s)
    ensures Run(adj, st, actions).count[s] == st.count[s] + n
    decreases n
  {
    if n == 0 {
      actions := Drain(adj, st);
    } else {
      var rest := QuietRun(adj, Next(adj, st, Originate(s)), s, n - 1);
      actions := [Originate(s)] + rest;
      assert actions[1..] == rest;
    }
  }
}
