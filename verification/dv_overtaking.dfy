/** What happens when one packet overtakes another on the same link: a forwarding loop. */
module DvOvertaking {
  import opened Words
  import opened Walks
  import opened RouterTables
  import opened DvTables
  import opened DvStatic
  import opened DvAsync

  /** Router 1 has a dear link to 4; a cheap way leads over 2, 3 and 5. */
  const MESH: Graph := map[
    1 := map[2 := 1, 4 := 50],
    2 := map[1 := 1, 3 := 1],
    3 := map[2 := 1, 4 := 100, 5 := 1],
    4 := map[1 := 50, 3 := 100, 5 := 1],
    5 := map[3 := 1, 4 := 1]]

  lemma MeshIsSmall()
    ensures Symmetric(MESH) && |MESH.Keys| == 5
    ensures forall u, v | Edge(MESH, u, v) :: MESH[u][v] <= 100 && v in MESH.Keys
  {
    assert MESH.Keys == {1, 2, 3, 4, 5};
  }

  lemma SmallFits(g: Graph, nodes: set<Id>)
    requires |nodes| == 5 && forall u, v | Edge(g, u, v) :: g[u][v] <= 100 && v in nodes
    ensures FitsVector(g)
  {
    forall r, p | IsWalk(g, p) && IsSimple(p) && Edge(g, r, p[0]) ensures g[r][p[0]] + Cost(g, p) < INFINITY_COST {
      WalkStaysIn(g, p, nodes);
      SimpleLength(p, nodes);
      CostBound(g, p, 100);
    }
  }

  lemma MeshIsFixed()
    ensures Fixed(MESH)
  {
    MeshIsSmall();
    SmallFits(MESH, MESH.Keys);
  }

  /** What a packet of another router makes of the entry for `d`. */
  lemma EntryAfter(self: Id, source: Id, link: u16, dv: Vector, routes: Routes, d: Id)
    requires d != source && Offers(self, dv, d)
    ensures var routes' := Receive(self, source, link, dv, routes);
            d in routes' && routes'[d] == Pick(routes, d, TotalCost(dv, link, d), source)
  {
  }

  /** The route of `r` to router 4. */
  ghost predicate Stores(st: State, r: Id, cost: u16, hop: Id) {
    r in st.tables && 4 in st.tables[r] && st.tables[r][4] == Route(cost, hop)
  }

  ghost predicate Says(m: Message, from: Id, to: Id, cost: u16) {
    m.from == from && m.to == to && 4 in m.dv && m.dv[4] == cost
  }

  /** Sending, as far as router 4 is concerned. */
  lemma SendSays(st: State, from: Id, to: Id, cost: u16, hop: Id) returns (m: Message)
    requires Stores(st, from, cost, hop) && Edge(MESH, from, to) && hop != to
    ensures Says(m, from, to, cost) && Enabled(MESH, st, Send(from, to))
    ensures Next(MESH, st, Send(from, to)) == State(st.tables, st.sent + {m})
  {
    m := Message(from, to, Advertise(st.tables[from], to));
  }

  /** Arriving, as far as router 4 is concerned. */
  lemma ArriveStores(st: State, m: Message, from: Id, to: Id, cost: u16)
    requires m in st.sent && Says(m, from, to, cost) && Edge(MESH, to, from) && from != 4 && to != 4
    requires to in st.tables && cost != INFINITY_COST && cost + MESH[to][from] < U16_RANGE
    ensures Enabled(MESH, st, Arrive(m))
    ensures var st', total := Next(MESH, st, Arrive(m)), cost + MESH[to][from];
            && st'.sent == st.sent && st'.tables.Keys == st.tables.Keys
            && (forall r | r in st.tables && r != to :: st'.tables[r] == st.tables[r])
            && (4 !in st.tables[to] || st.tables[to][4].hop == from || st.tables[to][4].cost > total ==>
                  Stores(st', to, total, from))
  {
    EntryAfter(to, from, MESH[to][from], m.dv, st.tables[to], 4);
  }

  lemma RunPrepend(st: State, a: Action, rest: seq<Action>)
    requires Enabled(MESH, st, a) && Legal(MESH, Next(MESH, st, a), rest)
    ensures Legal(MESH, st, [a] + rest) && Run(MESH, st, [a] + rest) == Run(MESH, Next(MESH, st, a), rest)
  {
    assert ([a] + rest)[1..] == rest;
  }

  /** The packets that will be late have been sent. */
  ghost predicate LateSent(st: State, late3: Message, late1: Message) {
    late3 in st.sent && Says(late3, 3, 2, 100) && late1 in st.sent && Says(late1, 1, 2, 50)
  }

  ghost predicate Whole(st: State) {
    st.tables.Keys == {1, 2, 3, 4, 5}
  }

  /** What 5 says to 3, 3 to 2 and 2 to 1 arrives at once; the late packets arrive after that. */
  lemma NewsTravels(st: State, late3: Message, late1: Message) returns (actions: seq<Action>)
    requires Whole(st) && LateSent(st, late3, late1)
    requires Stores(st, 5, 1, 4) && Stores(st, 3, 100, 4) && Stores(st, 1, 50, 4) && 4 !in st.tables[2]
    ensures Legal(MESH, st, actions)
    ensures Stores(Run(MESH, st, actions), 1, 4, 2) && Stores(Run(MESH, st, actions), 2, 51, 1)
  {
    var m5 := SendSays(st, 5, 3, 1, 4);
    var st1 := Next(MESH, st, Send(5, 3));
    ArriveStores(st1, m5, 5, 3, 1);
    var st2 := Next(MESH, st1, Arrive(m5));
    var m3 := SendSays(st2, 3, 2, 2, 5);
    var st3 := Next(MESH, st2, Send(3, 2));
    ArriveStores(st3, m3, 3, 2, 2);
    var st4 := Next(MESH, st3, Arrive(m3));
    var rest := LateArrive(st4, late3, late1);
    RunPrepend(st3, Arrive(m3), rest);
    RunPrepend(st2, Send(3, 2), [Arrive(m3)] + rest);
    RunPrepend(st1, Arrive(m5), [Send(3, 2)] + ([Arrive(m3)] + rest));
    RunPrepend(st, Send(5, 3), [Arrive(m5)] + ([Send(3, 2)] + ([Arrive(m3)] + rest)));
    actions := [Send(5, 3)] + ([Arrive(m5)] + ([Send(3, 2)] + ([Arrive(m3)] + rest)));
  }

  lemma LateArrive(st: State, late3: Message, late1: Message) returns (actions: seq<Action>)
    requires Whole(st) && LateSent(st, late3, late1) && Stores(st, 2, 3, 3) && Stores(st, 1, 50, 4)
    ensures Legal(MESH, st, actions)
    ensures Stores(Run(MESH, st, actions), 1, 4, 2) && Stores(Run(MESH, st, actions), 2, 51, 1)
  {
    var m2 := SendSays(st, 2, 1, 3, 3);
    var st1 := Next(MESH, st, Send(2, 1));
    ArriveStores(st1, m2, 2, 1, 3);
    var st2 := Next(MESH, st1, Arrive(m2));
    ArriveStores(st2, late3, 3, 2, 100);
    var st3 := Next(MESH, st2, Arrive(late3));
    ArriveStores(st3, late1, 1, 2, 50);
    var st4 := Next(MESH, st3, Arrive(late1));
    assert Legal(MESH, st4, []) && Run(MESH, st4, []) == st4;
    RunPrepend(st3, Arrive(late1), []);
    RunPrepend(st2, Arrive(late3), [Arrive(late1)] + []);
    RunPrepend(st1, Arrive(m2), [Arrive(late3)] + ([Arrive(late1)] + []));
    RunPrepend(st, Send(2, 1), [Arrive(m2)] + ([Arrive(late3)] + ([Arrive(late1)] + [])));
    actions := [Send(2, 1)] + ([Arrive(m2)] + ([Arrive(late3)] + ([Arrive(late1)] + [])));
  }

  /** Two packets are late, and that from 3 is overtaken by another one on its link: routers 1 and 2 end up sending data
      for 4 to each other. */
  lemma OvertakingLoops() returns (actions: seq<Action>)
    ensures Fixed(MESH) && Legal(MESH, State(Direct(MESH), {}), actions)
    ensures var tables := Run(MESH, State(Direct(MESH), {}), actions).tables;
            HasRoute(tables, 1, 4) && tables[1][4].hop == 2 && HasRoute(tables, 2, 4) && tables[2][4].hop == 1
  {
    MeshIsFixed();
    var st := State(Direct(MESH), {});
    assert Stores(st, 3, 100, 4) && Stores(st, 1, 50, 4) && Stores(st, 5, 1, 4) && Whole(st);
    var late3 := SendSays(st, 3, 2, 100, 4);
    var st1 := Next(MESH, st, Send(3, 2));
    var late1 := SendSays(st1, 1, 2, 50, 4);
    var st2 := Next(MESH, st1, Send(1, 2));
    var rest := NewsTravels(st2, late3, late1);
    RunPrepend(st1, Send(1, 2), rest);
    RunPrepend(st, Send(3, 2), [Send(1, 2)] + rest);
    actions := [Send(3, 2)] + ([Send(1, 2)] + rest);
  }
}
