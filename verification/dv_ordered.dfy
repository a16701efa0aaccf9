/** Distance vector with packets in flight that may be late or lost, but do not overtake each other on a link. */
module DvOrdered {
  import opened Collections
  import opened Words
  import opened Walks
  import opened RouterTables
  import opened DvTables
  import opened DvStatic
  import opened DvConvergence
  import opened DvSchedules
  import opened Sums

  /** `flight` holds the packets on their way, in the order in which they were sent. */
  datatype State = State(tables: Tables, flight: seq<Message>)

  datatype Action = Send(from: Id, to: Id) | Arrive(index: nat) | Lose(index: nat)

  predicate SameLink(a: Message, b: Message) {
    a.from == b.from && a.to == b.to
  }

  /** Nothing sent before over the same link is still on its way. */
  ghost predicate InLine(flight: seq<Message>, i: nat) {
    i < |flight| && forall j | 0 <= j < i :: !SameLink(flight[j], flight[i])
  }

  /** What `from` has to say to `to`. */
  function Built(tables: Tables, from: Id, to: Id): Message
    requires from in tables
  {
    Message(from, to, Advertise(tables[from], to))
  }

  /** One packet for each of `targets`, in some order. */
  ghost function Broadcast(tables: Tables, from: Id, targets: set<Id>): (copies: seq<Message>)
    requires from in tables
    ensures |copies| == |targets|
    ensures forall m :: m in copies <==> m.to in targets && m == Built(tables, from, m.to)
  {
    if targets == {} then [] else
    var to :| to in targets;
    Broadcast(tables, from, targets - {to}) + [Built(tables, from, to)]
  }

  ghost predicate Enabled(g: Graph, st: State, a: Action) {
    match a
    case Send(from, to) => Edge(g, from, to) && from in st.tables
    case Arrive(i) =>
      InLine(st.flight, i) && Edge(g, st.flight[i].to, st.flight[i].from) && st.flight[i].to in st.tables
    case Lose(i) => i < |st.flight|
  }

  /** A packet that changes the table of its receiver is followed by a broadcast. */
  ghost function Next(g: Graph, st: State, a: Action): State
    requires Enabled(g, st, a)
  {
    match a
    case Send(from, to) => st.(flight := st.flight + [Built(st.tables, from, to)])
    case Arrive(i) =>
      var m := st.flight[i];
      var tables' := Accept(g, st.tables, m.from, m.to, m.dv);
      State(tables', Without(st.flight, i) +
                     if tables' == st.tables then [] else Broadcast(tables', m.to, g[m.to].Keys))
    case Lose(i) => st.(flight := Without(st.flight, i))
  }

  ghost predicate Legal(g: Graph, st: State, actions: seq<Action>)
    decreases |actions|
  {
    actions == [] || (Enabled(g, st, actions[0]) && Legal(g, Next(g, st, actions[0]), actions[1..]))
  }

  ghost function Run(g: Graph, st: State, actions: seq<Action>): State
    requires Legal(g, st, actions)
    decreases |actions|
  {
    if actions == [] then st else Run(g, Next(g, st, actions[0]), actions[1..])
  }

  /** Every router knows its neighbours, and whatever is on its way says so. */
  ghost predicate Starts(g: Graph, st: State) {
    st.tables == Direct(g) && forall m | m in st.flight ::
      Edge(g, m.to, m.from) && m.from in g && m == Built(st.tables, m.from, m.to)
  }

  // ---- What every run keeps ----

  /** Over one link, later packets bring no dearer routes. */
  ghost predicate Newer(a: Message, b: Message) {
    SameLink(a, b) ==>
      forall d | d in a.dv && d in b.dv && a.dv[d] != INFINITY_COST && b.dv[d] != INFINITY_COST :: b.dv[d] <= a.dv[d]
  }

  ghost predicate Ordered(flight: seq<Message>) {
    forall i, j | 0 <= i < j < |flight| :: Newer(flight[i], flight[j])
  }

  ghost predicate SoundIn(g: Graph, tables: Tables, m: Message) {
    Acceptable(g, tables, m.from, m.to, m.dv)
  }

  ghost predicate AllSound(g: Graph, tables: Tables, flight: seq<Message>) {
    forall m {:trigger SoundIn(g, tables, m)} | m in flight :: SoundIn(g, tables, m)
  }

  ghost predicate StateInv(g: Graph, st: State) {
    Inv(g, st.tables) && AllSound(g, st.tables, st.flight) && Ordered(st.flight)
  }

  lemma OrderedWithout(flight: seq<Message>, i: nat)
    requires Ordered(flight) && i < |flight|
    ensures Ordered(Without(flight, i))
  {
    var rest := Without(flight, i);
    forall j, k | 0 <= j < k < |rest| ensures Newer(rest[j], rest[k]) {
      var j', k' := if j < i then j else j + 1, if k < i then k else k + 1;
      assert rest[j] == flight[j'] && rest[k] == flight[k'];
    }
  }

  lemma OrderedAppend(a: seq<Message>, b: seq<Message>)
    requires Ordered(a) && Ordered(b) && forall x, y | x in a && y in b :: Newer(x, y)
    ensures Ordered(a + b)
  {
    forall i, j | 0 <= i < j < |a + b| ensures Newer((a + b)[i], (a + b)[j]) {
      if i < |a| <= j {
        assert a[i] in a && b[j - |a|] in b;
      }
    }
  }

  /** Packets of one table are as new as each other. */
  lemma BuiltOrdered(tables: Tables, from: Id, built: seq<Message>)
    requires from in tables && forall m | m in built :: m == Built(tables, from, m.to)
    ensures Ordered(built)
  {
    forall i, j | 0 <= i < j < |built| ensures Newer(built[i], built[j]) {
      assert built[i] in built && built[j] in built;
    }
  }

  /** Nothing on its way is newer than the table it came from. */
  lemma BuiltIsNewer(g: Graph, tables: Tables, m: Message, from: Id, to: Id)
    requires SoundIn(g, tables, m) && from in tables
    ensures Newer(m, Built(tables, from, to))
  {
    var built := Built(tables, from, to);
    if SameLink(m, built) {
      forall d | d in m.dv && d in built.dv && m.dv[d] != INFINITY_COST && built.dv[d] != INFINITY_COST
        ensures built.dv[d] <= m.dv[d]
      {
        assert Held(g, tables, from, d, m.dv[d]);
      }
    }
  }

  lemma BuiltSound(g: Graph, tables: Tables, from: Id, to: Id)
    requires Fixed(g) && Inv(g, tables) && Edge(g, from, to)
    ensures from in tables && SoundIn(g, tables, Built(tables, from, to))
  {
    assert Edge(g, to, from);
    FreshIsAcceptable(g, tables, from, to);
  }

  lemma StartInv(g: Graph, st: State)
    requires Fixed(g) && Starts(g, st)
    ensures StateInv(g, st)
  {
    DirectInv(g);
    forall m | m in st.flight ensures SoundIn(g, st.tables, m) {
      assert Edge(g, m.from, m.to);
      BuiltSound(g, st.tables, m.from, m.to);
    }
    forall i, j | 0 <= i < j < |st.flight| ensures Newer(st.flight[i], st.flight[j]) {
      var a, b := st.flight[i], st.flight[j];
      assert a in st.flight && b in st.flight;
      BuiltIsNewer(g, st.tables, a, b.from, b.to);
    }
  }

  /** New packets of one router, after all that are on their way. */
  lemma AppendInv(g: Graph, tables: Tables, flight: seq<Message>, from: Id, built: seq<Message>)
    requires Fixed(g) && StateInv(g, State(tables, flight)) && from in tables
    requires forall m | m in built :: Edge(g, from, m.to) && m == Built(tables, from, m.to)
    ensures StateInv(g, State(tables, flight + built))
  {
    BuiltOrdered(tables, from, built);
    forall x, y | x in flight && y in built ensures Newer(x, y) {
      assert SoundIn(g, tables, x);
      BuiltIsNewer(g, tables, x, from, y.to);
    }
    OrderedAppend(flight, built);
    forall m | m in flight + built ensures SoundIn(g, tables, m) {
      if m in built { BuiltSound(g, tables, from, m.to); }
    }
  }

  /** A packet behind `m` on its link, or on another link, stays sound when `m` arrives. */
  lemma OthersSound(g: Graph, tables: Tables, m: Message, n: Message)
    requires Fixed(g) && Inv(g, tables) && SoundIn(g, tables, m) && SoundIn(g, tables, n)
    requires Newer(m, n)
    ensures SoundIn(g, Accept(g, tables, m.from, m.to, m.dv), n)
  {
    var tables' := Accept(g, tables, m.from, m.to, m.dv);
    AcceptLowers(g, tables, m.from, m.to, m.dv);
    SoundStays(g, tables, tables', n.from, n.to, n.dv);
    forall d | d in n.dv && n.dv[d] != INFINITY_COST && HasRoute(tables', n.to, d) && tables'[n.to][d].hop == n.from
      ensures n.dv[d] as int + g[n.to][n.from] as int <= CostOf(tables', n.to, d)
    {
      if n.to == m.to {
        AcceptCases(g, tables, m.from, m.to, m.dv, d);
      }
      assert HasRoute(tables, n.to, d) || !HasRoute(tables, n.to, d);
    }
  }

  lemma ArriveSound(g: Graph, st: State, i: nat)
    requires Fixed(g) && StateInv(g, st) && Enabled(g, st, Arrive(i))
    ensures var m := st.flight[i];
            var tables' := Accept(g, st.tables, m.from, m.to, m.dv);
            StateInv(g, State(tables', Without(st.flight, i))) && Lower(st.tables, tables')
  {
    var m := st.flight[i];
    var tables', rest := Accept(g, st.tables, m.from, m.to, m.dv), Without(st.flight, i);
    assert SoundIn(g, st.tables, m);
    AcceptInv(g, st.tables, m.from, m.to, m.dv);
    OrderedWithout(st.flight, i);
    forall n | n in rest ensures SoundIn(g, tables', n) {
      var j := Position(st.flight, i, n);
      assert n in st.flight && SoundIn(g, st.tables, n);
      OthersSound(g, st.tables, m, n);
    }
  }

  lemma Position(flight: seq<Message>, i: nat, n: Message) returns (j: nat)
    requires InLine(flight, i) && n in Without(flight, i)
    ensures j < |flight| && flight[j] == n && (SameLink(flight[i], n) ==> i < j)
  {
    var rest := Without(flight, i);
    var k :| 0 <= k < |rest| && rest[k] == n;
    j := if k < i then k else k + 1;
  }

  lemma LoseInv(g: Graph, st: State, i: nat)
    requires StateInv(g, st) && i < |st.flight|
    ensures StateInv(g, Next(g, st, Lose(i)))
  {
    OrderedWithout(st.flight, i);
    forall m | m in Without(st.flight, i) ensures SoundIn(g, st.tables, m) {
      InWithout(st.flight, i, m);
    }
  }

  /** Every action keeps the invariant, loses no route and raises no cost. */
  lemma NextInv(g: Graph, st: State, a: Action)
    requires Fixed(g) && StateInv(g, st) && Enabled(g, st, a)
    ensures StateInv(g, Next(g, st, a)) && Lower(st.tables, Next(g, st, a).tables)
  {
    match a
    case Send(from, to) => AppendInv(g, st.tables, st.flight, from, [Built(st.tables, from, to)]);
    case Arrive(i) =>
      var st', to := Next(g, st, a), st.flight[i].to;
      ArriveSound(g, st, i);
      if st'.tables != st.tables {
        AppendInv(g, st'.tables, Without(st.flight, i), to, Broadcast(st'.tables, to, g[to].Keys));
      } else {
        assert st'.flight == Without(st.flight, i);
      }
    case Lose(i) => LoseInv(g, st, i);
  }

  lemma {:induction false} RunInv(g: Graph, st: State, actions: seq<Action>)
    requires Fixed(g) && StateInv(g, st) && Legal(g, st, actions)
    ensures StateInv(g, Run(g, st, actions)) && Lower(st.tables, Run(g, st, actions).tables)
    decreases |actions|
  {
    if actions == [] {
    } else {
      var st1 := Next(g, st, actions[0]);
      NextInv(g, st, actions[0]);
      RunInv(g, st1, actions[1..]);
      LowerTransitive(st.tables, st1.tables, Run(g, st1, actions[1..]).tables);
    }
  }

  /** Whatever is late or lost, following next hops to a known destination gets there at any time, and passes no router
      twice. */
  lemma NoLoopInFlight(g: Graph, start: State, actions: seq<Action>, r: Id, d: Id)
    requires Fixed(g) && Starts(g, start) && Legal(g, start, actions)
    requires HasRoute(Run(g, start, actions).tables, r, d)
    ensures exists p :: Joins(g, p, r, d) && IsSimple(p) && FollowsHops(Run(g, start, actions).tables, p, d)
  {
    StartInv(g, start);
    RunInv(g, start, actions);
    WayIsSimple(g, Run(g, start, actions).tables, r, d);
  }

  // ---- Where runs end ----

  /** The receiver knows what the sender knows, or a packet that says it is on its way. */
  ghost predicate Told(g: Graph, st: State, x: Delivery)
    requires Possible(g, x) && st.tables.Keys == g.Keys
  {
    Absorbed(g, st.tables, x.from, x.to) || Built(st.tables, x.from, x.to) in st.flight
  }

  ghost predicate AllTold(g: Graph, st: State)
    requires st.tables.Keys == g.Keys
  {
    forall x {:trigger Possible(g, x)} | Possible(g, x) :: Told(g, st, x)
  }

  lemma DeliverAbsorbs(g: Graph, tables: Tables, x: Delivery)
    requires Fixed(g) && Inv(g, tables) && Possible(g, x)
    ensures Absorbed(g, Deliver(g, tables, x.from, x.to), x.from, x.to)
  {
    var tables' := Deliver(g, tables, x.from, x.to);
    forall d | HasRoute(tables', x.from, d) && d != x.to
      ensures HasRoute(tables', x.to, d)
      ensures CostOf(tables', x.to, d) as int <= g[x.to][x.from] as int + CostOf(tables', x.from, d) as int
    {
      assert HasRoute(tables, x.from, d);
      Offered(g, tables, x.from, x.to, d);
    }
  }

  lemma AbsorbedStays(g: Graph, tables: Tables, tables': Tables, s: Id, t: Id)
    requires Edge(g, t, s) && Lower(tables, tables') && Absorbed(g, tables, s, t)
    requires s in tables && tables'[s] == tables[s]
    ensures Absorbed(g, tables', s, t)
  {
    forall d | HasRoute(tables', s, d) && d != t
      ensures HasRoute(tables', t, d)
      ensures CostOf(tables', t, d) as int <= g[t][s] as int + CostOf(tables', s, d) as int
    {
      assert HasRoute(tables, s, d);
    }
  }

  lemma ArriveTells(g: Graph, st: State, i: nat, x: Delivery)
    requires Fixed(g) && StateInv(g, st) && Enabled(g, st, Arrive(i)) && Possible(g, x) && Told(g, st, x)
    ensures Next(g, st, Arrive(i)).tables.Keys == g.Keys && Told(g, Next(g, st, Arrive(i)), x)
  {
    var m, st' := st.flight[i], Next(g, st, Arrive(i));
    ArriveSound(g, st, i);
    if x.from == m.to && st'.tables != st.tables {
      assert Edge(g, x.from, x.to);
      assert Built(st'.tables, x.from, x.to) in Broadcast(st'.tables, m.to, g[m.to].Keys);
    } else {
      assert st'.tables[x.from] == st.tables[x.from];
      if Absorbed(g, st.tables, x.from, x.to) {
        AbsorbedStays(g, st.tables, st'.tables, x.from, x.to);
      } else if m == Built(st.tables, x.from, x.to) {
        DeliverAbsorbs(g, st.tables, x);
      } else {
        InWithout(st.flight, i, Built(st.tables, x.from, x.to));
      }
    }
  }

  ghost predicate Lossless(actions: seq<Action>) {
    forall a | a in actions :: !a.Lose?
  }

  lemma {:induction false} RunTells(g: Graph, st: State, actions: seq<Action>)
    requires Fixed(g) && StateInv(g, st) && AllTold(g, st) && Legal(g, st, actions) && Lossless(actions)
    ensures Run(g, st, actions).tables.Keys == g.Keys && AllTold(g, Run(g, st, actions))
    decreases |actions|
  {
    if actions == [] {
    } else {
      var st1 := Next(g, st, actions[0]);
      NextInv(g, st, actions[0]);
      forall x {:trigger Possible(g, x)} | Possible(g, x) ensures Told(g, st1, x) {
        assert Told(g, st, x);
        if actions[0].Arrive? { ArriveTells(g, st, actions[0].index, x); }
      }
      RunTells(g, st1, actions[1..]);
    }
  }

  /** Every link carries a first packet. */
  ghost predicate Opens(g: Graph, st: State) {
    Starts(g, st) && forall x {:trigger Possible(g, x)} | Possible(g, x) :: Built(st.tables, x.from, x.to) in st.flight
  }

  /** When nothing has been lost and nothing is on its way any more, all tables are shortest. */
  lemma QuietIsShortest(g: Graph, start: State, actions: seq<Action>)
    requires Fixed(g) && Opens(g, start) && Legal(g, start, actions) && Lossless(actions)
    requires Run(g, start, actions).flight == []
    ensures AllShortest(g, Run(g, start, actions).tables)
  {
    var st := Run(g, start, actions);
    StartInv(g, start);
    RunInv(g, start, actions);
    RunTells(g, start, actions);
    forall x | Possible(g, x) ensures Absorbed(g, st.tables, x.from, x.to) {
      assert Told(g, st, x);
    }
    AbsorbedIsShortest(g, st.tables);
  }

  // ---- How soon they end ----

  /** The packets on their way, and those that may still be sent for changes of tables. */
  ghost function Work(g: Graph, st: State): nat {
    |st.flight| + Times(|g|, Potential(g, st.tables))
  }

  ghost function Sendings(actions: seq<Action>): nat {
    if actions == [] then 0 else (if actions[0].Send? then 1 else 0) + Sendings(actions[1..])
  }

  lemma FewNeighbors(g: Graph, r: Id)
    requires Symmetric(g) && r in g
    ensures |g[r].Keys| <= |g|
  {
    forall n | n in g[r] ensures n in g { assert Edge(g, r, n); }
    SubsetSize(g[r].Keys, g.Keys);
  }

  /** An arrival does some of the work, even when it is followed by a broadcast. */
  lemma ArriveWorks(g: Graph, st: State, i: nat)
    requires Fixed(g) && StateInv(g, st) && Enabled(g, st, Arrive(i))
    ensures Work(g, Next(g, st, Arrive(i))) < Work(g, st)
  {
    var m, st' := st.flight[i], Next(g, st, Arrive(i));
    assert SoundIn(g, st.tables, m);
    if st'.tables != st.tables {
      AcceptFalls(g, st.tables, m.from, m.to, m.dv);
      TimesLess(|g|, Potential(g, st'.tables), Potential(g, st.tables));
      FewNeighbors(g, m.to);
    }
  }

  /** A packet sent without a cause adds to it, and everything else does some of it. */
  lemma NextWorks(g: Graph, st: State, a: Action)
    requires Fixed(g) && StateInv(g, st) && Enabled(g, st, a)
    ensures 1 + Work(g, Next(g, st, a)) <= Work(g, st) + if a.Send? then 2 else 0
  {
    match a
    case Send(from, to) => assert Next(g, st, a).tables == st.tables;
    case Arrive(i) => ArriveWorks(g, st, i);
    case Lose(i) => assert Next(g, st, a).tables == st.tables;
  }

  /** Arrivals and losses are at most the work at the start and the packets sent without a cause. */
  lemma {:induction false} RunWorks(g: Graph, st: State, actions: seq<Action>)
    requires Fixed(g) && StateInv(g, st) && Legal(g, st, actions)
    ensures |actions| + Work(g, Run(g, st, actions)) <= Work(g, st) + 2 * Sendings(actions)
    decreases |actions|
  {
    if actions == [] {
    } else {
      NextInv(g, st, actions[0]);
      NextWorks(g, st, actions[0]);
      RunWorks(g, Next(g, st, actions[0]), actions[1..]);
    }
  }

  /** Packets that arrive one after the other come to an end. */
  lemma {:induction false} Drain(g: Graph, st: State) returns (actions: seq<Action>)
    requires Fixed(g) && StateInv(g, st)
    ensures Legal(g, st, actions) && Lossless(actions) && Run(g, st, actions).flight == []
    ensures forall a | a in actions :: a.Arrive?
    decreases Work(g, st)
  {
    if st.flight == [] {
      actions := [];
    } else {
      var m := st.flight[0];
      assert SoundIn(g, st.tables, m) && InLine(st.flight, 0);
      NextInv(g, st, Arrive(0));
      ArriveWorks(g, st, 0);
      var rest := Drain(g, Next(g, st, Arrive(0)));
      actions := [Arrive(0)] + rest;
      assert actions[1..] == rest;
    }
  }

  lemma {:induction false} RunAppend(g: Graph, st: State, a: seq<Action>, b: seq<Action>)
    requires Legal(g, st, a) && Legal(g, Run(g, st, a), b)
    ensures Legal(g, st, a + b) && Run(g, st, a + b) == Run(g, Run(g, st, a), b)
    decreases |a|
  {
    if a == [] {
      assert a + b == b;
    } else {
      RunAppend(g, Next(g, st, a[0]), a[1..], b);
      assert (a + b)[1..] == a[1..] + b;
    }
  }

  lemma WorkBelow(g: Graph, st: State)
    requires st.tables.Keys == g.Keys
    ensures Work(g, st) <= |st.flight| + Times(|g|, Heaviest(|g|))
  {
    RowPotentialsBelow(g, st.tables);
    PotentialBelow(g, st.tables, |g|, |g| * INFINITY_COST as nat);
    TimesAtMost(|g|, Potential(g, st.tables), Heaviest(|g|));
  }

  /** No run is longer than this, but for packets sent without a cause. */
  lemma RunsEnd(g: Graph, start: State, actions: seq<Action>)
    requires Fixed(g) && Starts(g, start) && Legal(g, start, actions)
    ensures |actions| <= |start.flight| + Times(|g|, Heaviest(|g|)) + 2 * Sendings(actions)
  {
    StartInv(g, start);
    RunWorks(g, start, actions);
    WorkBelow(g, start);
  }

  /** As long as nothing is lost, whatever has happened, the packets on their way can arrive, and when they have, all
      tables are shortest. */
  lemma RunsConverge(g: Graph, start: State, actions: seq<Action>) returns (rest: seq<Action>)
    requires Fixed(g) && Opens(g, start) && Legal(g, start, actions) && Lossless(actions)
    ensures Legal(g, Run(g, start, actions), rest) && Lossless(rest)
    ensures var end := Run(g, Run(g, start, actions), rest); end.flight == [] && AllShortest(g, end.tables)
  {
    StartInv(g, start);
    RunInv(g, start, actions);
    rest := Drain(g, Run(g, start, actions));
    RunAppend(g, start, actions, rest);
    QuietIsShortest(g, start, actions + rest);
  }
}
