/** Distance vector with packets in flight: lost, duplicated, reordered and delivered late. */
module DvAsync {
  import opened Words
  import opened Walks
  import opened RouterTables
  import opened DvTables
  import opened DvStatic

  /** `sent` holds every packet ever sent: each may arrive any number of times, in any order, or never. */
  datatype State = State(tables: Tables, sent: set<Message>)

  datatype Action = Send(from: Id, to: Id) | Arrive(m: Message)

  ghost predicate Enabled(g: Graph, st: State, a: Action) {
    match a
    case Send(from, to) => Edge(g, from, to) && from in st.tables
    case Arrive(m) => m in st.sent && Edge(g, m.to, m.from) && m.to in st.tables
  }

  function Next(g: Graph, st: State, a: Action): State
    requires Enabled(g, st, a)
  {
    match a
    case Send(from, to) => st.(sent := st.sent + {Message(from, to, Advertise(st.tables[from], to))})
    case Arrive(m) => st.(tables := st.tables[m.to := Receive(m.to, m.from, g[m.to][m.from], m.dv, st.tables[m.to])])
  }

  /** No total computed on arrival needs more than 16 bits. */
  ghost predicate NoWrap(g: Graph, st: State, a: Action) {
    match a
    case Send(_, _) => true
    case Arrive(m) => Edge(g, m.to, m.from) && forall d | Offers(m.to, m.dv, d) :: m.dv[d] + g[m.to][m.from] < U16_RANGE
  }

  ghost predicate Legal(g: Graph, st: State, actions: seq<Action>)
    decreases |actions|
  {
    actions == [] || (Enabled(g, st, actions[0]) && Legal(g, Next(g, st, actions[0]), actions[1..]))
  }

  ghost predicate NeverWraps(g: Graph, st: State, actions: seq<Action>)
    requires Legal(g, st, actions)
    decreases |actions|
  {
    actions == [] || (NoWrap(g, st, actions[0]) && NeverWraps(g, Next(g, st, actions[0]), actions[1..]))
  }

  ghost function Run(g: Graph, st: State, actions: seq<Action>): State
    requires Legal(g, st, actions)
    decreases |actions|
  {
    if actions == [] then st else Run(g, Next(g, st, actions[0]), actions[1..])
  }

  // ---- The invariant ----

  /** `c` is the length of a walk from `r` to `d`; when sums may wrap, its last 16 bits. */
  ghost predicate Honest(g: Graph, r: Id, d: Id, c: u16, exact: bool) {
    exists p :: Joins(g, p, r, d) && c == if exact then Cost(g, p) else Truncate(Cost(g, p))
  }

  ghost predicate HonestRow(g: Graph, r: Id, routes: Routes, exact: bool) {
    && r !in routes
    && (forall n | Edge(g, r, n) :: n in routes)
    && (forall d {:trigger Honest(g, r, d, routes[d].cost, exact)} | d in routes ::
          Honest(g, r, d, routes[d].cost, exact))
  }

  /** Every entry that is not poisoned is honest; the one for the receiver always is. */
  ghost predicate HonestMessage(g: Graph, m: Message, exact: bool) {
    && Edge(g, m.from, m.to) && m.from !in m.dv && m.to in m.dv
    && (forall d {:trigger Honest(g, m.from, d, m.dv[d], exact)}
          | d in m.dv && (d == m.to || m.dv[d] != INFINITY_COST) ::
          Honest(g, m.from, d, m.dv[d], exact))
  }

  ghost predicate Inv(g: Graph, st: State, exact: bool) {
    && st.tables.Keys == g.Keys
    && (forall r {:trigger HonestRow(g, r, st.tables[r], exact)} | r in st.tables ::
          HonestRow(g, r, st.tables[r], exact))
    && (forall m {:trigger HonestMessage(g, m, exact)} | m in st.sent :: HonestMessage(g, m, exact))
  }

  lemma InitialInv(g: Graph, exact: bool)
    requires Symmetric(g)
    ensures Inv(g, State(Direct(g), {}), exact)
  {
    var tables := Direct(g);
    forall r | r in tables ensures HonestRow(g, r, tables[r], exact) {
      assert !Edge(g, r, r);
      forall d | d in tables[r] ensures Honest(g, r, d, tables[r][d].cost, exact) {
        var p := [r, d];
        assert p[1..] == [d];
        assert IsWalk(g, [d]) && Cost(g, [d]) == 0;
        assert Joins(g, p, r, d) && Cost(g, p) == g[r][d];
      }
    }
  }

  lemma SendHonest(g: Graph, from: Id, to: Id, routes: Routes, exact: bool)
    requires HonestRow(g, from, routes, exact) && Edge(g, from, to)
    ensures HonestMessage(g, Message(from, to, Advertise(routes, to)), exact)
  {
    var dv := Advertise(routes, to);
    forall d | d in dv && (d == to || dv[d] != INFINITY_COST) ensures Honest(g, from, d, dv[d], exact) {
      assert Honest(g, from, d, routes[d].cost, exact);
    }
  }

  /** Going over one more link adds its cost, modulo 16 bits. */
  lemma HonestTotal(g: Graph, t: Id, s: Id, d: Id, c: u16, exact: bool)
    requires Edge(g, t, s) && Honest(g, s, d, c, exact)
    requires exact ==> c + g[t][s] < U16_RANGE
    ensures Honest(g, t, d, Truncate(c + g[t][s]), exact)
  {
    var p :| Joins(g, p, s, d) && c == if exact then Cost(g, p) else Truncate(Cost(g, p));
    CostPrepend(g, t, p);
    assert Joins(g, [t] + p, t, d);
  }

  lemma HonestReversed(g: Graph, s: Id, t: Id, c: u16, exact: bool)
    requires Symmetric(g) && Honest(g, s, t, c, exact)
    ensures Honest(g, t, s, c, exact)
  {
    var p :| Joins(g, p, s, t) && c == if exact then Cost(g, p) else Truncate(Cost(g, p));
    ReverseCost(g, p);
    assert Joins(g, Reverse(p), t, s);
  }

  lemma ReceivedEntryHonest(g: Graph, m: Message, routes: Routes, exact: bool, d: Id)
    requires Symmetric(g) && HonestMessage(g, m, exact) && HonestRow(g, m.to, routes, exact) && Edge(g, m.to, m.from)
    requires exact ==> forall d | Offers(m.to, m.dv, d) :: m.dv[d] + g[m.to][m.from] < U16_RANGE
    requires d in Receive(m.to, m.from, g[m.to][m.from], m.dv, routes)
    ensures Honest(g, m.to, d, Receive(m.to, m.from, g[m.to][m.from], m.dv, routes)[d].cost, exact)
  {
    var t, s := m.to, m.from;
    if d in routes { assert Honest(g, t, d, routes[d].cost, exact); }
    if Offers(t, m.dv, d) {
      assert Honest(g, s, d, m.dv[d], exact);
      HonestTotal(g, t, s, d, m.dv[d], exact);
    }
    if d == s {
      assert Honest(g, s, t, m.dv[t], exact);
      HonestReversed(g, s, t, m.dv[t], exact);
    }
  }

  lemma ReceiveHonest(g: Graph, m: Message, routes: Routes, exact: bool)
    requires Symmetric(g) && HonestMessage(g, m, exact) && HonestRow(g, m.to, routes, exact) && Edge(g, m.to, m.from)
    requires exact ==> forall d | Offers(m.to, m.dv, d) :: m.dv[d] + g[m.to][m.from] < U16_RANGE
    ensures HonestRow(g, m.to, Receive(m.to, m.from, g[m.to][m.from], m.dv, routes), exact)
  {
    var routes' := Receive(m.to, m.from, g[m.to][m.from], m.dv, routes);
    forall d | d in routes' ensures Honest(g, m.to, d, routes'[d].cost, exact) {
      ReceivedEntryHonest(g, m, routes, exact, d);
    }
  }

  lemma NextInv(g: Graph, st: State, a: Action, exact: bool)
    requires Symmetric(g) && Inv(g, st, exact) && Enabled(g, st, a) && (exact ==> NoWrap(g, st, a))
    ensures Inv(g, Next(g, st, a), exact)
  {
    match a
    case Send(from, to) =>
      assert HonestRow(g, from, st.tables[from], exact);
      SendHonest(g, from, to, st.tables[from], exact);
    case Arrive(m) =>
      assert HonestMessage(g, m, exact) && HonestRow(g, m.to, st.tables[m.to], exact);
      ReceiveHonest(g, m, st.tables[m.to], exact);
  }

  lemma {:induction false} RunInv(g: Graph, st: State, actions: seq<Action>, exact: bool)
    requires Symmetric(g) && Inv(g, st, exact) && Legal(g, st, actions)
    requires exact ==> NeverWraps(g, st, actions)
    ensures Inv(g, Run(g, st, actions), exact)
    decreases |actions|
  {
    if actions == [] {
    } else {
      NextInv(g, st, actions[0], exact);
      RunInv(g, Next(g, st, actions[0]), actions[1..], exact);
    }
  }

  /** In every run, stored and advertised costs are lengths of real walks: modulo 65536, whatever wraps, and
      exactly while nothing does. */
  lemma CostsAreWalks(g: Graph, actions: seq<Action>, exact: bool)
    requires Symmetric(g) && Legal(g, State(Direct(g), {}), actions)
    requires exact ==> NeverWraps(g, State(Direct(g), {}), actions)
    ensures var st := Run(g, State(Direct(g), {}), actions);
            && (forall r, d | r in st.tables && d in st.tables[r] :: Honest(g, r, d, st.tables[r][d].cost, exact))
            && (forall m, d | m in st.sent && d in m.dv && (d == m.to || m.dv[d] != INFINITY_COST) ::
                  Honest(g, m.from, d, m.dv[d], exact))
  {
    InitialInv(g, exact);
    RunInv(g, State(Direct(g), {}), actions, exact);
    var st := Run(g, State(Direct(g), {}), actions);
    forall r, d | r in st.tables && d in st.tables[r] ensures Honest(g, r, d, st.tables[r][d].cost, exact) {
      assert HonestRow(g, r, st.tables[r], exact);
    }
    forall m, d | m in st.sent && d in m.dv && (d == m.to || m.dv[d] != INFINITY_COST)
      ensures Honest(g, m.from, d, m.dv[d], exact)
    {
      assert HonestMessage(g, m, exact);
    }
  }

  /** While nothing wraps, no stored cost and no finite advertised cost is below the true distance. */
  lemma NeverBelowDistance(g: Graph, actions: seq<Action>, r: Id, d: Id, c: int)
    requires Symmetric(g) && Legal(g, State(Direct(g), {}), actions)
    requires NeverWraps(g, State(Direct(g), {}), actions)
    requires IsDistance(g, r, d, c)
    ensures var st := Run(g, State(Direct(g), {}), actions);
            && (r in st.tables && d in st.tables[r] ==> c <= st.tables[r][d].cost)
            && (forall m | m in st.sent && m.from == r && d in m.dv && m.dv[d] != INFINITY_COST :: c <= m.dv[d])
  {
    InitialInv(g, true);
    RunInv(g, State(Direct(g), {}), actions, true);
    var st := Run(g, State(Direct(g), {}), actions);
    if r in st.tables && d in st.tables[r] {
      assert HonestRow(g, r, st.tables[r], true) && Honest(g, r, d, st.tables[r][d].cost, true);
    }
    forall m | m in st.sent && m.from == r && d in m.dv && m.dv[d] != INFINITY_COST ensures c <= m.dv[d] {
      assert HonestMessage(g, m, true) && Honest(g, r, d, m.dv[d], true);
    }
  }
}
