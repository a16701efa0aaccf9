/** How old the entries of a router in distance-vector mode can get, checked once a second. */
module DvTiming {
  import opened Contacts
  import opened Words
  import opened RouterTables
  import opened DvTables
  import opened DvEffects
  import opened DvHandlers
  import EventQueue
  import Simulation

  /** The tables with the clock, the time of the pending check, when each neighbour was last heard, and when each route
      was last confirmed. */
  datatype Timed = Timed(now: nat, nextCheck: nat, st: State, heard: map<Id, nat>, confirmed: map<Id, nat>)

  datatype Action =
    | Elapse(time: nat)
    | HearDv(source: Id, dv: Vector)
    | HearPong(port: Port, source: Id, rtt: u16)
    | Check

  function Initial(): Timed {
    Timed(0, CHECK_PERIOD, State(map[], map[], map[], map[]), map[], map[])
  }

  /** Time cannot pass the pending check; the check takes place when its time has come. */
  predicate Enabled(peer: map<Port, Id>, ts: Timed, a: Action) {
    match a
    case Elapse(time) => ts.now + time <= ts.nextCheck
    case HearDv(_, _) => true
    case HearPong(port, source, _) => port in peer && peer[port] == source
    case Check => ts.now == ts.nextCheck
  }

  function After(self: Id, ts: Timed, a: Action): State {
    match a
    case Elapse(_) => ts.st
    case HearDv(source, dv) => AfterDv(self, ts.now, ts.st, source, dv)
    case HearPong(port, source, rtt) => AfterPong(ts.now, ts.st, port, source, rtt)
    case Check => AfterTimeout(ts.now, ts.st)
  }

  /** The action shows that the route to `d` is good: the hop has offered it, the time of the hop has changed, or the
      hop is `d` itself and still there. */
  predicate Confirms(self: Id, ts: Timed, a: Action, d: Id) {
    var st' := After(self, ts, a);
    match a
    case Elapse(_) => false
    case HearDv(source, dv) =>
      && source in ts.st.neighbors && d in dv && d != self && dv[d] != 65535
      && d in st'.routes && st'.routes[d].hop == source
    case HearPong(port, source, rtt) =>
      || (Renews(ts.st, port, source, rtt) && (d == source || (d in ts.st.routes && ts.st.routes[d].hop == source)))
      || (d == source && d !in ts.st.routes && d in st'.routes)
    case Check => d in st'.routes && st'.routes[d].hop == d
  }

  function Confirmations(self: Id, ts: Timed, a: Action): map<Id, nat> {
    map d | d in After(self, ts, a).stamps ::
      if Confirms(self, ts, a, d) then ts.now else if d in ts.confirmed then ts.confirmed[d] else 0
  }

  function Next(self: Id, ts: Timed, a: Action): Timed {
    Timed(
      if a.Elapse? then ts.now + a.time else ts.now,
      if a.Check? then ts.now + CHECK_PERIOD else ts.nextCheck,
      After(self, ts, a),
      if a.HearPong? then ts.heard[a.source := ts.now] else ts.heard,
      Confirmations(self, ts, a))
  }

  predicate Legal(self: Id, peer: map<Port, Id>, ts: Timed, actions: seq<Action>)
    decreases |actions|
  {
    actions == [] || (Enabled(peer, ts, actions[0]) && Legal(self, peer, Next(self, ts, actions[0]), actions[1..]))
  }

  function Run(self: Id, ts: Timed, actions: seq<Action>): Timed
    decreases |actions|
  {
    if actions == [] then ts else Run(self, Next(self, ts, actions[0]), actions[1..])
  }

  /** No deadline was over at the last check. */
  ghost predicate Heard(ts: Timed, n: Id) {
    n in ts.heard && n in ts.st.neighbors && ts.st.neighbors[n].deadline == ts.heard[n] + PONG_TIMEOUT
    && ts.nextCheck < ts.st.neighbors[n].deadline + CHECK_PERIOD
  }

  ghost predicate Stamped(ts: Timed, d: Id) {
    d in ts.st.stamps && ts.nextCheck < ts.st.stamps[d] + CHECK_PERIOD
  }

  /** Every route is dated by the last event that confirmed it. */
  ghost predicate Dated(ts: Timed, d: Id) {
    d in ts.st.stamps && d in ts.confirmed && ts.st.stamps[d] == ts.confirmed[d] + 45000
  }

  ghost predicate AllDated(ts: Timed) {
    forall d {:trigger Dated(ts, d)} | d in ts.st.stamps :: Dated(ts, d)
  }

  lemma DvDates(self: Id, ts: Timed, source: Id, dv: Vector)
    requires AllDated(ts) && ts.st.stamps.Keys == ts.st.routes.Keys
    ensures AllDated(Next(self, ts, HearDv(source, dv)))
  {
    var ts' := Next(self, ts, HearDv(source, dv));
    forall d {:trigger Dated(ts', d)} | d in ts'.st.stamps ensures Dated(ts', d) {
      assert d in ts.st.stamps ==> Dated(ts, d);
    }
  }

  lemma PongDates(self: Id, ts: Timed, port: Port, source: Id, rtt: u16)
    requires AllDated(ts) && ts.st.stamps.Keys == ts.st.routes.Keys
    ensures AllDated(Next(self, ts, HearPong(port, source, rtt)))
  {
    var ts' := Next(self, ts, HearPong(port, source, rtt));
    forall d {:trigger Dated(ts', d)} | d in ts'.st.stamps ensures Dated(ts', d) {
      if d in ts.st.stamps {
        assert Dated(ts, d);
        PongStamps(ts.now, ts.st, port, source, rtt, d);
      } else {
        PongEnters(ts.now, ts.st, port, source, rtt, d);
        PongFinds(ts.now, ts.st, port, source, rtt);
      }
    }
  }

  lemma CheckDates(self: Id, peer: map<Port, Id>, ts: Timed)
    requires AllDated(ts) && Consistent(self, peer, ts.st)
    ensures AllDated(Next(self, ts, Check))
  {
    var ts' := Next(self, ts, Check);
    HopsKnown(self, ts.st);
    forall d {:trigger Dated(ts', d)} | d in ts'.st.stamps ensures Dated(ts', d) {
      CheckStamps(ts.now, ts.st, d);
      CheckKeepsRoutes(ts.now, ts.st, d);
      assert d in ts.st.stamps ==> Dated(ts, d);
    }
  }

  lemma HopsKnown(self: Id, st: State)
    requires Routed(self, st)
    ensures st.stamps.Keys == st.routes.Keys && forall x | x in st.routes :: st.routes[x].hop in st.neighbors
  {
    forall x | x in st.routes ensures st.routes[x].hop in st.neighbors {
      assert HopAlive(st.neighbors, st.routes, x);
    }
  }

  ghost predicate Inv(ts: Timed) {
    && ts.now <= ts.nextCheck <= ts.now + CHECK_PERIOD
    && (forall n {:trigger Heard(ts, n)} | n in ts.st.neighbors :: Heard(ts, n))
    && (forall d {:trigger Stamped(ts, d)} | d in ts.st.stamps :: Stamped(ts, d))
    && AllDated(ts)
  }

  lemma DvInv(self: Id, ts: Timed, source: Id, dv: Vector)
    requires Inv(ts) && ts.st.stamps.Keys == ts.st.routes.Keys
    ensures Inv(Next(self, ts, HearDv(source, dv)))
  {
    DvDates(self, ts, source, dv);
    var ts' := Next(self, ts, HearDv(source, dv));
    forall n {:trigger Heard(ts', n)} | n in ts'.st.neighbors ensures Heard(ts', n) {
      assert Heard(ts, n);
    }
    forall d {:trigger Stamped(ts', d)} | d in ts'.st.stamps ensures Stamped(ts', d) {
      assert d in ts.st.stamps ==> Stamped(ts, d);
    }
  }

  lemma PongInv(self: Id, ts: Timed, port: Port, source: Id, rtt: u16)
    requires Inv(ts) && ts.st.stamps.Keys == ts.st.routes.Keys
    ensures Inv(Next(self, ts, HearPong(port, source, rtt)))
  {
    PongDates(self, ts, port, source, rtt);
    var ts' := Next(self, ts, HearPong(port, source, rtt));
    forall n {:trigger Heard(ts', n)} | n in ts'.st.neighbors ensures Heard(ts', n) {
      assert n != source ==> Heard(ts, n);
    }
    forall d {:trigger Stamped(ts', d)} | d in ts'.st.stamps ensures Stamped(ts', d) {
      assert d in ts.st.stamps ==> Stamped(ts, d);
    }
  }

  /** After a check every deadline and every stamp lies ahead. */
  lemma CheckLeavesFresh(now: nat, st: State)
    ensures var st' := AfterTimeout(now, st);
            && (forall n {:trigger st'.neighbors[n]} | n in st'.neighbors ::
                  n in st.neighbors && st'.neighbors[n] == st.neighbors[n] && now < st'.neighbors[n].deadline)
  {
  }

  lemma RefreshLeavesFresh(self: Id, now: nat, st: State, d: Id)
    requires st.stamps.Keys == st.routes.Keys && d in AfterRefresh(now, st).stamps
    ensures now < AfterRefresh(now, st).stamps[d]
  {
  }

  lemma CheckInv(self: Id, peer: map<Port, Id>, ts: Timed)
    requires Consistent(self, peer, ts.st) && Inv(ts) && ts.now == ts.nextCheck
    ensures Inv(Next(self, ts, Check))
  {
    var ts' := Next(self, ts, Check);
    CheckDates(self, peer, ts);
    CheckLeavesFresh(ts.now, ts.st);
    EraseRouted(self, ts.now, ts.st);
    forall n {:trigger Heard(ts', n)} | n in ts'.st.neighbors ensures Heard(ts', n) {
      assert ts'.st.neighbors[n] == ts.st.neighbors[n];
      assert Heard(ts, n);
    }
    forall d {:trigger Stamped(ts', d)} | d in ts'.st.stamps ensures Stamped(ts', d) {
      RefreshLeavesFresh(self, ts.now, AfterErase(ts.now, ts.st), d);
    }
  }

  lemma NextInv(self: Id, peer: map<Port, Id>, ts: Timed, a: Action)
    requires Consistent(self, peer, ts.st) && Inv(ts) && Enabled(peer, ts, a)
    ensures Consistent(self, peer, Next(self, ts, a).st) && Inv(Next(self, ts, a))
  {
    match a
    case Elapse(time) => ElapseInv(self, ts, time);
    case HearDv(source, dv) =>
      DvKeeps(self, peer, ts.now, ts.st, source, dv);
      DvInv(self, ts, source, dv);
    case HearPong(port, source, rtt) =>
      PongKeeps(self, peer, ts.now, ts.st, port, source, rtt);
      PongInv(self, ts, port, source, rtt);
    case Check =>
      TimeoutKeeps(self, peer, ts.now, ts.st);
      CheckInv(self, peer, ts);
  }

  lemma ElapseInv(self: Id, ts: Timed, time: nat)
    requires Inv(ts) && ts.now + time <= ts.nextCheck
    ensures Inv(Next(self, ts, Elapse(time)))
  {
    var ts' := Next(self, ts, Elapse(time));
    forall n {:trigger Heard(ts', n)} | n in ts'.st.neighbors ensures Heard(ts', n) {
      assert Heard(ts, n);
    }
    forall d {:trigger Stamped(ts', d)} | d in ts'.st.stamps ensures Stamped(ts', d) {
      assert Stamped(ts, d);
    }
    forall d {:trigger Dated(ts', d)} | d in ts'.st.stamps ensures Dated(ts', d) {
      assert Dated(ts, d);
    }
  }

  lemma {:induction false} RunInv(self: Id, peer: map<Port, Id>, ts: Timed, actions: seq<Action>)
    requires Consistent(self, peer, ts.st) && Inv(ts) && Legal(self, peer, ts, actions)
    ensures Consistent(self, peer, Run(self, ts, actions).st) && Inv(Run(self, ts, actions))
    decreases |actions|
  {
    if actions == [] {
    } else {
      NextInv(self, peer, ts, actions[0]);
      RunInv(self, peer, Next(self, ts, actions[0]), actions[1..]);
    }
  }

  function Checks(actions: seq<Action>): nat {
    if actions == [] then 0 else (if actions[0] == Check then 1 else 0) + Checks(actions[1..])
  }

  /** The checks take place when the event loop rings the alarm for them. */
  lemma {:induction false} ChecksAreAlarms(self: Id, peer: map<Port, Id>, ts: Timed, actions: seq<Action>, before: nat)
    requires Legal(self, peer, ts, actions) && ts.nextCheck == Simulation.Nth(EventQueue.Timeout, before + 1)
    ensures Run(self, ts, actions).nextCheck == Simulation.Nth(EventQueue.Timeout, before + Checks(actions) + 1)
    decreases |actions|
  {
    if actions == [] {
    } else {
      var next := if actions[0] == Check then before + 1 else before;
      ChecksAreAlarms(self, peer, Next(self, ts, actions[0]), actions[1..], next);
    }
  }

  /** At no time is a neighbour in the table that has been silent for 16 seconds, or a route that nothing has confirmed
      for 46 seconds. */
  lemma NothingIsOld(self: Id, peer: map<Port, Id>, actions: seq<Action>)
    requires Wiring(self, peer) && Legal(self, peer, Initial(), actions)
    ensures var ts := Run(self, Initial(), actions);
            && Consistent(self, peer, ts.st)
            && (forall n | n in ts.st.neighbors :: n in ts.heard && ts.now - ts.heard[n] < 16000)
            && (forall d | d in ts.st.routes :: d in ts.confirmed && ts.now - ts.confirmed[d] < 46000)
  {
    var ts := Run(self, Initial(), actions);
    RunInv(self, peer, Initial(), actions);
    forall n | n in ts.st.neighbors ensures n in ts.heard && ts.now - ts.heard[n] < 16000 {
      assert Heard(ts, n);
    }
    forall d | d in ts.st.routes ensures d in ts.confirmed && ts.now - ts.confirmed[d] < 46000 {
      assert d in ts.st.stamps;
      assert Stamped(ts, d) && Dated(ts, d);
    }
  }

  /** At every check `n` has answered within the last 15 seconds. */
  ghost predicate Answering(self: Id, ts: Timed, actions: seq<Action>, n: Id)
    decreases |actions|
  {
    actions == [] ||
    ((actions[0] == Check ==> n in ts.heard && ts.now < ts.heard[n] + 15000) &&
     Answering(self, Next(self, ts, actions[0]), actions[1..], n))
  }

  lemma NextAnswered(self: Id, ts: Timed, a: Action, n: Id)
    requires Inv(ts) && n in ts.st.neighbors && (a == Check ==> n in ts.heard && ts.now < ts.heard[n] + 15000)
    ensures n in Next(self, ts, a).st.neighbors
  {
    assert Heard(ts, n);
  }

  /** A neighbour that keeps answering is never dropped, nor left without a route. */
  lemma {:induction false} AnsweredStays(self: Id, peer: map<Port, Id>, ts: Timed, actions: seq<Action>, n: Id)
    requires Consistent(self, peer, ts.st) && Inv(ts) && Legal(self, peer, ts, actions)
    requires n in ts.st.neighbors && Answering(self, ts, actions, n)
    ensures n in Run(self, ts, actions).st.neighbors && n in Run(self, ts, actions).st.routes
    decreases |actions|
  {
    if actions == [] {
      assert ts.st.neighbors[n] == ts.st.neighbors[n];
    } else {
      NextInv(self, peer, ts, actions[0]);
      NextAnswered(self, ts, actions[0], n);
      AnsweredStays(self, peer, Next(self, ts, actions[0]), actions[1..], n);
    }
  }

  // ---- what has been lost stays lost ----

  /** Nothing in this action brings a way to `d` that does not lead back: no pong of `d`, and packets of routers that
      do not know `d` or reach it over `self`. */
  ghost predicate LeadsBack(self: Id, a: Action, d: Id) {
    match a
    case HearDv(_, dv) => exists its: Routes {:trigger Advertise(its, self)} ::
      dv == Advertise(its, self) && (d in its ==> its[d].hop == self)
    case HearPong(_, source, _) => source != d
    case _ => true
  }

  lemma NotBroughtBack(self: Id, ts: Timed, a: Action, d: Id)
    requires ts.st.stamps.Keys == ts.st.routes.Keys && d !in ts.st.routes && d != self && LeadsBack(self, a, d)
    requires a.Check? ==> forall x | x in ts.st.routes :: ts.st.routes[x].hop in ts.st.neighbors
    ensures d !in Next(self, ts, a).st.routes
  {
    match a
    case Elapse(_) =>
    case HearDv(source, dv) =>
      var its: Routes :| dv == Advertise(its, self) && (d in its ==> its[d].hop == self);
      PacketSays(its, self, d);
    case HearPong(port, source, rtt) => PongEnters(ts.now, ts.st, port, source, rtt, d);
    case Check => CheckKeepsRoutes(ts.now, ts.st, d);
  }

  /** A router that has lost a destination does not get it back from routers that reach it over this router, whatever
      they send, and whatever else happens. */
  lemma {:induction false} LostStaysLost(self: Id, peer: map<Port, Id>, ts: Timed, actions: seq<Action>, d: Id)
    requires Consistent(self, peer, ts.st) && Inv(ts) && Legal(self, peer, ts, actions)
    requires d !in ts.st.routes && d != self && forall a | a in actions :: LeadsBack(self, a, d)
    ensures d !in Run(self, ts, actions).st.routes
    decreases |actions|
  {
    if actions == [] {
    } else {
      NextInv(self, peer, ts, actions[0]);
      HopsKnown(self, ts.st);
      NotBroughtBack(self, ts, actions[0], d);
      LostStaysLost(self, peer, Next(self, ts, actions[0]), actions[1..], d);
    }
  }

  lemma OneAction(self: Id, peer: map<Port, Id>, ts: Timed, a: Action)
    requires Enabled(peer, ts, a)
    ensures Legal(self, peer, ts, [a]) && Run(self, ts, [a]) == Next(self, ts, a)
    ensures Checks([a]) == if a == Check then 1 else 0
  {
    assert [a][1..] == [];
  }

  lemma {:induction false} RunAppend(self: Id, peer: map<Port, Id>, ts: Timed, a: seq<Action>, b: seq<Action>)
    requires Legal(self, peer, ts, a) && Legal(self, peer, Run(self, ts, a), b)
    ensures Legal(self, peer, ts, a + b) && Run(self, ts, a + b) == Run(self, Run(self, ts, a), b)
    decreases |a|
  {
    if a == [] {
      assert a + b == b;
    } else {
      RunAppend(self, peer, Next(self, ts, a[0]), a[1..], b);
      assert (a + b)[1..] == a[1..] + b;
    }
  }

  lemma RunPrepend(self: Id, peer: map<Port, Id>, ts: Timed, a: Action, rest: seq<Action>)
    requires Enabled(peer, ts, a) && Legal(self, peer, Next(self, ts, a), rest)
    ensures Legal(self, peer, ts, [a] + rest) && Run(self, ts, [a] + rest) == Run(self, Next(self, ts, a), rest)
  {
    OneAction(self, peer, ts, a);
    RunAppend(self, peer, ts, [a], rest);
  }

  // ---- the bound is exact ----

  ghost predicate Remembers(ts: Timed, n: Id, entry: Neighbor, heardAt: nat) {
    n in ts.st.neighbors && ts.st.neighbors[n] == entry && n in ts.heard && ts.heard[n] == heardAt
  }

  lemma CheckRemembers(self: Id, ts: Timed, n: Id, entry: Neighbor, heardAt: nat)
    requires Remembers(ts, n, entry, heardAt) && ts.now < entry.deadline
    ensures Remembers(Next(self, ts, Check), n, entry, heardAt)
  {
  }

  /** Seconds pass, and the checks let a neighbour stay whose deadline lies ahead of all of them. */
  lemma {:induction false} Seconds(self: Id, peer: map<Port, Id>, ts: Timed, n: Id, entry: Neighbor, heardAt: nat,
                                   k: nat)
    returns (actions: seq<Action>)
    requires ts.now == ts.nextCheck && Remembers(ts, n, entry, heardAt)
    requires k > 0 ==> ts.now + CHECK_PERIOD * (k - 1) < entry.deadline
    ensures Legal(self, peer, ts, actions)
    ensures var ts' := Run(self, ts, actions); ts'.now == ts.now + CHECK_PERIOD * k && Remembers(ts', n, entry, heardAt)
    decreases k
  {
    actions := [];
    if k == 0 {
    } else {
      var ts1 := Next(self, ts, Check);
      var ts2 := Next(self, ts1, Elapse(CHECK_PERIOD));
      CheckRemembers(self, ts, n, entry, heardAt);
      var rest := Seconds(self, peer, ts2, n, entry, heardAt, k - 1);
      RunPrepend(self, peer, ts1, Elapse(CHECK_PERIOD), rest);
      RunPrepend(self, peer, ts, Check, [Elapse(CHECK_PERIOD)] + rest);
      actions := [Check] + ([Elapse(CHECK_PERIOD)] + rest);
    }
  }

  /** A neighbour can stay in the table one millisecond short of 16 seconds after its last pong. */
  lemma SilenceBoundIsExact(self: Id, peer: map<Port, Id>, port: Port) returns (actions: seq<Action>)
    requires Wiring(self, peer) && port in peer
    ensures Legal(self, peer, Initial(), actions)
    ensures var ts := Run(self, Initial(), actions);
            && peer[port] in ts.st.neighbors && peer[port] in ts.heard
            && ts.now - ts.heard[peer[port]] == 15999
  {
    var n := peer[port];
    var pong := HearPong(port, n, 0);
    var ts1 := Next(self, Initial(), Elapse(1));
    var ts2 := Next(self, ts1, pong);
    var ts3 := Next(self, ts2, Elapse(999));
    var entry := Neighbor(0, port, 1 + PONG_TIMEOUT);
    assert Remembers(ts3, n, entry, 1);
    var rest := Seconds(self, peer, ts3, n, entry, 1, 15);
    RunPrepend(self, peer, ts2, Elapse(999), rest);
    RunPrepend(self, peer, ts1, pong, [Elapse(999)] + rest);
    RunPrepend(self, peer, Initial(), Elapse(1), [pong] + ([Elapse(999)] + rest));
    actions := [Elapse(1)] + ([pong] + ([Elapse(999)] + rest));
  }
}
