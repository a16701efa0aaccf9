/** What two pongs in a row make of the route to a neighbour, in runs that do occur. */
module DvUndershoots {
  import opened Contacts
  import opened DvHandlers
  import opened DvTiming
  import opened RouterTables
  import opened Words

  /** By `time`, no neighbour has been silent for too long, and no route over another router is too old. */
  ghost predicate Steady(st: State, time: nat) {
    && (forall n | n in st.neighbors :: time < st.neighbors[n].deadline)
    && (forall d | d in st.stamps && d in st.routes && st.routes[d].hop != d :: time < st.stamps[d])
  }

  /** The same but for the stamps of direct routes. */
  ghost predicate Alike(a: State, b: State) {
    && a.neighbors == b.neighbors && a.ports == b.ports && a.routes == b.routes && a.stamps.Keys == b.stamps.Keys
    && forall d | d in a.stamps && d in a.routes && a.routes[d].hop != d :: a.stamps[d] == b.stamps[d]
  }

  lemma NobodyBuried(now: nat, st: State)
    requires Steady(st, now)
    ensures AfterErase(now, st) == st
  {
    assert Dead(now, st.neighbors) == {};
    assert ThroughDead(st.routes, {}) == {};
  }

  /** A check changes nothing when nothing is over. */
  lemma CheckIsSteady(now: nat, st: State)
    requires Steady(st, now)
    ensures Alike(st, AfterTimeout(now, st))
  {
    NobodyBuried(now, st);
    assert Expired(now, st) == {};
  }

  lemma {:induction false} SteadySeconds(self: Id, peer: map<Port, Id>, ts: Timed, k: nat)
    returns (actions: seq<Action>)
    requires ts.now == ts.nextCheck && (k > 0 ==> Steady(ts.st, ts.now + CHECK_PERIOD * (k - 1)))
    ensures Legal(self, peer, ts, actions)
    ensures var ts' := Run(self, ts, actions);
            ts'.now == ts'.nextCheck == ts.now + CHECK_PERIOD * k && Alike(ts.st, ts'.st)
    decreases k
  {
    actions := [];
    if k == 0 {
    } else {
      var ts1 := Next(self, ts, Check);
      var ts2 := Next(self, ts1, Elapse(CHECK_PERIOD));
      CheckIsSteady(ts.now, ts.st);
      var rest := SteadySeconds(self, peer, ts2, k - 1);
      RunPrepend(self, peer, ts1, Elapse(CHECK_PERIOD), rest);
      RunPrepend(self, peer, ts, Check, [Elapse(CHECK_PERIOD)] + rest);
      actions := [Check] + ([Elapse(CHECK_PERIOD)] + rest);
    }
  }

  /** The first pong of a run, and the time until the first check. */
  lemma FirstPong(self: Id, peer: map<Port, Id>, port: Port, a: u16) returns (actions: seq<Action>)
    requires port in peer && a <= CHECK_PERIOD
    ensures Legal(self, peer, Initial(), actions)
    ensures var ts := Run(self, Initial(), actions);
            && ts.now == ts.nextCheck == CHECK_PERIOD
            && ts.st == State(map[peer[port] := Neighbor(a, port, a + PONG_TIMEOUT)], map[port := peer[port]],
                              map[peer[port] := Route(a, peer[port])], map[peer[port] := a + DV_LS_TIMEOUT])
  {
    var ts1 := Next(self, Initial(), Elapse(a));
    var pong := HearPong(port, peer[port], a);
    var ts2 := Next(self, ts1, pong);
    OneAction(self, peer, ts2, Elapse(CHECK_PERIOD - a));
    RunPrepend(self, peer, ts1, pong, [Elapse(CHECK_PERIOD - a)]);
    RunPrepend(self, peer, Initial(), Elapse(a), [pong] + [Elapse(CHECK_PERIOD - a)]);
    actions := [Elapse(a)] + ([pong] + [Elapse(CHECK_PERIOD - a)]);
  }

  lemma PongAtOnce(self: Id, peer: map<Port, Id>, ts: Timed, port: Port, b: u16)
    requires port in peer
    ensures var pong := HearPong(port, peer[port], b);
            && Legal(self, peer, ts, [pong]) && Run(self, ts, [pong]).now == ts.now
            && Run(self, ts, [pong]).st == AfterPong(ts.now, ts.st, port, peer[port], b)
  {
    OneAction(self, peer, ts, HearPong(port, peer[port], b));
  }

  lemma CheckThenWait(self: Id, ts: Timed, b: nat)
    requires ts.now == ts.nextCheck && Steady(ts.st, ts.now)
    ensures var ts2 := Next(self, Next(self, ts, Check), Elapse(b));
            ts2.now == ts.now + b && Next(self, ts, Check).now == ts.now && Alike(ts.st, ts2.st)
    ensures Next(self, ts, Check).nextCheck == ts.now + CHECK_PERIOD
  {
    CheckIsSteady(ts.now, ts.st);
  }

  /** A pong `b` ms after a check at which nothing is over. */
  lemma LaterPong(self: Id, peer: map<Port, Id>, ts: Timed, port: Port, b: u16)
    returns (actions: seq<Action>, was: State)
    requires port in peer && b <= CHECK_PERIOD && ts.now == ts.nextCheck && Steady(ts.st, ts.now)
    ensures Legal(self, peer, ts, actions) && Alike(ts.st, was)
    ensures var ts' := Run(self, ts, actions);
            ts'.now == ts.now + b && ts'.st == AfterPong(ts.now + b, was, port, peer[port], b)
  {
    var ts1 := Next(self, ts, Check);
    var ts2 := Next(self, ts1, Elapse(b));
    var pong := HearPong(port, peer[port], b);
    CheckThenWait(self, ts, b);
    was := ts2.st;
    PongAtOnce(self, peer, ts2, port, b);
    RunPrepend(self, peer, ts1, Elapse(b), [pong]);
    RunPrepend(self, peer, ts, Check, [Elapse(b)] + [pong]);
    actions := [Check] + ([Elapse(b)] + [pong]);
  }

  /** A neighbour answers the first ping after `a` ms and the next one, ten seconds later, after `b` ms. The route to it
      is right if and only if the time has not fallen, or has fallen to less than half. */
  lemma TwoPongs(self: Id, peer: map<Port, Id>, port: Port, a: u16, b: u16) returns (actions: seq<Action>)
    requires Wiring(self, peer) && port in peer && a <= CHECK_PERIOD && b <= CHECK_PERIOD
    ensures Legal(self, peer, Initial(), actions)
    ensures var ts, n := Run(self, Initial(), actions), peer[port];
            && ts.now == 10000 + b && n in ts.st.neighbors && ts.st.neighbors[n].cost == b && n in ts.st.routes
            && (ts.st.routes[n] == Route(b, n) <==> a <= b || 2 * b < a)
  {
    var first := FirstPong(self, peer, port, a);
    var ts1 := Run(self, Initial(), first);
    var seconds := SteadySeconds(self, peer, ts1, 9);
    RunAppend(self, peer, Initial(), first, seconds);
    var ts2 := Run(self, Initial(), first + seconds);
    var last, was := LaterPong(self, peer, ts2, port, b);
    RunAppend(self, peer, Initial(), first + seconds, last);
    actions := first + seconds + last;
    OwnRouteOvershoots(10000 + b, was, port, peer[port], b);
  }
}
