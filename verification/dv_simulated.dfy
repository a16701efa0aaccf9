/** A distance-vector router in the event loop: what it lives through there is a legal run of `DvTiming`. */
module DvSimulated {
  import opened Contacts
  import opened DvHandlers
  import opened DvTiming
  import opened Options
  import opened Words
  import EventQueue
  import Simulation

  /** What a router makes of an event that brings it a packet. */
  type Reader = EventQueue.Event -> Option<Action>

  /** Only a packet for this router concerns its tables, and a pong comes from the other end of its port. */
  ghost predicate Understood(self: Id, peer: map<Port, Id>, e: EventQueue.Event, a: Action) {
    && e.deed.Receive? && e.deed.sent.dest == self
    && (a.HearDv? || (a.HearPong? && a.port == e.deed.sent.port && a.port in peer && a.source == peer[a.port]))
  }

  ghost predicate Understands(self: Id, peer: map<Port, Id>, read: Reader) {
    forall e {:trigger read(e)} | read(e).Some? :: Understood(self, peer, e, read(e).value)
  }

  ghost function CheckAlarm(self: Id): EventQueue.Deed {
    EventQueue.Alarm(self, EventQueue.Timeout)
  }

  ghost function LastTime(history: seq<EventQueue.Event>): nat {
    if history == [] then 0 else history[|history| - 1].time
  }

  /** What an event means to the router. */
  ghost function Act(self: Id, read: Reader, e: EventQueue.Event): seq<Action> {
    if e.deed == CheckAlarm(self) then [Check] else if read(e).Some? then [read(e).value] else []
  }

  /** The same with the time since the last event. */
  ghost function Step(self: Id, read: Reader, before: nat, e: EventQueue.Event): seq<Action>
    requires before <= e.time
  {
    [Elapse(e.time - before)] + Act(self, read, e)
  }

  /** A history of the event loop, as the router lives through it. */
  ghost function Timeline(self: Id, read: Reader, history: seq<EventQueue.Event>): seq<Action>
    requires Simulation.InTime(history)
  {
    if history == [] then [] else
    var before := history[..|history| - 1];
    Timeline(self, read, before) + Step(self, read, LastTime(before), history[|history| - 1])
  }

  ghost predicate AtEvent(self: Id, ts: Timed, history: seq<EventQueue.Event>) {
    && ts.now == LastTime(history)
    && ts.nextCheck == Simulation.Nth(EventQueue.Timeout, Simulation.Fired(history, CheckAlarm(self)) + 1)
  }

  lemma ActIsLegal(self: Id, peer: map<Port, Id>, read: Reader, ts: Timed, e: EventQueue.Event)
    requires Understands(self, peer, read) && (e.deed == CheckAlarm(self) ==> ts.now == ts.nextCheck)
    ensures var act := Act(self, read, e);
            && Legal(self, peer, ts, act) && Run(self, ts, act).now == ts.now
            && Checks(act) == if e.deed == CheckAlarm(self) then 1 else 0
  {
    var act := Act(self, read, e);
    if act != [] {
      assert act[0] != Check ==> Understood(self, peer, e, act[0]);
      OneAction(self, peer, ts, act[0]);
    }
  }

  lemma ActAtEvent(self: Id, peer: map<Port, Id>, read: Reader, ts: Timed, before: seq<EventQueue.Event>,
                   e: EventQueue.Event)
    requires Understands(self, peer, read) && ts.now == e.time
    requires ts.nextCheck == Simulation.Nth(EventQueue.Timeout, Simulation.Fired(before, CheckAlarm(self)) + 1)
    requires e.deed == CheckAlarm(self) ==> ts.now == ts.nextCheck
    ensures var act := Act(self, read, e); Legal(self, peer, ts, act) && AtEvent(self, Run(self, ts, act), before + [e])
  {
    ActIsLegal(self, peer, read, ts, e);
    ChecksAreAlarms(self, peer, ts, Act(self, read, e), Simulation.Fired(before, CheckAlarm(self)));
    Simulation.FiredOneMore(before, e, CheckAlarm(self));
  }

  /** An event on time is legal, and after it the next check is the next alarm. */
  lemma StepIsLegal(self: Id, peer: map<Port, Id>, read: Reader, ts: Timed, before: seq<EventQueue.Event>,
                    e: EventQueue.Event)
    requires Understands(self, peer, read) && Simulation.OnTime({self}, before, e)
    requires AtEvent(self, ts, before) && ts.now <= e.time
    ensures var step := Step(self, read, LastTime(before), e);
            Legal(self, peer, ts, step) && AtEvent(self, Run(self, ts, step), before + [e])
  {
    var elapse := Elapse(e.time - ts.now);
    var mid := Next(self, ts, elapse);
    assert mid.now == e.time && mid.nextCheck == ts.nextCheck;
    assert Simulation.Nth(EventQueue.Timeout, Simulation.Fired(before, CheckAlarm(self)) + 1) == ts.nextCheck;
    ActAtEvent(self, peer, read, mid, before, e);
    RunPrepend(self, peer, ts, elapse, Act(self, read, e));
  }

  lemma TimelineGoesOn(self: Id, peer: map<Port, Id>, read: Reader, start: Timed, past: seq<Action>,
                       before: seq<EventQueue.Event>, e: EventQueue.Event)
    requires Understands(self, peer, read) && Simulation.OnTime({self}, before, e) && LastTime(before) <= e.time
    requires Legal(self, peer, start, past) && AtEvent(self, Run(self, start, past), before)
    ensures var actions := past + Step(self, read, LastTime(before), e);
            Legal(self, peer, start, actions) && AtEvent(self, Run(self, start, actions), before + [e])
  {
    StepIsLegal(self, peer, read, Run(self, start, past), before, e);
    RunAppend(self, peer, start, past, Step(self, read, LastTime(before), e));
  }

  /** Time never passes the pending check, and checks take place exactly at their alarms. */
  lemma {:induction false} TimelineIsLegal(self: Id, peer: map<Port, Id>, read: Reader, start: Timed,
                                           history: seq<EventQueue.Event>)
    requires Understands(self, peer, read) && AtEvent(self, start, [])
    requires Simulation.InTime(history) && Simulation.Punctual({self}, history)
    ensures var actions := Timeline(self, read, history);
            Legal(self, peer, start, actions) && AtEvent(self, Run(self, start, actions), history)
  {
    if history == [] {
    } else {
      var before, e := history[..|history| - 1], history[|history| - 1];
      TimelineIsLegal(self, peer, read, start, before);
      TimelineGoesOn(self, peer, read, start, Timeline(self, read, before), before, e);
      assert before + [e] == history;
    }
  }

  lemma {:induction false} FewerRouters(routers: set<Id>, some: set<Id>, history: seq<EventQueue.Event>)
    requires Simulation.Punctual(routers, history) && some <= routers
    ensures Simulation.Punctual(some, history)
  {
    if history == [] {
    } else {
      FewerRouters(routers, some, history[..|history| - 1]);
    }
  }

  /** Whenever the event loop is at its head, every router has lived through a legal run, its next check is an alarm
      that is waiting in the queue, and nothing in its tables is old. */
  lemma SimulatedIsFresh(simulator: Simulation.Simulator, self: Id, peer: map<Port, Id>, read: Reader)
    returns (alarm: EventQueue.Event)
    requires simulator.Valid() && self in simulator.routers && Wiring(self, peer) && Understands(self, peer, read)
    ensures alarm in simulator.queued && alarm.deed == CheckAlarm(self)
    ensures var actions := Timeline(self, read, simulator.dispatched);
            var ts := Run(self, Initial(), actions);
            && Legal(self, peer, Initial(), actions) && Consistent(self, peer, ts.st)
            && ts.now <= simulator.globalTime <= ts.nextCheck == alarm.time
            && (forall n | n in ts.st.neighbors :: n in ts.heard && ts.now - ts.heard[n] < 16000)
            && (forall d | d in ts.st.routes :: d in ts.confirmed && ts.now - ts.confirmed[d] < 46000)
  {
    var history := simulator.dispatched;
    FewerRouters(simulator.routers, {self}, history);
    TimelineIsLegal(self, peer, read, Initial(), history);
    NothingIsOld(self, peer, Timeline(self, read, history));
    alarm := Simulation.NextAlarm(simulator.routers, simulator.queued, history, simulator.globalTime, self,
                                  EventQueue.Timeout);
  }
}
