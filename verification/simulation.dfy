/** The event loop: events are dispatched in the order of time, and every alarm is set again when it goes off. */
module Simulation {
  import opened Options
  import opened Words
  import opened EventQueue
  import Contacts

  /** Something to be done at a time. */
  datatype Due = Due(time: nat, deed: Deed)

  /** What a router sends when `deed` reaches it in turn `turn` of the loop, and which packets the links lose. */
  type Reactions = (nat, Deed) -> seq<Transmission>
  type Losses = nat -> bool

  const PING_PERIOD := 10000
  const UPDATE_PERIOD := 30000

  function Period(kind: Kind): nat {
    match kind
    case Ping => PING_PERIOD
    case Timeout => Contacts.CHECK_PERIOD
    case Update => UPDATE_PERIOD
  }

  /** When an alarm goes off for the `n`-th time. */
  function Nth(kind: Kind, n: nat): nat {
    match kind
    case Ping => PING_PERIOD * n
    case Timeout => Contacts.CHECK_PERIOD * n
    case Update => UPDATE_PERIOD * n
  }

  /** Packets sent at once. */
  function Sends(now: nat, sent: seq<Transmission>): (dues: seq<Due>)
    ensures |dues| == |sent|
  {
    seq(|sent|, i requires 0 <= i < |sent| => Due(now, OnLink(sent[i])))
  }

  /** The links: which are down, and how long each takes. */
  datatype Links = Links(down: set<Link>, delay: Link -> nat)

  function Changed(delay: Link -> nat, link: Link, time: nat): Link -> nat {
    l => if l == link then time else delay(l)
  }

  function LinksAfter(links: Links, deed: Deed): Links {
    match deed
    case ChangeDelay(link, d) => links.(delay := Changed(links.delay, link, d))
    case Die(link) => links.(down := links.down + {link})
    case ComeUp(link) => links.(down := links.down - {link})
    case _ => links
  }

  /** What a dispatch adds to the queue. */
  function Spawned(now: nat, deed: Deed, links: Links, sent: seq<Transmission>, lost: bool): seq<Due> {
    match deed
    case ChangeDelay(_, _) => []
    case Die(_) => []
    case ComeUp(_) => []
    case EndToEnd(_, _) => Sends(now, sent)
    case OnLink(t) => if t.link in links.down || lost then [] else [Due(now + links.delay(t.link), Receive(t))]
    case Receive(_) => Sends(now, sent)
    case Alarm(_, kind) => Sends(now, sent) + [Due(now + Period(kind), deed)]
  }

  /** The events made of `dues`, numbered from `serial` on. */
  ghost function Made(dues: seq<Due>, serial: nat): set<Event> {
    MadeUpTo(dues, |dues|, serial)
  }

  ghost function MadeUpTo(dues: seq<Due>, n: nat, serial: nat): set<Event>
    requires n <= |dues|
  {
    if n == 0 then {} else
    MadeUpTo(dues, n - 1, serial) + {Event(serial + n - 1, dues[n - 1].time, dues[n - 1].deed)}
  }

  lemma {:induction false} MadeMembers(dues: seq<Due>, n: nat, serial: nat)
    requires n <= |dues|
    ensures forall e {:trigger e in MadeUpTo(dues, n, serial)} :: e in MadeUpTo(dues, n, serial) <==>
              serial <= e.serial < serial + n && dues[e.serial - serial] == Due(e.time, e.deed)
  {
    if n == 0 {
    } else {
      MadeMembers(dues, n - 1, serial);
    }
  }

  // ---- what a run has dispatched ----

  function Fired(dispatched: seq<Event>, deed: Deed): nat {
    if dispatched == [] then 0 else
    Fired(dispatched[..|dispatched| - 1], deed) + if dispatched[|dispatched| - 1].deed == deed then 1 else 0
  }

  ghost predicate InTime(dispatched: seq<Event>) {
    forall i, j {:trigger dispatched[i], dispatched[j]} | 0 <= i < j < |dispatched| ::
      dispatched[i].time <= dispatched[j].time
  }

  ghost predicate NoneTwice(dispatched: seq<Event>) {
    forall i, j {:trigger dispatched[i], dispatched[j]} | 0 <= i < j < |dispatched| :: dispatched[i] != dispatched[j]
  }

  /** What has been dispatched is over, in the order of time, and nothing of it twice. */
  ghost predicate Past(queued: set<Event>, dispatched: seq<Event>, now: nat, serial: nat) {
    && InTime(dispatched) && NoneTwice(dispatched)
    && forall i {:trigger dispatched[i]} | 0 <= i < |dispatched| ::
         dispatched[i].time <= now && dispatched[i].serial < serial && dispatched[i] !in queued
  }

  /** One alarm of this kind is pending, and only one. */
  ghost predicate PendingOnce(queued: set<Event>, alarm: Deed, time: nat) {
    exists e :: e in queued && e.deed == alarm && e.time == time && forall f | f in queued && f.deed == alarm :: f == e
  }

  /** An alarm that has gone off at every multiple of its period so far; the next one is pending. */
  ghost predicate Regular(queued: set<Event>, dispatched: seq<Event>, now: nat, alarm: Deed)
    requires alarm.Alarm?
  {
    var fired := Fired(dispatched, alarm);
    PendingOnce(queued, alarm, Nth(alarm.kind, fired + 1)) && Nth(alarm.kind, fired) <= now
  }

  ghost predicate Armed(routers: set<Id>, queued: set<Event>, dispatched: seq<Event>, now: nat) {
    forall r, k {:trigger Alarm(r, k)} | r in routers :: Regular(queued, dispatched, now, Alarm(r, k))
  }

  /** An event that comes no later than the pending alarms, and is one of them only when its time has come. */
  ghost predicate OnTime(routers: set<Id>, before: seq<Event>, e: Event) {
    forall r, k {:trigger Alarm(r, k)} | r in routers ::
      var due := Nth(k, Fired(before, Alarm(r, k)) + 1);
      e.time <= due && (e.deed == Alarm(r, k) ==> e.time == due)
  }

  ghost predicate Punctual(routers: set<Id>, dispatched: seq<Event>) {
    dispatched == [] ||
    var before := dispatched[..|dispatched| - 1];
    Punctual(routers, before) && OnTime(routers, before, dispatched[|dispatched| - 1])
  }

  /** No alarm is passed over. */
  lemma PunctualKept(routers: set<Id>, queued: set<Event>, dispatched: seq<Event>, now: nat, e: Event)
    requires Armed(routers, queued, dispatched, now) && Punctual(routers, dispatched)
    requires e in queued && forall f | f in queued :: e.time <= f.time
    ensures Punctual(routers, dispatched + [e])
  {
    forall r, k {:trigger Alarm(r, k)} | r in routers
      ensures var due := Nth(k, Fired(dispatched, Alarm(r, k)) + 1);
              e.time <= due && (e.deed == Alarm(r, k) ==> e.time == due)
    {
      assert Regular(queued, dispatched, now, Alarm(r, k));
    }
    assert OnTime(routers, dispatched, e);
    assert (dispatched + [e])[..|dispatched|] == dispatched;
  }

  lemma FiredOneMore(dispatched: seq<Event>, e: Event, deed: Deed)
    ensures Fired(dispatched + [e], deed) == Fired(dispatched, deed) + if e.deed == deed then 1 else 0
  {
    assert (dispatched + [e])[..|dispatched|] == dispatched;
  }

  lemma {:induction false} MadeOneMore(dues: seq<Due>, due: Due, n: nat, serial: nat)
    requires n <= |dues|
    ensures MadeUpTo(dues + [due], n, serial) == MadeUpTo(dues, n, serial)
    ensures n == |dues| ==>
              Made(dues + [due], serial) == Made(dues, serial) + {Event(serial + |dues|, due.time, due.deed)}
  {
    if n == 0 {
    } else {
      MadeOneMore(dues, due, n - 1, serial);
    }
  }

  /** Only an alarm sets an alarm: itself, a period later. */
  ghost predicate Rearms(e: Event, dues: seq<Due>) {
    && (e.deed.Alarm? ==> dues != [] && dues[|dues| - 1] == Due(e.time + Period(e.deed.kind), e.deed))
    && forall i | 0 <= i < |dues| && dues[i].deed.Alarm? :: e.deed.Alarm? && i == |dues| - 1
  }

  lemma SpawnedRearms(e: Event, links: Links, sent: seq<Transmission>, lost: bool)
    ensures Rearms(e, Spawned(e.time, e.deed, links, sent, lost))
  {
  }

  /** Every alarm stays armed when `e` is dispatched. */
  lemma StaysArmed(routers: set<Id>, queued: set<Event>, dispatched: seq<Event>, now: nat, e: Event, dues: seq<Due>,
                   serial: nat)
    requires Armed(routers, queued, dispatched, now) && e in queued && now <= e.time
    requires Rearms(e, dues)
    ensures Armed(routers, queued - {e} + Made(dues, serial), dispatched + [e], e.time)
  {
    forall r, k {:trigger Alarm(r, k)} | r in routers
      ensures Regular(queued - {e} + Made(dues, serial), dispatched + [e], e.time, Alarm(r, k))
    {
      assert Regular(queued, dispatched, now, Alarm(r, k));
      AlarmKept(queued, e, dues, serial, Alarm(r, k), Nth(k, Fired(dispatched, Alarm(r, k)) + 1));
      FiredOneMore(dispatched, e, Alarm(r, k));
    }
  }

  lemma PastKept(queued: set<Event>, dispatched: seq<Event>, now: nat, serial: nat, e: Event, dues: seq<Due>)
    requires Past(queued, dispatched, now, serial) && e in queued && now <= e.time && e.serial < serial
    ensures Past(queued - {e} + Made(dues, serial), dispatched + [e], e.time, serial + |dues|)
    ensures e !in Made(dues, serial) && queued + Made(dues, serial) - {e} == queued - {e} + Made(dues, serial)
  {
    MadeMembers(dues, |dues|, serial);
  }

  lemma TurnKeeps(routers: set<Id>, queued: set<Event>, dispatched: seq<Event>, now: nat, serial: nat, e: Event,
                  dues: seq<Due>)
    requires Armed(routers, queued, dispatched, now) && Past(queued, dispatched, now, serial)
    requires Punctual(routers, dispatched)
    requires e in queued && now <= e.time && e.serial < serial && forall f | f in queued :: e.time <= f.time
    requires Rearms(e, dues)
    ensures var after := queued + Made(dues, serial) - {e};
            && after == queued - {e} + Made(dues, serial)
            && Armed(routers, after, dispatched + [e], e.time) && Punctual(routers, dispatched + [e])
            && Past(after, dispatched + [e], e.time, serial + |dues|)
  {
    PunctualKept(routers, queued, dispatched, now, e);
    PastKept(queued, dispatched, now, serial, e, dues);
    StaysArmed(routers, queued, dispatched, now, e, dues, serial);
  }

  /** The alarm that goes off is set again; the others stay as they are. */
  lemma AlarmKept(queued: set<Event>, e: Event, dues: seq<Due>, serial: nat, alarm: Deed, time: nat)
    requires alarm.Alarm? && PendingOnce(queued, alarm, time) && e in queued
    requires Rearms(e, dues)
    ensures PendingOnce(queued - {e} + Made(dues, serial), alarm,
                        if e.deed == alarm then time + Period(alarm.kind) else time)
  {
    var pending :| pending in queued && pending.deed == alarm && pending.time == time
                   && forall f | f in queued && f.deed == alarm :: f == pending;
    var after := queued - {e} + Made(dues, serial);
    MadeMembers(dues, |dues|, serial);
    if e.deed == alarm {
      var again := Event(serial + |dues| - 1, e.time + Period(alarm.kind), alarm);
      assert dues[|dues| - 1] == Due(again.time, alarm);
      assert again in after;
      forall f | f in after && f.deed == alarm ensures f == again {
      }
    } else {
      assert pending in after;
    }
  }

  // ---- what a run has made ----

  /** Whether a link is up: what the last event that killed or revived it says, or the start. */
  ghost predicate UpAt(history: seq<Event>, start: Links, link: Link) {
    if history == [] then link !in start.down else
    match history[|history| - 1].deed
    case Die(l) => l != link && UpAt(history[..|history| - 1], start, link)
    case ComeUp(l) => l == link || UpAt(history[..|history| - 1], start, link)
    case _ => UpAt(history[..|history| - 1], start, link)
  }

  /** The delay of a link: what the last event that changed it says, or the start. */
  ghost function DelayAt(history: seq<Event>, start: Links, link: Link): nat {
    if history == [] then start.delay(link) else
    match history[|history| - 1].deed
    case ChangeDelay(l, d) => if l == link then d else DelayAt(history[..|history| - 1], start, link)
    case _ => DelayAt(history[..|history| - 1], start, link)
  }

  /** The links are as the history tells. */
  ghost predicate LinksTell(links: Links, history: seq<Event>, start: Links) {
    forall l {:trigger links.delay(l)} ::
      (l !in links.down <==> UpAt(history, start, l)) && links.delay(l) == DelayAt(history, start, l)
  }

  lemma LinksStillTell(links: Links, history: seq<Event>, start: Links, e: Event)
    requires LinksTell(links, history, start)
    ensures LinksTell(LinksAfter(links, e.deed), history + [e], start)
  {
    assert (history + [e])[..|history|] == history;
    forall l {:trigger LinksAfter(links, e.deed).delay(l)}
      ensures (l !in LinksAfter(links, e.deed).down <==> UpAt(history + [e], start, l))
      ensures LinksAfter(links, e.deed).delay(l) == DelayAt(history + [e], start, l)
    {
      assert links.delay(l) == DelayAt(history, start, l);
    }
  }

  /** Every event there has been. */
  ghost function Ever(queued: set<Event>, dispatched: seq<Event>): set<Event> {
    queued + set e | e in dispatched
  }

  /** The events numbered from `from` on say that the packets are put on their links at once. */
  ghost predicate SentAt(ever: set<Event>, time: nat, from: nat, sent: seq<Transmission>) {
    forall k {:trigger sent[k]} | 0 <= k < |sent| :: Event(from + k, time, OnLink(sent[k])) in ever
  }

  /** The events numbered from `from` to `to` are what `e` leads to: a packet on a link that is up, and does not lose
      it, is received when the delay of the link is over; whatever else reaches a router makes it send at once, and an
      alarm goes off again after its period. */
  ghost predicate LeadsTo(ever: set<Event>, e: Event, before: seq<Event>, start: Links, from: nat, to: nat,
                          sent: seq<Transmission>, lost: bool) {
    match e.deed
    case OnLink(t) =>
      if UpAt(before, start, t.link) && !lost
      then to == from + 1 && Event(from, e.time + DelayAt(before, start, t.link), Receive(t)) in ever
      else to == from
    case EndToEnd(_, _) => to == from + |sent| && SentAt(ever, e.time, from, sent)
    case Receive(_) => to == from + |sent| && SentAt(ever, e.time, from, sent)
    case Alarm(_, kind) =>
      && to == from + |sent| + 1 && SentAt(ever, e.time, from, sent)
      && Event(from + |sent|, e.time + (match kind case Ping => 10000 case Timeout => 1000 case Update => 30000),
               e.deed) in ever
    case _ => to == from
  }

  /** `marks[i]` is the number of the first event that the `i`-th dispatch has led to. */
  ghost predicate Traced(ever: set<Event>, dispatched: seq<Event>, marks: seq<nat>, end: nat, start: Links,
                         react: Reactions, losses: Losses)
    decreases |dispatched|
  {
    if dispatched == [] then marks == [] else
    var n := |dispatched| - 1;
    && |marks| == |dispatched|
    && Traced(ever, dispatched[..n], marks[..n], marks[n], start, react, losses)
    && LeadsTo(ever, dispatched[n], dispatched[..n], start, marks[n], end, react(n, dispatched[n].deed), losses(n))
  }

  lemma {:induction false} TracedGrows(ever: set<Event>, more: set<Event>, dispatched: seq<Event>, marks: seq<nat>,
                                       end: nat, start: Links, react: Reactions, losses: Losses)
    requires Traced(ever, dispatched, marks, end, start, react, losses) && ever <= more
    ensures Traced(more, dispatched, marks, end, start, react, losses)
    decreases |dispatched|
  {
    if dispatched == [] {
    } else {
      var n := |dispatched| - 1;
      TracedGrows(ever, more, dispatched[..n], marks[..n], marks[n], start, react, losses);
    }
  }

  lemma SpawnedLeads(ever: set<Event>, e: Event, before: seq<Event>, links: Links, start: Links, serial: nat,
                     sent: seq<Transmission>, lost: bool)
    requires LinksTell(links, before, start) && Made(Spawned(e.time, e.deed, links, sent, lost), serial) <= ever
    ensures LeadsTo(ever, e, before, start, serial, serial + |Spawned(e.time, e.deed, links, sent, lost)|, sent, lost)
  {
    var dues := Spawned(e.time, e.deed, links, sent, lost);
    MadeMembers(dues, |dues|, serial);
    forall i | 0 <= i < |dues| ensures Event(serial + i, dues[i].time, dues[i].deed) in ever {
      assert Event(serial + i, dues[i].time, dues[i].deed) in MadeUpTo(dues, |dues|, serial);
    }
    if e.deed.OnLink? {
      assert links.delay(e.deed.sent.link) == DelayAt(before, start, e.deed.sent.link);
    }
    if e.deed.EndToEnd? || e.deed.Receive? || e.deed.Alarm? {
      forall k {:trigger sent[k]} | 0 <= k < |sent| ensures Event(serial + k, e.time, OnLink(sent[k])) in ever {
        assert dues[k] == Due(e.time, OnLink(sent[k]));
      }
    }
    if e.deed.Alarm? {
      assert dues[|sent|] == Due(e.time + Period(e.deed.kind), e.deed);
    }
  }

  predicate Clash(e: Event, f: Event) {
    e.serial == f.serial && e != f
  }

  /** No two events have one number. */
  ghost predicate Numbered(ever: set<Event>, end: nat) {
    && (forall e {:trigger e in ever} | e in ever :: e.serial < end)
    && forall e, f {:trigger Clash(e, f)} | e in ever && f in ever :: !Clash(e, f)
  }

  lemma NumberedGrows(ever: set<Event>, dues: seq<Due>, end: nat)
    requires Numbered(ever, end)
    ensures Numbered(ever + Made(dues, end), end + |dues|)
  {
    MadeMembers(dues, |dues|, end);
  }

  /** Something for the next quantifier to hang on: it is about one history. */
  predicate Recorded(dispatched: seq<Event>) {
    true
  }

  /** Every event of the past has led to what it should, given the links as they were then. */
  ghost predicate Accounts(queued: set<Event>, dispatched: seq<Event>, marks: seq<nat>, serial: nat, links: Links,
                           start: Links, react: Reactions, losses: Losses)
  {
    forall d {:trigger Recorded(d)} | d == dispatched ::
      && LinksTell(links, d, start) && Numbered(Ever(queued, d), serial)
      && Traced(Ever(queued, d), d, marks, serial, start, react, losses)
  }

  lemma AccountsStart(queued: set<Event>, serial: nat, links: Links, react: Reactions, losses: Losses)
    requires Numbered(queued, serial)
    ensures Accounts(queued, [], [], serial, links, links, react, losses)
  {
    var none: seq<Event> := [];
    assert Ever(queued, none) == queued;
    assert LinksTell(links, none, links) && Traced(queued, none, [], serial, links, react, losses);
  }

  /** One more dispatch. */
  lemma AccountsKept(queued: set<Event>, dispatched: seq<Event>, marks: seq<nat>, serial: nat, links: Links,
                     start: Links, react: Reactions, losses: Losses, e: Event, dues: seq<Due>)
    requires Accounts(queued, dispatched, marks, serial, links, start, react, losses) && e in queued
    requires dues == Spawned(e.time, e.deed, links, react(|dispatched|, e.deed), losses(|dispatched|))
    ensures Accounts(queued + Made(dues, serial) - {e}, dispatched + [e], marks + [serial], serial + |dues|,
                     LinksAfter(links, e.deed), start, react, losses)
  {
    assert Recorded(dispatched);
    TracedKept(queued, dispatched, marks, serial, links, start, react, losses, e, dues);
  }

  /** The same with what it rests on. */
  lemma TracedKept(queued: set<Event>, dispatched: seq<Event>, marks: seq<nat>, serial: nat, links: Links,
                   start: Links, react: Reactions, losses: Losses, e: Event, dues: seq<Due>)
    requires Traced(Ever(queued, dispatched), dispatched, marks, serial, start, react, losses)
    requires LinksTell(links, dispatched, start) && Numbered(Ever(queued, dispatched), serial) && e in queued
    requires dues == Spawned(e.time, e.deed, links, react(|dispatched|, e.deed), losses(|dispatched|))
    ensures var ever := Ever(queued + Made(dues, serial) - {e}, dispatched + [e]);
            && Traced(ever, dispatched + [e], marks + [serial], serial + |dues|, start, react, losses)
            && LinksTell(LinksAfter(links, e.deed), dispatched + [e], start)
            && Numbered(ever, serial + |dues|)
  {
    var ever0, ever := Ever(queued, dispatched), Ever(queued + Made(dues, serial) - {e}, dispatched + [e]);
    assert ever == ever0 + Made(dues, serial);
    NumberedGrows(ever0, dues, serial);
    LinksStillTell(links, dispatched, start, e);
    TracedGrows(ever0, ever, dispatched, marks, serial, start, react, losses);
    SpawnedLeads(ever, e, dispatched, links, start, serial, react(|dispatched|, e.deed), losses(|dispatched|));
    assert (dispatched + [e])[..|dispatched|] == dispatched && (marks + [serial])[..|marks|] == marks;
  }

  /** What an event of the past has led to. */
  lemma {:induction false} TracedAt(ever: set<Event>, dispatched: seq<Event>, marks: seq<nat>, end: nat, start: Links,
                                    react: Reactions, losses: Losses, i: nat)
    requires Traced(ever, dispatched, marks, end, start, react, losses) && i < |dispatched|
    ensures |marks| == |dispatched|
    ensures LeadsTo(ever, dispatched[i], dispatched[..i], start, marks[i],
                    if i + 1 < |marks| then marks[i + 1] else end, react(i, dispatched[i].deed), losses(i))
    decreases |dispatched|
  {
    var n := |dispatched| - 1;
    if i < n {
      TracedAt(ever, dispatched[..n], marks[..n], marks[n], start, react, losses, i);
      assert dispatched[..n][..i] == dispatched[..i];
    }
  }

  class Simulator {
    const routers: set<Id>
    const react: Reactions
    const losses: Losses
    const stopTime: nat
    var eventQ: seq<Event>
    var globalTime: nat
    var links: Links
    var turn: nat
    var nextSerial: nat
    ghost const start: Links
    ghost var queued: set<Event>
    ghost var dispatched: seq<Event>
    ghost var marks: seq<nat>

    ghost predicate QueueOk()
      reads this
    {
      && IsHeap(eventQ) && multiset(eventQ) == multiset(queued)
      && forall e | e in queued :: e.serial < nextSerial && globalTime <= e.time
    }

    /** What holds at the head of the loop; every event ever made is waiting or has been dispatched. */
    ghost predicate Valid()
      reads this
    {
      && QueueOk() && Armed(routers, queued, dispatched, globalTime) && Punctual(routers, dispatched)
      && Past(queued, dispatched, globalTime, nextSerial) && |eventQ| + |dispatched| == nextSerial
      && turn == |dispatched| && Accounts(queued, dispatched, marks, nextSerial, links, start, react, losses)
    }

    /** The event being dispatched, if there is one, is still at the root. */
    ghost predicate AtRoot(current: Option<Event>)
      reads this
    {
      current.Some? ==> eventQ != [] && eventQ[0] == current.value && current.value.time == globalTime
    }

    /** A new event enters the queue; it cannot get ahead of an event of the present. */
    method Enter(due: Due, ghost current: Option<Event>)
      requires QueueOk() && AtRoot(current) && globalTime <= due.time
      modifies `eventQ, `nextSerial, `queued
      ensures QueueOk() && AtRoot(current)
      ensures nextSerial == old(nextSerial) + 1 && |eventQ| == old(|eventQ|) + 1
      ensures queued == old(queued) + {Event(old(nextSerial), due.time, due.deed)}
    {
      var e := Event(nextSerial, due.time, due.deed);
      assert e !in queued;
      eventQ := Push(eventQ, e);
      queued, nextSerial := queued + {e}, nextSerial + 1;
    }

    method EnterAll(dues: seq<Due>, ghost current: Option<Event>)
      requires QueueOk() && AtRoot(current) && forall i | 0 <= i < |dues| :: globalTime <= dues[i].time
      modifies `eventQ, `nextSerial, `queued
      ensures QueueOk() && AtRoot(current)
      ensures nextSerial == old(nextSerial) + |dues| && |eventQ| == old(|eventQ|) + |dues|
      ensures queued == old(queued) + Made(dues, old(nextSerial))
    {
      var i := 0;
      while i < |dues|
        invariant 0 <= i <= |dues| && QueueOk() && AtRoot(current)
        invariant nextSerial == old(nextSerial) + i && |eventQ| == old(|eventQ|) + i
        invariant queued == old(queued) + MadeUpTo(dues, i, old(nextSerial))
      {
        Enter(dues[i], current);
        i := i + 1;
      }
    }

    /** `handle_alarm`: the packets go out, and the same alarm is set again. */
    method RingAlarm(ghost e: Event, sent: seq<Due>, router: Id, kind: Kind)
      requires QueueOk() && AtRoot(Some(e)) && forall i | 0 <= i < |sent| :: globalTime <= sent[i].time
      modifies `eventQ, `nextSerial, `queued
      ensures QueueOk() && AtRoot(Some(e)) && nextSerial == old(nextSerial) + |sent| + 1
      ensures |eventQ| == old(|eventQ|) + |sent| + 1
      ensures queued ==
                old(queued) + Made(sent + [Due(globalTime + Period(kind), Alarm(router, kind))], old(nextSerial))
    {
      MadeOneMore(sent, Due(globalTime + Period(kind), Alarm(router, kind)), |sent|, nextSerial);
      EnterAll(sent, Some(e));
      Enter(Due(globalTime + Period(kind), Alarm(router, kind)), Some(e));
    }

    /** What the event adds to the queue; it stays there itself meanwhile. */
    method Spawn(e: Event) returns (ghost dues: seq<Due>)
      requires QueueOk() && AtRoot(Some(e))
      modifies `eventQ, `nextSerial, `queued
      ensures QueueOk() && AtRoot(Some(e)) && Rearms(e, dues)
      ensures dues == Spawned(globalTime, e.deed, links, react(turn, e.deed), losses(turn))
      ensures nextSerial == old(nextSerial) + |dues| && |eventQ| == old(|eventQ|) + |dues|
      ensures queued == old(queued) + Made(dues, old(nextSerial))
    {
      var sent := Sends(globalTime, react(turn, e.deed));
      dues := Spawned(globalTime, e.deed, links, react(turn, e.deed), losses(turn));
      SpawnedRearms(e, links, react(turn, e.deed), losses(turn));
      match e.deed {
        case ChangeDelay(_, _) =>
        case Die(_) =>
        case ComeUp(_) =>
        case EndToEnd(_, _) => EnterAll(sent, Some(e));
        case OnLink(t) =>
          if t.link !in links.down && !losses(turn) {
            EnterAll([Due(globalTime + links.delay(t.link), Receive(t))], Some(e));
          }
        case Receive(_) => EnterAll(sent, Some(e));
        case Alarm(router, kind) => RingAlarm(e, sent, router, kind);
      }
    }

    /** Time moves on to the earliest event. */
    method Begin() returns (e: Event)
      requires QueueOk() && eventQ != []
      modifies `globalTime
      ensures QueueOk() && AtRoot(Some(e)) && globalTime == e.time && old(globalTime) <= e.time
      ensures e in queued && e.serial < nextSerial && forall f | f in queued :: e.time <= f.time
    {
      e := eventQ[0];
      RootFirst(eventQ, queued);
      globalTime := e.time;
    }

    /** The event at the root leaves the queue. */
    method Drop(ghost e: Event)
      requires QueueOk() && AtRoot(Some(e)) && e in queued
      modifies `eventQ, `queued, `dispatched
      ensures QueueOk() && queued == old(queued) - {e} && |eventQ| == old(|eventQ|) - 1
      ensures dispatched == old(dispatched) + [e]
    {
      eventQ := Pop(eventQ);
      RemovedOne(queued, e);
      assert multiset(eventQ) == multiset(queued) - multiset{e};
      queued, dispatched := queued - {e}, dispatched + [e];
    }

    /** The earliest event is dispatched, but still in the queue. */
    method Dispatch() returns (e: Event, ghost dues: seq<Due>)
      requires QueueOk() && eventQ != []
      modifies `globalTime, `eventQ, `nextSerial, `queued, `links
      ensures QueueOk() && AtRoot(Some(e)) && globalTime == e.time && links == LinksAfter(old(links), e.deed)
      ensures e in old(queued) && old(globalTime) <= e.time && e.serial < old(nextSerial)
      ensures forall f | f in old(queued) :: e.time <= f.time
      ensures Rearms(e, dues) && dues == Spawned(e.time, e.deed, old(links), react(turn, e.deed), losses(turn))
      ensures queued == old(queued) + Made(dues, old(nextSerial))
      ensures nextSerial == old(nextSerial) + |dues| && |eventQ| == old(|eventQ|) + |dues|
    {
      e := Begin();
      dues := Spawn(e);
      links := LinksAfter(links, e.deed);
    }

    /** One turn of the loop: the earliest event is dispatched, and then it, and no other, leaves the queue. */
    method Turn() returns (e: Event)
      requires Valid() && eventQ != []
      modifies this
      ensures Valid()
      ensures e in old(queued) && forall f | f in old(queued) :: e.time <= f.time
      ensures globalTime == e.time && dispatched == old(dispatched) + [e] && turn == old(turn) + 1
      ensures links == LinksAfter(old(links), e.deed)
      ensures queued == old(queued) - {e} +
                Made(Spawned(e.time, e.deed, old(links), react(old(turn), e.deed), losses(old(turn))), old(nextSerial))
    {
      ghost var queued0, serial0, now0, links0, dues := queued, nextSerial, globalTime, links, [];
      e, dues := Dispatch();
      TurnKeeps(routers, queued0, dispatched, now0, serial0, e, dues);
      AccountsKept(queued0, dispatched, marks, serial0, links0, start, react, losses, e, dues);
      Drop(e);
      turn, marks := turn + 1, marks + [serial0];
    }

    /** The loop, as far as `turns` turns; it may have no end. */
    method Run(turns: nat) returns (ended: bool)
      requires Valid()
      modifies this
      ensures Valid() && old(dispatched) <= dispatched && |dispatched| <= |old(dispatched)| + turns
      ensures ended ==> eventQ == [] || 0 < stopTime < globalTime
      ensures !ended ==> |dispatched| == |old(dispatched)| + turns
    {
      ended := false;
      var left: nat := turns;
      while eventQ != []
        invariant Valid() && left <= turns
        invariant old(dispatched) <= dispatched && |dispatched| == |old(dispatched)| + turns - left
        decreases left
      {
        if left == 0 {
          return;
        }
        var e := Turn();
        left := left - 1;
        if stopTime != 0 && globalTime > stopTime {
          break;
        }
      }
      ended := true;
    }

    /** What holds while the queue is filled. */
    ghost predicate Filling()
      reads this
    {
      QueueOk() && globalTime == 0 && |eventQ| == nextSerial && Numbered(queued, nextSerial)
    }

    /** Router `r` greets its neighbours and sets its three alarms. */
    method InitRouter(r: Id, sent: seq<Transmission>, ghost done: set<Id>)
      requires Filling() && Armed(done, queued, [], 0) && r !in done && NoAlarmsBut(done, queued)
      modifies `eventQ, `nextSerial, `queued
      ensures Filling() && Armed(done + {r}, queued, [], 0) && NoAlarmsBut(done + {r}, queued)
      ensures old(queued) <= queued && Greeted(queued, sent)
    {
      RouterArmed(done, queued, r, sent, nextSerial);
      OpeningGreets(queued, r, sent, nextSerial);
      NumberedGrows(queued, Opening(r, sent), nextSerial);
      EnterAll(Opening(r, sent), None);
    }

    /** The events of the configuration. */
    method Configure(config: seq<Due>)
      requires Filling() && queued == {} && forall i | 0 <= i < |config| :: !config[i].deed.Alarm?
      modifies `eventQ, `nextSerial, `queued
      ensures Filling() && NoAlarmsBut({}, queued) && Configured(queued, config)
    {
      NumberedGrows(queued, config, nextSerial);
      MadeMembers(config, |config|, nextSerial);
      EnterAll(config, None);
      forall i {:trigger config[i]} | 0 <= i < |config|
        ensures Waits(queued, config[i])
      {
        assert Event(old(nextSerial) + i, config[i].time, config[i].deed) in Made(config, old(nextSerial));
      }
    }

    /** Every router starts. */
    method InitAll(greetings: Id -> seq<Transmission>, ghost config: seq<Due>)
      requires Filling() && NoAlarmsBut({}, queued) && Configured(queued, config)
      modifies `eventQ, `nextSerial, `queued
      ensures Filling() && Armed(routers, queued, [], 0) && Configured(queued, config)
      ensures AllGreeted(routers, queued, greetings)
    {
      var todo := routers;
      while todo != {}
        invariant todo <= routers && Filling() && Configured(queued, config)
        invariant Armed(routers - todo, queued, [], 0) && NoAlarmsBut(routers - todo, queued)
        invariant AllGreeted(routers - todo, queued, greetings)
        decreases todo
      {
        var r :| r in todo;
        ghost var queued0 := queued;
        InitRouter(r, greetings(r), routers - todo);
        StillGreeted(routers - todo, queued0, queued, greetings, r);
        StillConfigured(queued0, queued, config);
        todo := todo - {r};
        assert routers - todo == routers - (todo + {r}) + {r};
      }
      assert routers - todo == routers;
    }

    /** The events of the configuration are entered first, then every router starts. */
    constructor (routers: set<Id>, react: Reactions, losses: Losses, stopTime: nat, links: Links,
                 config: seq<Due>, greetings: Id -> seq<Transmission>)
      requires forall i | 0 <= i < |config| :: !config[i].deed.Alarm?
      ensures Valid() && dispatched == [] && globalTime == 0
      ensures this.routers == routers && this.react == react && this.losses == losses && this.stopTime == stopTime
      ensures start == links
      ensures Configured(queued, config) && AllGreeted(routers, queued, greetings)
    {
      this.routers, this.react, this.losses, this.stopTime, this.links := routers, react, losses, stopTime, links;
      eventQ, globalTime, turn, nextSerial, queued, dispatched, marks := [], 0, 0, 0, {}, [], [];
      start := links;
      new;
      Configure(config);
      InitAll(greetings, config);
      AccountsStart(queued, nextSerial, links, react, losses);
    }
  }

  /** The events that the `i`-th dispatch has led to: those with these numbers. */
  ghost function LedTo(simulator: Simulator, i: nat): set<Event>
    reads simulator
    requires i < |simulator.marks|
  {
    set e | e in Ever(simulator.queued, simulator.dispatched) && simulator.marks[i] <= e.serial
            && (i + 1 < |simulator.marks| ==> e.serial < simulator.marks[i + 1])
  }

  /** A packet put on a link has been, or will be, received exactly once, when the delay that the link had then is over,
      if the link was up and has not lost it; otherwise never. */
  lemma PacketArrives(simulator: Simulator, i: nat)
    requires simulator.Valid() && i < |simulator.dispatched| && simulator.dispatched[i].deed.OnLink?
    ensures |simulator.marks| == |simulator.dispatched|
    ensures var e, before := simulator.dispatched[i], simulator.dispatched[..i];
            var t := e.deed.sent;
            LedTo(simulator, i) ==
              if UpAt(before, simulator.start, t.link) && !simulator.losses(i)
              then {Event(simulator.marks[i], e.time + DelayAt(before, simulator.start, t.link), Receive(t))} else {}
  {
    assert Recorded(simulator.dispatched);
    TracedAt(Ever(simulator.queued, simulator.dispatched), simulator.dispatched, simulator.marks, simulator.nextSerial,
             simulator.start, simulator.react, simulator.losses, i);
    LedToBounded(simulator, i);
  }

  lemma LedToBounded(simulator: Simulator, i: nat)
    requires simulator.Valid() && i < |simulator.marks|
    ensures var to := if i + 1 < |simulator.marks| then simulator.marks[i + 1] else simulator.nextSerial;
            && (to == simulator.marks[i] ==> LedTo(simulator, i) == {})
            && (forall e | e in Ever(simulator.queued, simulator.dispatched) && e.serial == simulator.marks[i]
                           && to == simulator.marks[i] + 1 :: LedTo(simulator, i) == {e})
  {
    assert Recorded(simulator.dispatched);
    var ever := Ever(simulator.queued, simulator.dispatched);
    var to := if i + 1 < |simulator.marks| then simulator.marks[i + 1] else simulator.nextSerial;
    forall e | e in ever && e.serial == simulator.marks[i] && to == simulator.marks[i] + 1
      ensures LedTo(simulator, i) == {e}
    {
      forall f | f in LedTo(simulator, i) ensures f == e {
        assert !Clash(e, f);
      }
    }
  }

  /** What a router sends is put on the links at once, when anything else reaches it; an alarm goes off again. */
  lemma RouterSends(simulator: Simulator, i: nat, k: nat)
    requires simulator.Valid() && i < |simulator.dispatched|
    requires var deed := simulator.dispatched[i].deed; deed.EndToEnd? || deed.Receive? || deed.Alarm?
    requires k < |simulator.react(i, simulator.dispatched[i].deed)|
    ensures |simulator.marks| == |simulator.dispatched|
    ensures Event(simulator.marks[i] + k, simulator.dispatched[i].time,
                  OnLink(simulator.react(i, simulator.dispatched[i].deed)[k]))
            in Ever(simulator.queued, simulator.dispatched)
  {
    assert Recorded(simulator.dispatched);
    TracedAt(Ever(simulator.queued, simulator.dispatched), simulator.dispatched, simulator.marks, simulator.nextSerial,
             simulator.start, simulator.react, simulator.losses, i);
  }

  ghost predicate Waits(queued: set<Event>, due: Due) {
    exists e :: e in queued && e.time == due.time && e.deed == due.deed
  }

  lemma StillWaits(queued: set<Event>, more: set<Event>, due: Due)
    requires Waits(queued, due) && queued <= more
    ensures Waits(more, due)
  {
    var e :| e in queued && e.time == due.time && e.deed == due.deed;
    assert e in more;
  }

  ghost predicate Configured(queued: set<Event>, config: seq<Due>) {
    forall i {:trigger config[i]} | 0 <= i < |config| :: Waits(queued, config[i])
  }

  lemma StillConfigured(queued: set<Event>, more: set<Event>, config: seq<Due>)
    requires Configured(queued, config) && queued <= more
    ensures Configured(more, config)
  {
    forall i {:trigger config[i]} | 0 <= i < |config| ensures Waits(more, config[i]) {
      StillWaits(queued, more, config[i]);
    }
  }

  /** The first packets of a router are put on their links at the start. */
  ghost predicate Greeted(queued: set<Event>, sent: seq<Transmission>) {
    forall k {:trigger sent[k]} | 0 <= k < |sent| :: Waits(queued, Due(0, OnLink(sent[k])))
  }

  ghost predicate AllGreeted(routers: set<Id>, queued: set<Event>, greetings: Id -> seq<Transmission>) {
    forall r {:trigger greetings(r)} | r in routers :: Greeted(queued, greetings(r))
  }

  lemma StillGreeted(routers: set<Id>, queued: set<Event>, more: set<Event>, greetings: Id -> seq<Transmission>, r: Id)
    requires AllGreeted(routers, queued, greetings) && queued <= more && Greeted(more, greetings(r))
    ensures AllGreeted(routers + {r}, more, greetings)
  {
    forall x {:trigger greetings(x)} | x in routers + {r} ensures Greeted(more, greetings(x)) {
      if x != r {
        assert Greeted(queued, greetings(x));
        forall k {:trigger greetings(x)[k]} | 0 <= k < |greetings(x)|
          ensures Waits(more, Due(0, OnLink(greetings(x)[k])))
        {
          StillWaits(queued, more, Due(0, OnLink(greetings(x)[k])));
        }
      }
    }
  }

  lemma OpeningGreets(queued: set<Event>, r: Id, sent: seq<Transmission>, serial: nat)
    ensures Greeted(queued + Made(Opening(r, sent), serial), sent)
  {
    var dues := Opening(r, sent);
    MadeMembers(dues, |dues|, serial);
    forall k {:trigger sent[k]} | 0 <= k < |sent|
      ensures Waits(queued + Made(dues, serial), Due(0, OnLink(sent[k])))
    {
      var e := Event(serial + k, 0, OnLink(sent[k]));
      assert dues[k] == Due(0, OnLink(sent[k]));
      assert e in Made(dues, serial);
    }
  }

  /** At any time the next alarm of every kind is due within a period, and no other of its kind is pending. */
  lemma NextAlarm(routers: set<Id>, queued: set<Event>, dispatched: seq<Event>, now: nat, r: Id, kind: Kind)
    returns (e: Event)
    requires Armed(routers, queued, dispatched, now) && r in routers && forall f | f in queued :: now <= f.time
    ensures e in queued && e.deed == Alarm(r, kind) && now <= e.time
    ensures e.time <= now + match kind case Ping => 10000 case Timeout => 1000 case Update => 30000
    ensures forall f | f in queued && f.deed == e.deed :: f == e
    ensures e.time == Nth(kind, Fired(dispatched, e.deed) + 1)
  {
    var alarm := Alarm(r, kind);
    assert Regular(queued, dispatched, now, alarm);
    e :| e in queued && e.deed == alarm && e.time == Nth(kind, Fired(dispatched, alarm) + 1)
         && forall f | f in queued && f.deed == alarm :: f == e;
  }

  ghost predicate NoAlarmsBut(routers: set<Id>, queued: set<Event>) {
    forall e | e in queued && e.deed.Alarm? :: e.deed.router in routers
  }

  /** What `init` of a router enters. */
  function Opening(r: Id, sent: seq<Transmission>): seq<Due> {
    Sends(0, sent) +
    [Due(Period(Ping), Alarm(r, Ping)), Due(Period(Timeout), Alarm(r, Timeout)), Due(Period(Update), Alarm(r, Update))]
  }

  lemma OpeningAlarms(r: Id, sent: seq<Transmission>, kind: Kind) returns (i: nat)
    ensures i < |Opening(r, sent)| && Opening(r, sent)[i] == Due(Period(kind), Alarm(r, kind))
    ensures forall j | 0 <= j < |Opening(r, sent)| && Opening(r, sent)[j].deed == Alarm(r, kind) :: j == i
  {
    i := |sent| + match kind case Ping => 0 case Timeout => 1 case Update => 2;
  }

  lemma OpeningOthers(r: Id, sent: seq<Transmission>)
    ensures forall j | 0 <= j < |Opening(r, sent)| && Opening(r, sent)[j].deed.Alarm? ::
              Opening(r, sent)[j].deed.router == r
  {
  }

  /** A router that sets its three alarms is armed, and the others stay so. */
  lemma RouterArmed(done: set<Id>, queued: set<Event>, r: Id, sent: seq<Transmission>, serial: nat)
    requires Armed(done, queued, [], 0) && r !in done && NoAlarmsBut(done, queued)
    ensures var after := queued + Made(Opening(r, sent), serial);
            Armed(done + {r}, after, [], 0) && NoAlarmsBut(done + {r}, after)
  {
    var dues := Opening(r, sent);
    var after := queued + Made(dues, serial);
    MadeMembers(dues, |dues|, serial);
    OpeningOthers(r, sent);
    forall s, k {:trigger Alarm(s, k)} | s in done + {r}
      ensures Regular(after, [], 0, Alarm(s, k))
    {
      if s in done {
        assert Regular(queued, [], 0, Alarm(s, k));
        var e :| e in queued && e.deed == Alarm(s, k) && e.time == Nth(k, Fired([], Alarm(s, k)) + 1)
                 && forall f | f in queued && f.deed == Alarm(s, k) :: f == e;
        assert e in after;
      } else {
        var i := OpeningAlarms(r, sent, k);
        assert Event(serial + i, Period(k), Alarm(r, k)) in after;
      }
    }
  }

  lemma RootFirst(h: seq<Event>, queued: set<Event>)
    requires IsHeap(h) && multiset(h) == multiset(queued) && h != []
    ensures h[0] in queued && forall f | f in queued :: h[0].time <= f.time
  {
    assert h[0] in multiset(h);
    forall f | f in queued ensures h[0].time <= f.time {
      assert f in multiset(queued);
      assert f in multiset(h);
      var i :| 0 <= i < |h| && h[i] == f;
      RootIsLeast(h, i);
    }
  }

  lemma RemovedOne(queued: set<Event>, e: Event)
    requires e in queued
    ensures multiset(queued) == multiset(queued - {e}) + multiset{e}
  {
  }
}
