/** The queue of future events: a binary heap whose root is an event with the least time. */
module EventQueue {
  import opened Words

  type Link = nat

  /** The three alarms of every router; `Update` is the DV or the LS one. */
  datatype Kind = Ping | Timeout | Update

  /** A packet on a link: where it goes, on which port it is received there. */
  datatype Transmission = Transmission(link: Link, dest: Id, port: Port, packet: seq<bv8>)

  datatype Deed =
    | ChangeDelay(link: Link, delay: nat)
    | Die(link: Link)
    | ComeUp(link: Link)
    | EndToEnd(src: Id, packet: seq<bv8>)
    | OnLink(sent: Transmission)
    | Receive(sent: Transmission)
    | Alarm(router: Id, kind: Kind)

  /** `serial` tells apart events that are otherwise alike. */
  datatype Event = Event(serial: nat, time: nat, deed: Deed)

  function Parent(i: nat): nat
    requires i > 0
  {
    (i - 1) / 2
  }

  ghost predicate InOrder(h: seq<Event>, i: nat)
    requires 0 < i < |h|
  {
    h[Parent(i)].time <= h[i].time
  }

  ghost predicate IsHeap(h: seq<Event>) {
    forall i {:trigger InOrder(h, i)} | 0 < i < |h| :: InOrder(h, i)
  }

  lemma {:induction false} RootIsLeast(h: seq<Event>, i: nat)
    requires IsHeap(h) && i < |h|
    ensures h[0].time <= h[i].time
    decreases i
  {
    if i == 0 {
    } else {
      assert InOrder(h, i);
      RootIsLeast(h, Parent(i));
    }
  }

  /** A heap but for the event at `hole`: leave it out, and its children follow its parent. */
  ghost predicate IsHeapBut(h: seq<Event>, hole: nat) {
    && hole < |h|
    && (forall i {:trigger InOrder(h, i)} | 0 < i < |h| && i != hole && Parent(i) != hole :: InOrder(h, i))
    && (hole > 0 ==>
          forall i {:trigger InOrder(h, i)} | 0 < i < |h| && Parent(i) == hole ::
            h[Parent(hole)].time <= h[i].time)
  }

  /** The event `e` is not later than the events below the hole. */
  ghost predicate FitsAbove(h: seq<Event>, hole: nat, e: Event) {
    forall i {:trigger InOrder(h, i)} | 0 < i < |h| && Parent(i) == hole :: e.time <= h[i].time
  }

  /** The parent of the hole, if later, moves into it. */
  lemma HoleRises(h: seq<Event>, hole: nat, e: Event)
    requires IsHeapBut(h, hole) && FitsAbove(h, hole, e) && hole > 0 && h[Parent(hole)].time > e.time
    ensures var h' := h[hole := h[Parent(hole)]]; IsHeapBut(h', Parent(hole)) && FitsAbove(h', Parent(hole), e)
  {
    var parent := Parent(hole);
    var h' := h[hole := h[parent]];
    forall i {:trigger h'[i]} | 0 < i < |h'|
      ensures i != parent && Parent(i) != parent ==> InOrder(h', i)
      ensures Parent(i) == parent ==> e.time <= h'[i].time && (parent > 0 ==> h'[Parent(parent)].time <= h'[i].time)
    {
      assert i != hole && Parent(i) != hole ==> InOrder(h, i);
      assert Parent(i) == hole ==> (InOrder(h, i) || !InOrder(h, i)) && h[parent].time <= h[i].time;
      if parent > 0 {
        assert InOrder(h, parent);
      }
    }
  }

  lemma HoleFilled(h: seq<Event>, hole: nat, e: Event)
    requires IsHeapBut(h, hole) && FitsAbove(h, hole, e) && (hole == 0 || h[Parent(hole)].time <= e.time)
    ensures IsHeap(h[hole := e])
  {
    var h' := h[hole := e];
    forall i {:trigger InOrder(h', i)} | 0 < i < |h'|
      ensures InOrder(h', i)
    {
      assert i != hole && Parent(i) != hole ==> InOrder(h, i);
      assert Parent(i) == hole ==> (InOrder(h, i) || !InOrder(h, i)) && e.time <= h[i].time;
    }
  }

  lemma SwapKeeps(h: seq<Event>, i: nat, j: nat, e: Event)
    requires i < |h| && j < |h|
    ensures multiset(h[i := h[j]][j := e]) == multiset(h[i := e])
  {
  }

  /** Moves the hole up past later events and fills it; an event that is no earlier than the root stays below it. */
  method SiftUp(h0: seq<Event>, hole0: nat, e: Event) returns (h: seq<Event>)
    requires IsHeapBut(h0, hole0) && FitsAbove(h0, hole0, e)
    ensures |h| == |h0| && IsHeap(h)
    ensures multiset(h) == multiset(h0[hole0 := e])
    ensures hole0 > 0 && e.time >= h0[0].time ==> h[0] == h0[0]
  {
    h := h0;
    var hole := hole0;
    while hole > 0 && h[Parent(hole)].time > e.time
      invariant |h| == |h0| && IsHeapBut(h, hole) && FitsAbove(h, hole, e)
      invariant multiset(h[hole := e]) == multiset(h0[hole0 := e])
      invariant hole0 > 0 && e.time >= h0[0].time ==> hole > 0 && h[0] == h0[0]
    {
      HoleRises(h, hole, e);
      SwapKeeps(h, hole, Parent(hole), e);
      h := h[hole := h[Parent(hole)]];
      hole := Parent(hole);
    }
    HoleFilled(h, hole, e);
    h := h[hole := e];
  }

  lemma LeafFits(h: seq<Event>, hole: nat, e: Event)
    requires hole < |h| <= 2 * hole + 1
    ensures FitsAbove(h, hole, e)
    ensures forall i {:trigger Parent(i)} | 0 < i < |h| :: Parent(i) != hole
  {
    forall i {:trigger Parent(i)} | 0 < i < |h| ensures Parent(i) != hole {
    }
  }

  /** `push`. */
  method Push(h0: seq<Event>, e: Event) returns (h: seq<Event>)
    requires IsHeap(h0)
    ensures IsHeap(h) && multiset(h) == multiset(h0) + multiset{e} && |h| == |h0| + 1
    ensures h0 != [] && e.time >= h0[0].time ==> h[0] == h0[0]
  {
    var longer := h0 + [e];
    LeafFits(longer, |h0|, e);
    forall i {:trigger InOrder(longer, i)} | 0 < i < |h0| ensures InOrder(longer, i) {
      assert InOrder(h0, i);
    }
    forall i {:trigger longer[i]} | 0 < i < |longer| ensures Parent(i) != |h0| {
    }
    assert longer[|h0| := e] == longer;
    h := SiftUp(longer, |h0|, e);
  }

  /** The earliest child of the hole moves into it. */
  lemma HoleSinks(h: seq<Event>, hole: nat, child: nat)
    requires IsHeapBut(h, hole) && 0 < child < |h| && Parent(child) == hole
    requires forall i | 0 < i < |h| && Parent(i) == hole :: h[child].time <= h[i].time
    ensures IsHeapBut(h[hole := h[child]], child)
  {
    var h' := h[hole := h[child]];
    forall i {:trigger h'[i]} | 0 < i < |h'|
      ensures i != child && Parent(i) != child ==> InOrder(h', i)
      ensures Parent(i) == child ==> h'[hole].time <= h'[i].time
    {
      assert i != hole && Parent(i) != hole ==> InOrder(h, i);
      assert InOrder(h, child) || !InOrder(h, child);
    }
  }

  lemma EarlierChild(h: seq<Event>, hole: nat, child: nat)
    requires child == 2 * hole + 1 || child == 2 * hole + 2
    requires child < |h|
    requires 2 * hole + 1 < |h| ==> h[child].time <= h[2 * hole + 1].time
    requires 2 * hole + 2 < |h| ==> h[child].time <= h[2 * hole + 2].time
    ensures 0 < child && Parent(child) == hole
    ensures forall i | 0 < i < |h| && Parent(i) == hole :: h[child].time <= h[i].time
  {
    forall i | 0 < i < |h| && Parent(i) == hole ensures h[child].time <= h[i].time {
      assert i == 2 * hole + 1 || i == 2 * hole + 2;
    }
  }

  /** The child takes the place of the hole. */
  method SinkInto(h0: seq<Event>, hole: nat, child: nat, ghost e: Event) returns (h: seq<Event>)
    requires IsHeapBut(h0, hole) && (child == 2 * hole + 1 || child == 2 * hole + 2) && child < |h0|
    requires h0[child].time <= h0[2 * hole + 1].time
    requires 2 * hole + 2 < |h0| ==> h0[child].time <= h0[2 * hole + 2].time
    ensures |h| == |h0| && IsHeapBut(h, child) && multiset(h[child := e]) == multiset(h0[hole := e])
  {
    EarlierChild(h0, hole, child);
    HoleSinks(h0, hole, child);
    SwapKeeps(h0, hole, child, e);
    h := h0[hole := h0[child]];
  }

  lemma Halves(n: nat, hole: nat)
    requires hole < n
    ensures hole < (n - 1) / 2 ==> 2 * hole + 2 < n
    ensures hole >= (n - 1) / 2 ==> 2 * hole + 1 >= n || (n % 2 == 0 && hole == (n - 2) / 2 && 2 * hole + 2 == n)
    ensures n % 2 == 0 && hole == (n - 2) / 2 ==> 2 * hole + 2 == n
  {
  }

  /** Moves the hole at the root down to a leaf, along the earlier children. */
  method Sink(h0: seq<Event>, e: Event) returns (h: seq<Event>, hole: nat)
    requires h0 != [] && IsHeapBut(h0, 0)
    ensures |h| == |h0| && IsHeapBut(h, hole) && 2 * hole + 1 >= |h|
    ensures multiset(h[hole := e]) == multiset(h0[0 := e])
  {
    h, hole := h0, 0;
    Halves(|h|, hole);
    while hole < (|h| - 1) / 2
      invariant |h| == |h0| && IsHeapBut(h, hole)
      invariant multiset(h[hole := e]) == multiset(h0[0 := e])
      decreases |h| - hole
    {
      Halves(|h|, hole);
      var child := 2 * (hole + 1);
      if h[child].time > h[child - 1].time {
        child := child - 1;
      }
      h := SinkInto(h, hole, child, e);
      hole := child;
    }
    Halves(|h|, hole);
    if |h| % 2 == 0 && hole == (|h| - 2) / 2 {
      var child := 2 * (hole + 1);
      h := SinkInto(h, hole, child - 1, e);
      hole := child - 1;
    }
  }

  /** `pop`: the root goes, the last event takes its place and finds its own. */
  method Pop(h0: seq<Event>) returns (h: seq<Event>)
    requires h0 != [] && IsHeap(h0)
    ensures IsHeap(h) && multiset(h0) == multiset(h) + multiset{h0[0]} && |h| == |h0| - 1
  {
    var last := h0[|h0| - 1];
    h := h0[..|h0| - 1];
    if h != [] {
      assert IsHeapBut(h, 0) by {
        forall i {:trigger InOrder(h, i)} | 0 < i < |h| ensures InOrder(h, i) {
          assert InOrder(h0, i);
        }
      }
      assert h0 == h + [last];
      assert multiset(h[0 := last]) + multiset{h0[0]} == multiset(h) + multiset{last};
      var hole;
      h, hole := Sink(h, last);
      LeafFits(h, hole, last);
      h := SiftUp(h, hole, last);
    } else {
      assert h0 == [h0[0]];
    }
  }
}
