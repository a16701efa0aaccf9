/** A file transfer over a channel that loses, repeats, reorders and damages packets. */
module StopAndWait {
  import opened Crc32
  import opened Octets
  import opened Options
  import opened TransferPacket
  import opened TransferEnds

  /** What is sent, under which names, over what disk; `frame(k)` is the packet of block `k`. */
  datatype Setup = Setup(file: Bytes, names: Bytes, disk: Disk, frame: nat -> Bytes) {
    ghost predicate Valid() {
      forall k {:trigger Sound(k)} :: Sound(k)
    }

    /** An undamaged packet passes the checksum and says what is meant. */
    ghost predicate Sound(k: nat) {
      && Readable(frame(k)) && Read32(frame(k)[FRAMED..]) == Crc(frame(k)[..FRAMED])
      && frame(k)[1] == LowByte(SeqOf(file, k)) && Read(frame(k)) == Meant(this, k)
    }
  }

  /** What an undamaged packet says. */
  ghost function Meant(setup: Setup, k: nat): Reading {
    if k < Count(setup.file) then Block(k % SEQ_SIZE, setup.names, BlockAt(setup.file, k)) else End
  }

  /** The setup of a sender. */
  ghost function Transfer(file: Bytes, names: Bytes, junk: Bytes, disk: Disk): (setup: Setup)
    requires |names| == NAMES_SIZE && |junk| == DATA_SIZE
    ensures setup.Valid() && setup.file == file && setup.names == names && setup.disk == disk
    ensures forall k {:trigger setup.frame(k)} :: setup.frame(k) == FrameAt(file, names, junk, k)
  {
    var setup := Setup(file, names, disk, (k: nat) => FrameAt(file, names, junk, k));
    assert setup.Valid() by {
      forall k: nat {:trigger setup.Sound(k)} ensures setup.Sound(k) {
        FrameAtReads(file, names, junk, k);
      }
    }
    setup
  }

  /** A packet on its way, with the index of the block it was sent for; an answer, with the index it answers. */
  datatype Copy = Copy(index: nat, bytes: Bytes)
  datatype Answer = Answer(index: nat, byte: bv8)

  /** `written` counts the blocks the receiver has kept. Nothing sent is ever gone for good, nor bound to arrive. */
  datatype State = State(index: nat, done: bool, receiver: Receiving, written: nat,
                         copies: set<Copy>, answers: set<Answer>)

  datatype Action = Send | Damage(copy: Copy, at: nat) | Deliver(copy: Copy) | DeliverAnswer(answer: Answer)

  /** How many blocks behind the sender's a packet and an answer may be. */
  const STALE_DATA := 126
  const STALE_ACK := 127

  ghost function Initial(setup: Setup): State {
    State(0, false, Receiving(0, false, setup.disk, false), 0, {}, {})
  }

  ghost predicate Enabled(setup: Setup, st: State, a: Action)
    requires setup.Valid()
  {
    match a
    case Send => !st.done
    case Damage(c, at) => Copy(c.index, setup.frame(c.index)) in st.copies
                          && Damaged(setup.frame(c.index), c.bytes, at) && Readable(c.bytes)
    case Deliver(c) => c in st.copies && !st.receiver.finished && st.index <= c.index + STALE_DATA
    case DeliverAnswer(r) => r in st.answers && !st.done && st.index <= r.index + STALE_ACK
  }

  /** Whether the receiver keeps what it has read. */
  ghost predicate Keeps(st: Receiving, reading: Reading) {
    reading.Block? && reading.seqNum == st.expected
  }

  ghost function Arrive(st: State, index: nat, ack: Option<bv8>, reading: Reading): State {
    st.(receiver := Handle(st.receiver, reading),
        written := if Keeps(st.receiver, reading) then st.written + 1 else st.written,
        answers := if ack == None then st.answers else st.answers + {Answer(index, ack.value)})
  }

  ghost function Next(setup: Setup, st: State, a: Action): State
    requires setup.Valid() && Enabled(setup, st, a)
  {
    match a
    case Send => st.(copies := st.copies + {Copy(st.index, setup.frame(st.index))})
    case Damage(c, at) => st.(copies := st.copies + {c})
    case Deliver(c) => if Readable(c.bytes) then Arrive(st, c.index, AckFor(c.bytes), Read(c.bytes)) else st
    case DeliverAnswer(r) =>
      var (index, done) := AfterAck(setup.file, st.index, r.byte);
      st.(index := index, done := done)
  }

  ghost predicate Legal(setup: Setup, st: State, actions: seq<Action>)
    requires setup.Valid()
    decreases |actions|
  {
    actions == [] || (Enabled(setup, st, actions[0]) && Legal(setup, Next(setup, st, actions[0]), actions[1..]))
  }

  ghost function Run(setup: Setup, st: State, actions: seq<Action>): State
    requires setup.Valid() && Legal(setup, st, actions)
    decreases |actions|
  {
    if actions == [] then st else Run(setup, Next(setup, st, actions[0]), actions[1..])
  }

  // ---- what every run keeps ----

  /** Damage that makes an end marker of a block. */
  ghost predicate Forges(setup: Setup, a: Action) {
    a.Damage? && a.copy.index < Count(setup.file) && |a.copy.bytes| > 1 && a.copy.bytes[1] == END
  }

  /** Runs in which no end marker is forged. */
  ghost predicate Unforged(setup: Setup, actions: seq<Action>) {
    forall a | a in actions :: !Forges(setup, a)
  }

  /** A copy says what was meant, or is dropped, or is a forged end marker. */
  ghost predicate Intact(setup: Setup, forged: bool, c: Copy) {
    && Readable(c.bytes)
    && (|| Read(c.bytes) == Corrupt
        || (Read(c.bytes) == Meant(setup, c.index) && c.bytes[1] == LowByte(SeqOf(setup.file, c.index)))
        || (forged && Read(c.bytes) == End && c.bytes[1] == END))
  }

  /** The receiver has what comes before some point of the file. */
  ghost function Received(setup: Setup, written: nat): Disk {
    if written == 0 then setup.disk else setup.disk[setup.names := setup.file[..Start(setup.file, written)]]
  }

  ghost predicate ReceiverInv(setup: Setup, forged: bool, index: nat, written: nat, r: Receiving) {
    && index <= written <= index + 1 && written <= Count(setup.file)
    && r.expected == written % SEQ_SIZE && (r.rewrite <==> written > 0)
    && r.disk == Received(setup, written)
    && (r.finished ==> forged || index == Count(setup.file))
  }

  ghost predicate CopiesInv(setup: Setup, forged: bool, index: nat, copies: set<Copy>) {
    forall c {:trigger c in copies} | c in copies :: c.index <= index && Intact(setup, forged, c)
  }

  /** An answer names the block it answers, and one to the current block shows that the block has been kept;
      or it answers a forged end marker, and the receiver is gone. */
  ghost predicate Answered(setup: Setup, forged: bool, index: nat, kept: bool, finished: bool, r: Answer) {
    && r.index <= index
    && (|| (r.byte == LowByte(SeqOf(setup.file, r.index)) && (r.index == index ==> kept))
        || (forged && r.byte == END && finished))
  }

  ghost predicate AnswersInv(setup: Setup, forged: bool, index: nat, kept: bool, finished: bool, answers: set<Answer>) {
    forall r {:trigger r in answers} | r in answers :: Answered(setup, forged, index, kept, finished, r)
  }

  /** Whether the receiver has had the current packet. */
  ghost predicate Current(setup: Setup, index: nat, written: nat, finished: bool) {
    if index < Count(setup.file) then written > index else finished
  }

  /** Whether end markers may have been `forged` or not. */
  ghost predicate Inv(setup: Setup, forged: bool, st: State) {
    var finished := st.receiver.finished;
    && ReceiverInv(setup, forged, st.index, st.written, st.receiver)
    && (st.done ==> finished && st.index == Count(setup.file))
    && CopiesInv(setup, forged, st.index, st.copies)
    && AnswersInv(setup, forged, st.index, Current(setup, st.index, st.written, finished), finished, st.answers)
  }

  lemma InitialInv(setup: Setup, forged: bool)
    requires setup.Valid()
    ensures Inv(setup, forged, Initial(setup))
  {
  }

  lemma SentIntact(setup: Setup, forged: bool, k: nat)
    requires setup.Valid()
    ensures Intact(setup, forged, Copy(k, setup.frame(k)))
  {
    assert setup.Sound(k);
  }

  lemma DamagedIntact(setup: Setup, forged: bool, c: Copy, at: nat)
    requires setup.Valid() && Damaged(setup.frame(c.index), c.bytes, at) && Readable(c.bytes)
    requires forged || !Forges(setup, Damage(c, at))
    ensures Intact(setup, forged, c)
  {
    assert setup.Sound(c.index);
    DamageDetected(setup.frame(c.index), c.bytes, at);
  }

  lemma SendInv(setup: Setup, forged: bool, st: State)
    requires setup.Valid() && Inv(setup, forged, st) && !st.done
    ensures Inv(setup, forged, Next(setup, st, Send))
  {
    SentIntact(setup, forged, st.index);
  }

  lemma DamageInv(setup: Setup, forged: bool, st: State, c: Copy, at: nat)
    requires setup.Valid() && Inv(setup, forged, st) && Enabled(setup, st, Damage(c, at))
    requires forged || !Forges(setup, Damage(c, at))
    ensures Inv(setup, forged, Next(setup, st, Damage(c, at)))
  {
    assert Copy(c.index, setup.frame(c.index)) in st.copies;
    DamagedIntact(setup, forged, c, at);
  }

  /** A number that is expected belongs to the expected block, if it is not too stale. */
  lemma ExpectedIsNext(k: nat, index: nat, written: nat)
    requires k <= index <= written <= index + 1 && index <= k + STALE_DATA
    requires k % SEQ_SIZE == written % SEQ_SIZE
    ensures k == written
  {
  }

  /** An answer with the current number answers the current packet, if it is not too stale. */
  lemma AnswerIsCurrent(file: Bytes, k: nat, index: nat)
    requires k <= index <= k + STALE_ACK && index <= Count(file)
    requires LowByte(SeqOf(file, k)) == LowByte(SeqOf(file, index))
    ensures k == index
  {
    SignedByte(SeqOf(file, k));
    SignedByte(SeqOf(file, index));
  }

  lemma KeepsNext(setup: Setup, written: nat, st: Receiving)
    requires st.expected == written % SEQ_SIZE && st.disk == Received(setup, written) && (st.rewrite <==> written > 0)
    ensures var disk := Store(st, setup.names, BlockAt(setup.file, written));
            disk == Received(setup, written + 1) && (written + 1) % SEQ_SIZE == (st.expected + 1) % SEQ_SIZE
  {
    BlocksMeet(setup.file, written);
  }

  /** A packet that is not too old is the expected one or is not kept. */
  lemma KeptIsNext(setup: Setup, forged: bool, index: nat, written: nat, r: Receiving, k: nat, reading: Reading)
    requires ReceiverInv(setup, forged, index, written, r) && k <= index <= k + STALE_DATA
    requires reading == Meant(setup, k) && Keeps(r, reading)
    ensures k == written < Count(setup.file) && reading == Block(r.expected, setup.names, BlockAt(setup.file, written))
  {
    ExpectedIsNext(k, index, written);
  }

  lemma HandleKeeps(setup: Setup, forged: bool, index: nat, written: nat, r: Receiving, k: nat, reading: Reading)
    requires ReceiverInv(setup, forged, index, written, r) && !r.finished && k <= index <= k + STALE_DATA
    requires reading == Meant(setup, k) || reading == Corrupt || (forged && reading == End)
    ensures ReceiverInv(setup, forged, index, if Keeps(r, reading) then written + 1 else written, Handle(r, reading))
  {
    if Keeps(r, reading) {
      KeptIsNext(setup, forged, index, written, r, k, reading);
      KeepsNext(setup, written, r);
    }
  }

  lemma HandleAnswers(setup: Setup, forged: bool, index: nat, written: nat, r: Receiving, k: nat, reading: Reading)
    requires ReceiverInv(setup, forged, index, written, r) && !r.finished && k <= index <= k + STALE_DATA
    requires reading == Meant(setup, k)
    ensures k == index ==>
              Current(setup, index, if Keeps(r, reading) then written + 1 else written, Handle(r, reading).finished)
  {
  }

  lemma ArriveKeeps(setup: Setup, forged: bool, st: State, k: nat, ack: Option<bv8>, reading: Reading)
    requires Inv(setup, forged, st) && !st.receiver.finished && k <= st.index <= k + STALE_DATA
    requires || (reading == Corrupt && ack == None)
             || (reading == Meant(setup, k) && ack == Some(LowByte(SeqOf(setup.file, k))))
             || (forged && reading == End && ack == Some(END))
    ensures Inv(setup, forged, Arrive(st, k, ack, reading))
  {
    HandleKeeps(setup, forged, st.index, st.written, st.receiver, k, reading);
    if reading == Meant(setup, k) {
      HandleAnswers(setup, forged, st.index, st.written, st.receiver, k, reading);
    }
  }

  lemma ArriveInv(setup: Setup, forged: bool, st: State, c: Copy)
    requires setup.Valid() && Inv(setup, forged, st) && Enabled(setup, st, Deliver(c))
    ensures Inv(setup, forged, Next(setup, st, Deliver(c)))
  {
    assert Intact(setup, forged, c) && c.index <= st.index;
    ArriveKeeps(setup, forged, st, c.index, AckFor(c.bytes), Read(c.bytes));
  }

  lemma EndByte(file: Bytes, k: nat)
    ensures LowByte(SeqOf(file, k)) == END <==> k >= Count(file)
  {
    SignedByte(SeqOf(file, k));
    EndIsMinusOne(LowByte(SeqOf(file, k)));
  }

  lemma AnswerInv(setup: Setup, forged: bool, st: State, r: Answer)
    requires setup.Valid() && Inv(setup, forged, st) && Enabled(setup, st, DeliverAnswer(r))
    ensures Inv(setup, forged, Next(setup, st, DeliverAnswer(r)))
  {
    var finished := st.receiver.finished;
    assert Answered(setup, forged, st.index, Current(setup, st.index, st.written, finished), finished, r);
    if r.byte == LowByte(SeqOf(setup.file, st.index)) {
      EndByte(setup.file, st.index);
      if r.byte == LowByte(SeqOf(setup.file, r.index)) {
        AnswerIsCurrent(setup.file, r.index, st.index);
      }
    }
  }

  lemma NextInv(setup: Setup, forged: bool, st: State, a: Action)
    requires setup.Valid() && Inv(setup, forged, st) && Enabled(setup, st, a) && (forged || !Forges(setup, a))
    ensures Inv(setup, forged, Next(setup, st, a))
  {
    match a
    case Send => SendInv(setup, forged, st);
    case Damage(c, at) => DamageInv(setup, forged, st, c, at);
    case Deliver(c) => ArriveInv(setup, forged, st, c);
    case DeliverAnswer(r) => AnswerInv(setup, forged, st, r);
  }

  lemma {:induction false} RunInv(setup: Setup, forged: bool, st: State, actions: seq<Action>)
    requires setup.Valid() && Inv(setup, forged, st) && Legal(setup, st, actions)
    requires forged || Unforged(setup, actions)
    ensures Inv(setup, forged, Run(setup, st, actions))
    decreases |actions|
  {
    if actions == [] {
    } else {
      NextInv(setup, forged, st, actions[0]);
      RunInv(setup, forged, Next(setup, st, actions[0]), actions[1..]);
    }
  }

  // ---- what the receiver has ----

  /** At any time, end markers forged or not, the receiver has written a prefix of the file: as many blocks as the
      sender has had acknowledged, or one more. */
  lemma PrefixWritten(setup: Setup, actions: seq<Action>)
    requires setup.Valid() && Legal(setup, Initial(setup), actions)
    ensures var st := Run(setup, Initial(setup), actions);
            && st.index <= st.written <= st.index + 1 && st.written <= Count(setup.file)
            && (forall f | f in st.receiver.disk && f != setup.names ::
                  f in setup.disk && st.receiver.disk[f] == setup.disk[f])
            && (st.written == 0 ==> st.receiver.disk == setup.disk)
            && (st.written > 0 ==>
                  && setup.names in st.receiver.disk
                  && st.receiver.disk[setup.names] == setup.file[..Start(setup.file, st.written)])
  {
    InitialInv(setup, true);
    RunInv(setup, true, Initial(setup), actions);
  }

  /** When the sender leaves, the receiver has the whole file. When the receiver leaves, it has the whole file in
      every run without a forged end marker. Only a file without any content leaves an older file of that name in
      place. */
  lemma WholeFile(setup: Setup, actions: seq<Action>)
    requires setup.Valid() && Legal(setup, Initial(setup), actions)
    ensures var st := Run(setup, Initial(setup), actions);
            && (st.done ==> st.receiver.finished && st.written == Count(setup.file))
            && (st.receiver.finished && Unforged(setup, actions) ==> st.written == Count(setup.file))
            && (st.written == Count(setup.file) ==>
                  && st.receiver.disk ==
                       (if setup.file == [] then setup.disk else setup.disk[setup.names := setup.file])
                  && ((setup.names in st.receiver.disk && st.receiver.disk[setup.names] == setup.file) <==>
                      (setup.file != [] || (setup.names in setup.disk && setup.disk[setup.names] == []))))
            && (0 < st.written < Count(setup.file) ==>
                  setup.names in st.receiver.disk && |st.receiver.disk[setup.names]| < |setup.file|)
  {
    var st := Run(setup, Initial(setup), actions);
    InitialInv(setup, true);
    RunInv(setup, true, Initial(setup), actions);
    if Unforged(setup, actions) {
      InitialInv(setup, false);
      RunInv(setup, false, Initial(setup), actions);
    }
    if st.written == Count(setup.file) {
      BlocksMeet(setup.file, st.written);
      assert setup.file[..|setup.file|] == setup.file;
    }
  }

  // ---- the bounds are exact, and the transfer can succeed ----

  lemma {:induction false} RunAppend(setup: Setup, st: State, a: seq<Action>, b: seq<Action>)
    requires setup.Valid() && Legal(setup, st, a) && Legal(setup, Run(setup, st, a), b)
    ensures Legal(setup, st, a + b) && Run(setup, st, a + b) == Run(setup, Run(setup, st, a), b)
    decreases |a|
  {
    if a == [] {
      assert a + b == b;
    } else {
      RunAppend(setup, Next(setup, st, a[0]), a[1..], b);
      assert (a + b)[1..] == a[1..] + b;
    }
  }

  /** Everything has arrived so far, and nothing is gone. */
  ghost predicate Level(setup: Setup, st: State, k: nat)
    requires setup.Valid()
  {
    && Inv(setup, false, st) && st.index == st.written == k && !st.done && !st.receiver.finished
    && (forall j {:trigger setup.frame(j)} | 0 <= j < k :: Copy(j, setup.frame(j)) in st.copies)
    && (forall j {:trigger SeqOf(setup.file, j)} | 0 <= j < k :: Answer(j, LowByte(SeqOf(setup.file, j))) in st.answers)
  }

  ghost function SendOne(setup: Setup, k: nat): seq<Action>
    requires setup.Valid()
  {
    [Send, Deliver(Copy(k, setup.frame(k)))]
  }

  lemma OneStep(setup: Setup, st: State, a: Action)
    requires setup.Valid() && Enabled(setup, st, a)
    ensures Legal(setup, st, [a]) && Run(setup, st, [a]) == Next(setup, st, a)
  {
    assert [a][1..] == [];
  }

  lemma TwoSteps(setup: Setup, st: State, a: Action, b: Action)
    requires setup.Valid() && Enabled(setup, st, a) && Enabled(setup, Next(setup, st, a), b)
    ensures Legal(setup, st, [a, b]) && Run(setup, st, [a, b]) == Next(setup, Next(setup, st, a), b)
  {
    var st1 := Next(setup, st, a);
    OneStep(setup, st1, b);
    assert [a, b][1..] == [b];
  }

  /** The current packet arrives at once. */
  lemma SendOneRuns(setup: Setup, st: State, k: nat)
    requires setup.Valid() && Level(setup, st, k) && k <= Count(setup.file)
    ensures Legal(setup, st, SendOne(setup, k))
    ensures var c := Copy(k, setup.frame(k));
            Run(setup, st, SendOne(setup, k)) ==
              Arrive(st.(copies := st.copies + {c}), k, Some(LowByte(SeqOf(setup.file, k))), Meant(setup, k))
  {
    var c := Copy(k, setup.frame(k));
    assert setup.Sound(k);
    TwoSteps(setup, st, Send, Deliver(c));
  }

  /** A block is sent and acknowledged without any trouble. */
  lemma TurnRuns(setup: Setup, st: State, k: nat) returns (actions: seq<Action>)
    requires setup.Valid() && Level(setup, st, k) && k < Count(setup.file)
    ensures Legal(setup, st, actions) && Level(setup, Run(setup, st, actions), k + 1)
    ensures forall a | a in actions :: !a.Damage?
  {
    var r := DeliverAnswer(Answer(k, LowByte(SeqOf(setup.file, k))));
    SendOneRuns(setup, st, k);
    var st1 := Run(setup, st, SendOne(setup, k));
    OneStep(setup, st1, r);
    RunAppend(setup, st, SendOne(setup, k), [r]);
    actions := SendOne(setup, k) + [r];
    assert Unforged(setup, actions);
    RunInv(setup, false, st, actions);
  }

  lemma {:induction false} StraightRun(setup: Setup, k: nat) returns (actions: seq<Action>)
    requires setup.Valid() && k <= Count(setup.file)
    ensures Legal(setup, Initial(setup), actions) && Level(setup, Run(setup, Initial(setup), actions), k)
    ensures forall a | a in actions :: !a.Damage?
    decreases k
  {
    if k == 0 {
      InitialInv(setup, false);
      actions := [];
    } else {
      var before := StraightRun(setup, k - 1);
      var turn := TurnRuns(setup, Run(setup, Initial(setup), before), k - 1);
      RunAppend(setup, Initial(setup), before, turn);
      actions := before + turn;
    }
  }

  /** Every transfer can come to its end. */
  lemma CanComplete(setup: Setup) returns (actions: seq<Action>)
    requires setup.Valid()
    ensures Legal(setup, Initial(setup), actions) && Run(setup, Initial(setup), actions).done
  {
    var n := Count(setup.file);
    var before := StraightRun(setup, n);
    var st := Run(setup, Initial(setup), before);
    SendOneRuns(setup, st, n);
    var st1 := Run(setup, st, SendOne(setup, n));
    var r := DeliverAnswer(Answer(n, LowByte(-1)));
    OneStep(setup, st1, r);
    RunAppend(setup, Initial(setup), before, SendOne(setup, n));
    RunAppend(setup, Initial(setup), before + SendOne(setup, n), [r]);
    actions := before + SendOne(setup, n) + [r];
  }

  lemma FirstBlockAgain(setup: Setup, r: Receiving)
    requires ReceiverInv(setup, false, 127, 128, r)
    ensures var disk := Handle(r, Meant(setup, 0)).disk;
            setup.names in disk && disk[setup.names] == setup.file[..Start(setup.file, 128)] + BlockAt(setup.file, 0)
  {
    assert r.expected == 0;
  }

  /** One block more behind, and an old packet is taken for a new one. */
  lemma DataBoundIsExact(setup: Setup) returns (actions: seq<Action>, stale: Copy)
    requires setup.Valid() && Count(setup.file) > STALE_DATA + 1
    ensures Legal(setup, Initial(setup), actions) && Readable(stale.bytes)
    ensures var st := Run(setup, Initial(setup), actions);
            && stale in st.copies && !st.receiver.finished && st.index == stale.index + 127
            && var disk := Handle(st.receiver, Read(stale.bytes)).disk;
               setup.names in disk
               && disk[setup.names] == setup.file[..Start(setup.file, 128)] + BlockAt(setup.file, 0)
  {
    var k := STALE_DATA + 1;
    var before := StraightRun(setup, k);
    var st := Run(setup, Initial(setup), before);
    SendOneRuns(setup, st, k);
    assert Unforged(setup, SendOne(setup, k));
    RunInv(setup, false, st, SendOne(setup, k));
    RunAppend(setup, Initial(setup), before, SendOne(setup, k));
    actions, stale := before + SendOne(setup, k), Copy(0, setup.frame(0));
    assert setup.Sound(0);
    FirstBlockAgain(setup, Run(setup, st, SendOne(setup, k)).receiver);
  }

  /** One block more behind, and an old answer makes the sender skip a block. */
  lemma AckBoundIsExact(setup: Setup) returns (actions: seq<Action>, stale: Answer)
    requires setup.Valid() && Count(setup.file) > STALE_ACK + 1
    ensures Legal(setup, Initial(setup), actions)
    ensures var st := Run(setup, Initial(setup), actions);
            && stale in st.answers && !st.done && st.index == stale.index + 128
            && AfterAck(setup.file, st.index, stale.byte) == (st.written + 1, false)
  {
    actions := StraightRun(setup, STALE_ACK + 1);
    stale := Answer(0, LowByte(SeqOf(setup.file, 0)));
  }

  /** One damaged byte, and the receiver leaves with any number of blocks less than all. */
  lemma ForgedEnd(setup: Setup, k: nat) returns (actions: seq<Action>, forgery: Action)
    requires setup.Valid() && k < Count(setup.file)
    ensures Legal(setup, Initial(setup), actions) && forgery in actions && Forges(setup, forgery)
    ensures forall a | a in actions && a != forgery :: !a.Damage?
    ensures var st := Run(setup, Initial(setup), actions);
            && st.receiver.finished && !st.done && st.index == st.written == k
            && st.receiver.disk == Received(setup, k)
  {
    var before := StraightRun(setup, k);
    var st := Run(setup, Initial(setup), before);
    assert setup.Sound(k);
    var c := Copy(k, setup.frame(k)[1 := END]);
    EndByte(setup.file, k);
    EndIsForged(setup.frame(k));
    forgery := Damage(c, 1);
    var st1 := Next(setup, st, Send);
    OneStep(setup, st, Send);
    TwoSteps(setup, st1, forgery, Deliver(c));
    RunAppend(setup, st, [Send], [forgery, Deliver(c)]);
    RunAppend(setup, Initial(setup), before, [Send] + [forgery, Deliver(c)]);
    actions := before + ([Send] + [forgery, Deliver(c)]);
  }
}
