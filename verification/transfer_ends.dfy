/** The two ends of the file transfer: what each does with one packet. */
module TransferEnds {
  import opened Crc32
  import opened Octets
  import opened Options
  import opened TransferPacket

  // ---- the file in blocks ----

  function Min(x: int, y: int): int {
    if x < y then x else y
  }

  /** How many blocks are read before the end of the file is. */
  function Count(file: Bytes): nat {
    (|file| + DATA_SIZE - 1) / DATA_SIZE
  }

  function Start(file: Bytes, k: nat): (pos: nat)
    ensures pos <= |file|
  {
    Min(k * DATA_SIZE, |file|)
  }

  /** What the read of block `k` delivers; nothing at the end. */
  function BlockAt(file: Bytes, k: nat): (block: Bytes)
    ensures |block| <= DATA_SIZE
    ensures block == [] <==> k >= Count(file)
  {
    file[Start(file, k)..Start(file, k + 1)]
  }

  /** The data buffer: it starts out as `junk` and is cleared after every block. */
  function Area(file: Bytes, junk: Bytes, k: nat): (area: Bytes)
    requires |junk| == DATA_SIZE
    ensures |area| == DATA_SIZE
  {
    var block := BlockAt(file, k);
    block + (if k == 0 then junk else Zeros(DATA_SIZE))[|block|..]
  }

  /** The sequence number of block `k`; after the last block, -1. */
  function SeqOf(file: Bytes, k: nat): int {
    if k < Count(file) then k % SEQ_SIZE else -1
  }

  function FrameAt(file: Bytes, names: Bytes, junk: Bytes, k: nat): Bytes
    requires |junk| == DATA_SIZE
  {
    Frame(SeqOf(file, k), |BlockAt(file, k)|, names, Area(file, junk, k))
  }

  lemma FrameAtReads(file: Bytes, names: Bytes, junk: Bytes, k: nat)
    requires |junk| == DATA_SIZE && |names| == NAMES_SIZE
    ensures var p := FrameAt(file, names, junk, k);
            && Readable(p) && Read32(p[FRAMED..]) == Crc(p[..FRAMED]) && p[1] == LowByte(SeqOf(file, k))
            && Read(p) == if k < Count(file) then Block(k % SEQ_SIZE, names, BlockAt(file, k)) else End
  {
    var block, area := BlockAt(file, k), Area(file, junk, k);
    assert area[..|block|] == block;
    FrameParts(SeqOf(file, k), |block|, names, area);
    FrameRoundTrip(SeqOf(file, k), |block|, names, area);
    FrameChecks(SeqOf(file, k), |block|, names, area);
  }

  lemma BlocksMeet(file: Bytes, k: nat)
    ensures file[..Start(file, k)] + BlockAt(file, k) == file[..Start(file, k + 1)]
    ensures k >= Count(file) ==> Start(file, k) == |file|
    ensures k < Count(file) ==> Start(file, k) == 20000 * k && (k + 1 < Count(file) ==> |BlockAt(file, k)| == 20000)
  {
  }

  lemma SeqAdvances(file: Bytes, k: nat)
    requires SeqOf(file, k) >= 0
    ensures k < Count(file) && (SeqOf(file, k) + 1) % SEQ_SIZE == (k + 1) % SEQ_SIZE
  {
  }

  // ---- the sender ----

  /** Where an acknowledgement takes the sender: to the next block, or, after the end marker, out. */
  function AfterAck(file: Bytes, index: nat, ack: bv8): (nat, bool) {
    if ack != LowByte(SeqOf(file, index)) then (index, false)
    else if index < Count(file) then (index + 1, false)
    else (index, true)
  }

  class Sender {
    const file: Bytes
    const subdir: Bytes
    const fileName: Bytes
    ghost const junk: Bytes
    const packet: array<bv8>
    var position: nat
    var buffer: Bytes
    var seqNum: int
    var done: bool
    ghost var index: nat

    ghost predicate Ready()
      reads this, packet
    {
      && |subdir| == 50 && |fileName| == 20 && |junk| == DATA_SIZE && packet.Length == PACKET_SIZE
      && index <= Count(file) && position == Start(file, index)
      && |buffer| == DATA_SIZE && (index == 0 || buffer == Zeros(DATA_SIZE)) && (index == 0 ==> buffer == junk)
      && seqNum == index % SEQ_SIZE
    }

    /** The packet of the current block, or the end marker, is ready to be sent, and sent again. */
    ghost predicate Loaded()
      reads `position, `buffer, `seqNum, `index, packet
    {
      && |subdir| == 50 && |fileName| == 20 && |junk| == DATA_SIZE && packet.Length == PACKET_SIZE
      && index <= Count(file) && position == Start(file, index + 1) && buffer == Zeros(DATA_SIZE)
      && seqNum == SeqOf(file, index) && packet[..] == FrameAt(file, subdir + fileName, junk, index)
    }

    ghost predicate Valid()
      reads this, packet
    {
      Loaded() && (done ==> index == Count(file))
    }

    constructor (file: Bytes, subdir: Bytes, fileName: Bytes, junk: Bytes)
      requires |subdir| == 50 && |fileName| == 20 && |junk| == DATA_SIZE
      ensures Valid() && fresh(packet) && index == 0 && !done
      ensures this.file == file && this.subdir == subdir && this.fileName == fileName && this.junk == junk
    {
      this.file, this.subdir, this.fileName, this.junk := file, subdir, fileName, junk;
      packet := new bv8[PACKET_SIZE];
      position, buffer, seqNum, done, index := 0, junk, 0, false, 0;
      new;
      NextBlock();
    }

    /** Reads the next block, if there is one, and builds its packet. */
    method NextBlock()
      requires Ready() && !done
      modifies this, packet
      ensures Valid() && index == old(index) && !done
    {
      var next := Min(position + DATA_SIZE, |file|);
      var block := file[position..next];
      assert block == BlockAt(file, index);
      position := next;
      buffer := block + buffer[|block|..];
      if |block| == 0 {
        seqNum := -1;
      }
      BuildPacket(packet, seqNum, |block|, subdir, fileName, buffer);
      buffer := Zeros(DATA_SIZE);
    }

    /** The current block has been acknowledged. */
    method Advance()
      requires Valid() && !done && seqNum >= 0
      modifies this, packet
      ensures Valid() && index == old(index) + 1 && !done && old(index) < Count(file)
    {
      SeqAdvances(file, index);
      seqNum, index := (seqNum + 1) % SEQ_SIZE, index + 1;
      assert seqNum == index % SEQ_SIZE;
      NextBlock();
    }

    /** The end marker has been acknowledged. */
    method Finish()
      requires Valid() && seqNum < 0
      modifies `done
      ensures Valid() && done && index == Count(file)
    {
      done := true;
    }

    /** The right answer has come. */
    method MoveOn()
      requires Valid() && !done
      modifies this, packet
      ensures Valid()
      ensures (index, done) == if old(index) < Count(file) then (old(index) + 1, false) else (old(index), true)
    {
      if seqNum >= 0 {
        Advance();
      } else {
        Finish();
      }
    }

    /** An answer to the packet: the right one moves the sender on, any other makes it send the packet again. */
    method TakeAck(ack: bv8)
      requires Valid() && !done
      modifies this, packet
      ensures Valid()
      ensures (index, done) == AfterAck(file, old(index), ack)
    {
      if ack == LowByte(seqNum) {
        MoveOn();
      }
    }
  }

  // ---- the receiver ----

  type Disk = map<Bytes, Bytes>

  /** `disk` holds the file that each pair of directory and file name leads to. */
  datatype Receiving = Receiving(expected: int, rewrite: bool, disk: Disk, finished: bool)

  /** The first block replaces an earlier file, later ones are appended. */
  function Store(st: Receiving, names: Bytes, data: Bytes): Disk {
    st.disk[names := (if st.rewrite && names in st.disk then st.disk[names] else []) + data]
  }

  /** Everything but a corrupt packet is acknowledged, under its own number; only the expected block is kept. */
  function Handle(st: Receiving, reading: Reading): Receiving {
    match reading
    case End => st.(finished := true)
    case Corrupt => st
    case Block(seqNum, names, data) =>
      if seqNum != st.expected then st
      else Receiving((st.expected + 1) % SEQ_SIZE, true, Store(st, names, data), false)
  }

  /** What a packet is answered with. */
  function AckFor(packet: Bytes): Option<bv8>
    requires Readable(packet)
  {
    if Read(packet) == Corrupt then None else Some(packet[1])
  }

  class Receiver {
    var expected: int
    var rewrite: bool
    var disk: Disk
    var finished: bool

    ghost function Now(): Receiving
      reads this
    {
      Receiving(expected, rewrite, disk, finished)
    }

    constructor (disk: Disk)
      ensures Now() == Receiving(0, false, disk, false)
    {
      expected, rewrite, finished := 0, false, false;
      this.disk := disk;
    }

    /** Writes the expected block. */
    method Keep(names: Bytes, data: Bytes)
      modifies this
      ensures Now() == Receiving((old(expected) + 1) % SEQ_SIZE, true, Store(old(Now()), names, data), old(finished))
    {
      expected := (expected + 1) % SEQ_SIZE;
      if !rewrite {
        disk := disk - {names};
        rewrite := true;
      }
      disk := disk[names := (if names in disk then disk[names] else []) + data];
    }

    /** One turn of the receive loop. */
    method Receive(packet: Bytes) returns (ack: Option<bv8>)
      requires Readable(packet) && !finished && 0 <= expected < SEQ_SIZE
      modifies this
      ensures Now() == Handle(old(Now()), Read(packet))
      ensures ack == AckFor(packet)
    {
      ghost var reading := Read(packet);
      var received := packet[1];
      if received == END {
        assert reading == End;
        finished := true;
        return Some(received);
      }
      var length := Length(packet);
      var names := packet[4..HEADER_SIZE];
      var data := packet[HEADER_SIZE..HEADER_SIZE + length];
      var calculated := Compute(packet[..FRAMED]);
      if Read32(packet[FRAMED..]) != calculated {
        assert reading == Corrupt;
        return None;
      }
      var seqNum := Signed(received);
      assert reading == Block(seqNum, names, data);
      if seqNum < expected {
      } else if seqNum > expected && expected + SEQ_SIZE > seqNum {
      } else {
        Keep(names, data);
      }
      ack := Some(received);
    }
  }
}
