/** The packets of the file transfer, as bytes. */
module TransferPacket {
  import opened Crc32
  import opened Octets

  const SEQ_SIZE := 128
  const NAMES_SIZE := 70
  const HEADER_SIZE := 74
  const DATA_SIZE := 20000
  const CRC_SIZE := 4
  const FRAMED := HEADER_SIZE + DATA_SIZE
  const PACKET_SIZE := FRAMED + CRC_SIZE

  /** The sequence number -1 as the one byte it is sent in. */
  const END: bv8 := 0xFF

  /** `htonl`. */
  function Big32(x: bv32): Bytes {
    [(x >> 24) as bv8, ((x >> 16) & 0xFF) as bv8, ((x >> 8) & 0xFF) as bv8, (x & 0xFF) as bv8]
  }

  /** `ntohl`. */
  function Read32(bytes: Bytes): bv32
    requires |bytes| == 4
  {
    ((bytes[0] as bv32) << 24) | ((bytes[1] as bv32) << 16) | ((bytes[2] as bv32) << 8) | (bytes[3] as bv32)
  }

  /** On the wire the highest byte comes first. */
  lemma Big32IsReversed(x: bv32)
    ensures |Big32(x)| == 4
    ensures Big32(x)[0] == LowFirst(x)[3] && Big32(x)[1] == LowFirst(x)[2]
    ensures Big32(x)[2] == LowFirst(x)[1] && Big32(x)[3] == LowFirst(x)[0]
  {
  }

  lemma Big32RoundTrip(x: bv32)
    ensures Read32(Big32(x)) == x
  {
  }

  lemma Places(a: bv8, b: bv8, c: bv8, d: bv8)
    ensures var x := ((a as bv32) << 24) | ((b as bv32) << 16) | ((c as bv32) << 8) | (d as bv32);
            && (x >> 24) as bv8 == a && ((x >> 16) & 0xFF) as bv8 == b
            && ((x >> 8) & 0xFF) as bv8 == c && (x & 0xFF) as bv8 == d
  {
  }

  /** Different bytes, different numbers. */
  lemma Read32Injective(a: Bytes, b: Bytes)
    requires |a| == |b| == 4 && Read32(a) == Read32(b)
    ensures a == b
  {
    Places(a[0], a[1], a[2], a[3]);
    Places(b[0], b[1], b[2], b[3]);
  }

  // ---- frames ----

  /** The part of a packet that the checksum covers. */
  function Framed(seqNum: int, length: nat, names: Bytes, area: Bytes): Bytes {
    [0, LowByte(seqNum)] + Big16(length) + names + area
  }

  function Frame(seqNum: int, length: nat, names: Bytes, area: Bytes): Bytes {
    var framed := Framed(seqNum, length, names, area);
    framed + Big32(Crc(framed))
  }

  /** What the receiver makes of a packet. */
  datatype Reading = End | Corrupt | Block(seqNum: int, names: Bytes, data: Bytes)

  function Length(packet: Bytes): int
    requires |packet| == PACKET_SIZE
  {
    SignedBig16(packet[2], packet[3])
  }

  /** The data are copied out before the checksum is tested, so their length must lie within the packet. */
  predicate Readable(packet: Bytes) {
    |packet| == PACKET_SIZE && (packet[1] != END ==> 0 <= Length(packet) <= DATA_SIZE + CRC_SIZE)
  }

  /** The end marker is looked for before the checksum is. */
  function Read(packet: Bytes): Reading
    requires Readable(packet)
  {
    if packet[1] == END then End
    else if Read32(packet[FRAMED..]) != Crc(packet[..FRAMED]) then Corrupt
    else Block(Signed(packet[1]), packet[4..HEADER_SIZE], packet[HEADER_SIZE..HEADER_SIZE + Length(packet)])
  }

  lemma FrameParts(seqNum: int, length: nat, names: Bytes, area: Bytes)
    requires |names| == NAMES_SIZE && |area| == DATA_SIZE
    ensures var p := Frame(seqNum, length, names, area);
            && |p| == 20078 && p[0] == 0 && p[1] == LowByte(seqNum)
            && p[2] == Big16(length)[0] && p[3] == Big16(length)[1]
            && p[..FRAMED] == Framed(seqNum, length, names, area)
            && p[20074..] == Big32(Crc(p[..20074]))
            && p[4..74] == names && p[74..20074] == area
  {
    var framed := Framed(seqNum, length, names, area);
    var p := Frame(seqNum, length, names, area);
    assert |framed| == FRAMED;
    assert p[..FRAMED] == framed;
    assert p[4..HEADER_SIZE] == names;
    assert p[HEADER_SIZE..FRAMED] == area;
  }

  lemma Slice(s: Bytes, from: nat, to: nat, length: nat)
    requires from + length <= to <= |s|
    ensures s[from..from + length] == s[from..to][..length]
  {
  }

  /** The fields of a packet determine what is read. */
  lemma ReadsAs(p: Bytes, seqNum: int, length: nat, names: Bytes, area: Bytes)
    requires |p| == PACKET_SIZE && |area| == DATA_SIZE && length <= DATA_SIZE
    requires Signed(p[1]) == seqNum && Length(p) == length && Read32(p[FRAMED..]) == Crc(p[..FRAMED])
    requires p[4..HEADER_SIZE] == names && p[HEADER_SIZE..FRAMED] == area
    ensures Readable(p) && Read(p) == if seqNum == -1 then End else Block(seqNum, names, area[..length])
  {
    EndIsMinusOne(p[1]);
    Slice(p, HEADER_SIZE, FRAMED, length);
  }

  lemma EndIsMinusOne(b: bv8)
    ensures b == END <==> Signed(b) == -1
  {
  }

  lemma FrameLength(seqNum: int, length: nat, names: Bytes, area: Bytes)
    requires |names| == NAMES_SIZE && |area| == DATA_SIZE && length <= DATA_SIZE
    ensures |Frame(seqNum, length, names, area)| == PACKET_SIZE && Length(Frame(seqNum, length, names, area)) == length
  {
    FrameParts(seqNum, length, names, area);
    Big16RoundTrip(length);
  }

  lemma FrameChecks(seqNum: int, length: nat, names: Bytes, area: Bytes)
    requires |names| == NAMES_SIZE && |area| == DATA_SIZE
    ensures var p := Frame(seqNum, length, names, area);
            |p| == PACKET_SIZE && Read32(p[FRAMED..]) == Crc(p[..FRAMED])
  {
    FrameParts(seqNum, length, names, area);
    Big32RoundTrip(Crc(Frame(seqNum, length, names, area)[..FRAMED]));
  }

  /** What is sent is read back: the end marker as such, a block with its number, names and data. */
  lemma FrameRoundTrip(seqNum: int, length: nat, names: Bytes, area: Bytes)
    requires |names| == NAMES_SIZE && |area| == DATA_SIZE && length <= DATA_SIZE
    requires -1 <= seqNum < SEQ_SIZE
    ensures var p := Frame(seqNum, length, names, area);
            && Readable(p)
            && Read(p) == if seqNum == -1 then End else Block(seqNum, names, area[..length])
  {
    FrameParts(seqNum, length, names, area);
    FrameLength(seqNum, length, names, area);
    FrameChecks(seqNum, length, names, area);
    SignedByte(seqNum);
    ReadsAs(Frame(seqNum, length, names, area), seqNum, length, names, area);
  }

  // ---- damage ----

  /** Some of the four bytes from `at` on have changed, all of them covered by the checksum or all of its field. */
  ghost predicate Damaged(p: Bytes, q: Bytes, at: nat) {
    && |p| == |q| == PACKET_SIZE && (at + 4 <= FRAMED || at == FRAMED)
    && p[..at] == q[..at] && p[at + 4..] == q[at + 4..] && p != q
  }

  lemma SplitAt(p: Bytes, at: nat)
    requires |p| == PACKET_SIZE && at + 4 <= FRAMED
    ensures p[..FRAMED] == p[..at] + p[at..at + 4] + p[at + 4..][..FRAMED - at - 4]
    ensures p[FRAMED..] == p[at + 4..][FRAMED - at - 4..]
    ensures p == p[..at] + p[at..at + 4] + p[at + 4..]
  {
  }

  lemma DamageFailsChecksum(p: Bytes, q: Bytes, at: nat)
    requires Damaged(p, q, at) && Read32(p[FRAMED..]) == Crc(p[..FRAMED])
    ensures Read32(q[FRAMED..]) != Crc(q[..FRAMED])
  {
    if at == FRAMED {
      assert p == p[..FRAMED] + p[FRAMED..] && q == q[..FRAMED] + q[FRAMED..];
      if Read32(q[FRAMED..]) == Crc(q[..FRAMED]) {
        Read32Injective(p[FRAMED..], q[FRAMED..]);
      }
    } else {
      SplitAt(p, at);
      SplitAt(q, at);
      BurstDetected(p[..at], p[at..at + 4], q[at..at + 4], p[at + 4..][..FRAMED - at - 4]);
    }
  }

  /** A packet damaged in one place is dropped if and only if it does not read as an end marker. */
  lemma DamageDetected(p: Bytes, q: Bytes, at: nat)
    requires Damaged(p, q, at) && Read32(p[FRAMED..]) == Crc(p[..FRAMED]) && Readable(q)
    ensures Read(q) == Corrupt <==> q[1] != END
  {
    DamageFailsChecksum(p, q, at);
  }

  /** One byte is enough to make any packet an end marker. */
  lemma EndIsForged(p: Bytes)
    requires |p| == PACKET_SIZE && p[1] != END
    ensures Damaged(p, p[1 := END], 1) && Readable(p[1 := END]) && Read(p[1 := END]) == End
  {
    var q := p[1 := END];
    assert p[..1] == q[..1] && p[5..] == q[5..];
  }

  // ---- building a packet ----

  function Overwrite(p: Bytes, at: nat, bytes: Bytes): (q: Bytes)
    requires at + |bytes| <= |p|
    ensures |q| == |p|
  {
    p[..at] + bytes + p[at + |bytes|..]
  }

  /** `memcpy`. */
  method CopyInto(packet: array<bv8>, at: nat, bytes: Bytes)
    requires at + |bytes| <= packet.Length
    modifies packet
    ensures packet[..] == Overwrite(old(packet[..]), at, bytes)
  {
    forall i | 0 <= i < |bytes| {
      packet[at + i] := bytes[i];
    }
  }

  /** Filling in what follows the part that is done. */
  lemma Append(p: Bytes, done: Bytes, bytes: Bytes)
    requires |done| + |bytes| <= |p| && p[..|done|] == done
    ensures Overwrite(p, |done|, bytes)[..|done| + |bytes|] == done + bytes
  {
  }

  /** The next field; `done` is what stands before it. */
  method Field(packet: array<bv8>, ghost done: Bytes, at: nat, bytes: Bytes) returns (ghost more: Bytes)
    requires at == |done| && at + |bytes| <= packet.Length && packet[..][..at] == done
    modifies packet
    ensures more == done + bytes && packet[..][..at + |bytes|] == more
  {
    ghost var before := packet[..];
    CopyInto(packet, at, bytes);
    Append(before, done, bytes);
    more := done + bytes;
  }

  /** The packet buffer is cleared and filled in field by field. */
  method FillFramed(packet: array<bv8>, seqNum: int, length: nat, subdir: Bytes, fileName: Bytes, area: Bytes)
    requires packet.Length == PACKET_SIZE && |subdir| == 50 && |fileName| == 20 && |area| == DATA_SIZE
    modifies packet
    ensures packet[..][..FRAMED] == Framed(seqNum, length, subdir + fileName, area)
  {
    forall i | 0 <= i < packet.Length {
      packet[i] := 0;
    }
    packet[1] := LowByte(seqNum);
    ghost var done: Bytes := [0, LowByte(seqNum)];
    done := Field(packet, done, 2, Big16(length));
    done := Field(packet, done, 4, subdir);
    done := Field(packet, done, 54, fileName);
    done := Field(packet, done, HEADER_SIZE, area);
    assert done == Framed(seqNum, length, subdir + fileName, area);
  }

  /** The checksum is computed last. */
  method BuildPacket(packet: array<bv8>, seqNum: int, length: nat, subdir: Bytes, fileName: Bytes, area: Bytes)
    requires packet.Length == PACKET_SIZE && |subdir| == 50 && |fileName| == 20 && |area| == DATA_SIZE
    modifies packet
    ensures packet[..] == Frame(seqNum, length, subdir + fileName, area)
  {
    FillFramed(packet, seqNum, length, subdir, fileName, area);
    assert packet[..][..FRAMED] == packet[..FRAMED];
    var crc := Compute(packet[..FRAMED]);
    ghost var done := Field(packet, packet[..FRAMED], FRAMED, Big32(crc));
    assert packet[..] == packet[..][..PACKET_SIZE];
  }
}
