/** DV packets as bytes: what the receiver reads is what the sender's table said. */
module DvPacket {
  import opened Words
  import opened RouterTables
  import opened DvTables

  type Byte = x: int | 0 <= x < 256

  const DV_TYPE: Byte := 3
  const HEADER_SIZE := 8
  const ENTRY_SIZE := 4

  /** More entries than this and the 16-bit size of the packet wraps. */
  const MAX_ENTRIES := 16381

  /** `ntohs` of the two bytes at `i`. */
  function Read16(bytes: seq<Byte>, i: nat): u16
    requires i + 1 < |bytes|
  {
    bytes[i] as int * 256 + bytes[i + 1] as int
  }

  /** The first `k` entries of a packet; a later entry for the same id replaces an earlier one. */
  function Entries(bytes: seq<Byte>, k: nat): Vector
    requires HEADER_SIZE + ENTRY_SIZE * k <= |bytes|
  {
    if k == 0 then map[] else
    var i := HEADER_SIZE + ENTRY_SIZE * (k - 1);
    Entries(bytes, k - 1)[Read16(bytes, i) := Read16(bytes, i + 2)]
  }

  lemma {:induction false} EntriesFrame(a: seq<Byte>, b: seq<Byte>, k: nat)
    requires HEADER_SIZE + ENTRY_SIZE * k <= |a| && |a| == |b|
    requires forall i | 0 <= i < HEADER_SIZE + ENTRY_SIZE * k :: a[i] == b[i]
    ensures Entries(a, k) == Entries(b, k)
  {
    if k == 0 {
    } else {
      EntriesFrame(a, b, k - 1);
    }
  }

  /** `htons` into the two bytes at `i`. */
  method Write16(packet: array<Byte>, i: nat, x: u16)
    requires i + 1 < packet.Length
    modifies packet
    ensures packet[..] == old(packet[..])[i := x / 256][i + 1 := x % 256]
    ensures Read16(packet[..], i) == x
  {
    packet[i] := x / 256;
    packet[i + 1] := x % 256;
  }

  /** The bytes of the `k`-th entry: the id and the cost, each with its high byte first. */
  ghost predicate EntryAt(bytes: seq<Byte>, k: nat, id: Id, cost: u16) {
    var i := 8 + 4 * k;
    && i + 3 < |bytes|
    && bytes[i] == id / 256 && bytes[i + 1] == id % 256 && bytes[i + 2] == cost / 256 && bytes[i + 3] == cost % 256
  }

  lemma EntryAtFrame(a: seq<Byte>, b: seq<Byte>, n: nat, k: nat, id: Id, cost: u16)
    requires k < n && HEADER_SIZE + ENTRY_SIZE * n <= |a| && |a| == |b|
    requires a[..HEADER_SIZE + ENTRY_SIZE * n] == b[..HEADER_SIZE + ENTRY_SIZE * n]
    ensures EntryAt(a, k, id, cost) <==> EntryAt(b, k, id, cost)
  {
    assert forall i | 0 <= i < HEADER_SIZE + ENTRY_SIZE * n ::
        a[i] == a[..HEADER_SIZE + ENTRY_SIZE * n][i] && b[i] == b[..HEADER_SIZE + ENTRY_SIZE * n][i];
  }

  /** One turn of the loop of `send_DV`. */
  method WriteEntry(packet: array<Byte>, k: nat, id: Id, cost: u16)
    requires HEADER_SIZE + ENTRY_SIZE * (k + 1) <= packet.Length
    modifies packet
    ensures Entries(packet[..], k + 1) == Entries(old(packet[..]), k)[id := cost]
    ensures packet[..HEADER_SIZE + ENTRY_SIZE * k] == old(packet[..HEADER_SIZE + ENTRY_SIZE * k])
    ensures EntryAt(packet[..], k, id, cost)
  {
    var i := HEADER_SIZE + ENTRY_SIZE * k;
    Write16(packet, i, id);
    ghost var half := packet[..];
    Write16(packet, i + 2, cost);
    assert Read16(packet[..], i) == Read16(half, i);
    EntriesFrame(old(packet[..]), packet[..], k);
  }

  /** Type, size, source and destination. */
  ghost predicate HasHeader(bytes: seq<Byte>, self: Id, dest: Id) {
    && 8 <= |bytes| && bytes[0] == 3
    && bytes[2] == |bytes| / 256 && bytes[3] == |bytes| % 256
    && bytes[4] == self / 256 && bytes[5] == self % 256 && bytes[6] == dest / 256 && bytes[7] == dest % 256
  }

  method WriteHeader(packet: array<Byte>, self: Id, dest: Id)
    requires HEADER_SIZE <= packet.Length < U16_RANGE
    modifies packet
    ensures HasHeader(packet[..], self, dest)
  {
    packet[0] := DV_TYPE;
    Write16(packet, 2, packet.Length);
    Write16(packet, 4, self);
    Write16(packet, 6, dest);
  }

  lemma HeaderFrame(a: seq<Byte>, b: seq<Byte>, self: Id, dest: Id)
    requires HasHeader(a, self, dest) && |b| == |a| && b[..HEADER_SIZE] == a[..HEADER_SIZE]
    ensures HasHeader(b, self, dest)
  {
    assert forall i | 0 <= i < HEADER_SIZE :: b[i] == b[..HEADER_SIZE][i] && a[i] == a[..HEADER_SIZE][i];
  }

  /** What is said of `d` to `dest`: that it is out of reach, if it is reached over `dest`. */
  ghost function Said(routes: Routes, dest: Id, d: Id): u16
    requires d in routes
  {
    if routes[d].hop == dest && d != dest then 65535 else routes[d].cost
  }

  /** The entries of the packet are those of `ids`, in that order. */
  ghost predicate Says(bytes: seq<Byte>, ids: seq<Id>, routes: Routes, dest: Id) {
    forall k {:trigger ids[k]} | 0 <= k < |ids| ::
      ids[k] in routes && EntryAt(bytes, k, ids[k], Said(routes, dest, ids[k]))
  }

  lemma SaysMore(before: seq<Byte>, after: seq<Byte>, ids: seq<Id>, routes: Routes, dest: Id, d: Id)
    requires Says(before, ids, routes, dest) && |after| == |before|
    requires HEADER_SIZE + ENTRY_SIZE * (|ids| + 1) <= |before|
    requires after[..HEADER_SIZE + ENTRY_SIZE * |ids|] == before[..HEADER_SIZE + ENTRY_SIZE * |ids|]
    requires d in routes && EntryAt(after, |ids|, d, Said(routes, dest, d))
    ensures Says(after, ids + [d], routes, dest)
  {
    forall k {:trigger (ids + [d])[k]} | 0 <= k < |ids + [d]|
      ensures (ids + [d])[k] in routes && EntryAt(after, k, (ids + [d])[k], Said(routes, dest, (ids + [d])[k]))
    {
      if k < |ids| {
        assert ids[k] in routes;
        EntryAtFrame(before, after, |ids|, k, ids[k], Said(routes, dest, ids[k]));
      }
    }
  }

  /** The body of the loop of `send_DV`: the entry for `d` follows those for `ids`. */
  method WriteRoute(packet: array<Byte>, self: Id, routes: Routes, dest: Id, k: nat, d: Id, ghost ids: seq<Id>)
    requires HEADER_SIZE + ENTRY_SIZE * (k + 1) <= packet.Length && d in routes && |ids| == k
    requires HasHeader(packet[..], self, dest) && Says(packet[..], ids, routes, dest)
    modifies packet
    ensures HasHeader(packet[..], self, dest) && Says(packet[..], ids + [d], routes, dest)
    ensures Entries(packet[..], k + 1) == Entries(old(packet[..]), k)[d := Advertise(routes, dest)[d]]
  {
    var cost := routes[d].cost;
    if dest == routes[d].hop && d != dest {
      cost := INFINITY_COST;
    }
    ghost var before := packet[..];
    WriteEntry(packet, k, d, cost);
    HeaderFrame(before, packet[..], self, dest);
    SaysMore(before, packet[..], ids, routes, dest, d);
  }

  /** The packet for `dest` without the entries for `todo`. */
  function SaidBut(routes: Routes, dest: Id, todo: set<Id>): Vector {
    map d | d in routes && d !in todo :: Advertise(routes, dest)[d]
  }

  lemma SaidOne(routes: Routes, dest: Id, todo: set<Id>, d: Id)
    requires d in routes && d in todo
    ensures SaidBut(routes, dest, todo - {d}) == SaidBut(routes, dest, todo)[d := Advertise(routes, dest)[d]]
  {
  }

  lemma SaidAll(routes: Routes, dest: Id)
    ensures SaidBut(routes, dest, {}) == Advertise(routes, dest) && SaidBut(routes, dest, routes.Keys) == map[]
  {
  }

  /** The loop of `send_DV`; `ids` is the order of the entries. */
  method WriteRoutes(packet: array<Byte>, self: Id, routes: Routes, dest: Id) returns (ghost ids: seq<Id>)
    requires packet.Length == HEADER_SIZE + ENTRY_SIZE * |routes| && HasHeader(packet[..], self, dest)
    modifies packet
    ensures HasHeader(packet[..], self, dest) && Says(packet[..], ids, routes, dest)
    ensures |ids| == |routes| && (forall d :: d in ids <==> d in routes)
    ensures Entries(packet[..], |routes|) == Advertise(routes, dest)
  {
    var todo := routes.Keys;
    var i := 0;
    ids := [];
    SaidAll(routes, dest);
    while todo != {}
      invariant todo <= routes.Keys && i + |todo| == |routes|
      invariant |ids| == i && (forall d :: d in ids <==> d in routes && d !in todo)
      invariant HasHeader(packet[..], self, dest) && Says(packet[..], ids, routes, dest)
      invariant Entries(packet[..], i) == SaidBut(routes, dest, todo)
      decreases todo
    {
      var d :| d in todo;
      SaidOne(routes, dest, todo, d);
      todo := todo - {d};
      WriteRoute(packet, self, routes, dest, i, d, ids);
      i, ids := i + 1, ids + [d];
    }
  }

  /** `send_DV`: the packet for `dest`. */
  method Pack(self: Id, routes: Routes, dest: Id) returns (packet: array<Byte>, ghost ids: seq<Id>)
    requires |routes| <= MAX_ENTRIES
    ensures fresh(packet) && packet.Length == HEADER_SIZE + ENTRY_SIZE * |routes| < U16_RANGE
    ensures HasHeader(packet[..], self, dest) && Says(packet[..], ids, routes, dest)
    ensures |ids| == |routes| && (forall d :: d in ids <==> d in routes)
    ensures Entries(packet[..], |routes|) == Advertise(routes, dest)
  {
    var size := HEADER_SIZE + ENTRY_SIZE * |routes|;
    packet := new Byte[size];
    WriteHeader(packet, self, dest);
    ids := WriteRoutes(packet, self, routes, dest);
  }

  /** The first loop of `recv`. */
  method Parse(packet: seq<Byte>, size: nat) returns (dv: Vector)
    requires HEADER_SIZE <= size <= |packet| && (size - HEADER_SIZE) % ENTRY_SIZE == 0
    ensures dv == Entries(packet, (size - HEADER_SIZE) / ENTRY_SIZE)
  {
    dv := map[];
    var i := HEADER_SIZE;
    ghost var k := 0;
    while i < size
      invariant i == HEADER_SIZE + ENTRY_SIZE * k <= size
      invariant dv == Entries(packet, k)
    {
      var id := Read16(packet, i);
      var cost := Read16(packet, i + 2);
      dv := dv[id := cost];
      i, k := i + ENTRY_SIZE, k + 1;
    }
  }

  /** Packing and parsing give back exactly the advertised table. */
  method RoundTrip(self: Id, routes: Routes, dest: Id) returns (dv: Vector)
    requires |routes| <= MAX_ENTRIES
    ensures dv == Advertise(routes, dest)
  {
    var packet, _ := Pack(self, routes, dest);
    dv := Parse(packet[..], packet.Length);
  }
}
