/** The checksum of the file transfer: CRC-32, computed bit by bit from the low end. */
module Crc32 {
  import opened Folding

  type Bytes = seq<bv8>

  const POLYNOMIAL: bv32 := 0xEDB88320
  const INITIAL: bv32 := 0xFFFFFFFF

  function Step(crc: bv32): bv32 {
    if crc & 1 == 0 then crc >> 1 else (crc >> 1) ^ POLYNOMIAL
  }

  /** The program selects the polynomial by a mask made of the lowest bit. */
  lemma MaskSelects(crc: bv32)
    ensures (crc >> 1) ^ (POLYNOMIAL & (0 - (crc & 1))) == Step(crc)
  {
    if crc & 1 == 0 {
      assert POLYNOMIAL & 0 == 0;
    } else {
      assert crc & 1 == 1;
    }
  }

  function Xor(x: bv32, y: bv32): bv32 {
    x ^ y
  }

  function Word(b: bv8): bv32 {
    b as bv32
  }

  function Feed(crc: bv32, b: bv8): bv32 {
    Iterate(Step, Xor(crc, Word(b)), 8)
  }

  function Complement(x: bv32): bv32 {
    !x
  }

  function Crc(buf: Bytes): bv32 {
    Complement(Fold(Feed, INITIAL, buf))
  }

  /** The inner loop. */
  method EightSteps(crc0: bv32) returns (crc: bv32)
    ensures crc == Iterate(Step, crc0, 8)
  {
    crc := crc0;
    var j: int := 7;
    while j >= 0
      invariant -1 <= j <= 7
      invariant Iterate(Step, crc, j + 1) == Iterate(Step, crc0, 8)
    {
      MaskSelects(crc);
      var mask := 0 - (crc & 1);
      crc := (crc >> 1) ^ (POLYNOMIAL & mask);
      j := j - 1;
    }
  }

  /** One turn of the outer loop. */
  method FeedByte(crc0: bv32, b: bv8) returns (crc: bv32)
    ensures crc == Feed(crc0, b)
  {
    crc := EightSteps(crc0 ^ (b as bv32));
  }

  lemma FoldOneMore(buf: Bytes, i: nat)
    requires i < |buf|
    ensures Fold(Feed, INITIAL, buf[..i + 1]) == Feed(Fold(Feed, INITIAL, buf[..i]), buf[i])
  {
    assert buf[..i + 1] == buf[..i] + [buf[i]];
    FoldConcat(Feed, INITIAL, buf[..i], [buf[i]]);
    assert [buf[i]][1..] == [];
  }

  /** `crc32`. */
  method Compute(buf: Bytes) returns (result: bv32)
    ensures result == Crc(buf)
  {
    var crc := INITIAL;
    var i := 0;
    while i < |buf|
      invariant 0 <= i <= |buf|
      invariant crc == Fold(Feed, INITIAL, buf[..i])
    {
      FoldOneMore(buf, i);
      crc := FeedByte(crc, buf[i]);
      i := i + 1;
    }
    assert buf[..i] == buf;
    result := !crc;
  }

  // ---- words ----

  lemma XorAssociates(x: bv32, y: bv32, z: bv32)
    ensures Xor(Xor(x, y), z) == Xor(x, Xor(y, z))
  {
    assert Xor(x, y) == x ^ y && Xor(y, z) == y ^ z;
    assert (x ^ y) ^ z == x ^ (y ^ z);
  }

  /** The low bit of a shifted word is 0, and no bit is lost when its top bit is. */
  lemma ShiftedBits(v: bv32)
    requires v & 0x8000_0000 == 0
    ensures (v << 1) & 1 == 0 && (v << 1) >> 1 == v
  {
  }

  lemma LowBitOfXor(x: bv32, y: bv32)
    requires y & 1 == 0
    ensures (x ^ y) & 1 == x & 1
  {
  }

  lemma ShiftOfXor(x: bv32, y: bv32)
    ensures (x ^ y) >> 1 == (x >> 1) ^ (y >> 1)
  {
  }

  lemma XorSwap(x: bv32, y: bv32, z: bv32)
    ensures Xor(Xor(x, y), z) == Xor(Xor(x, z), y)
  {
    assert Xor(x, y) == x ^ y && Xor(x, z) == x ^ z;
    assert (x ^ y) ^ z == (x ^ z) ^ y;
  }

  lemma StepKeepsDifference(x: bv32, y: bv32, v: bv32)
    requires x & 1 == y & 1 && y >> 1 == (x >> 1) ^ v
    ensures Step(y) == Step(x) ^ v
  {
    if x & 1 != 0 {
      XorSwap(x >> 1, v, POLYNOMIAL);
    }
  }

  /** A difference above the lowest bit is shifted down and otherwise kept. */
  lemma StepAbsorbs(x: bv32, v: bv32)
    requires v & 0x8000_0000 == 0
    ensures Step(x ^ (v << 1)) == Step(x) ^ v
  {
    ShiftedBits(v);
    LowBitOfXor(x, v << 1);
    ShiftOfXor(x, v << 1);
    StepKeepsDifference(x, x ^ (v << 1), v);
  }

  /** The top bit of the polynomial records the bit that was shifted out. */
  lemma StepInjective(x: bv32, y: bv32)
    requires Step(x) == Step(y)
    ensures x == y
  {
  }

  // ---- bytes ----

  function ShiftByte(v: bv32): bv32 {
    v << 8
  }

  predicate Fits(v: bv32) {
    v & 0xFF00_0000 == 0
  }

  const WORDS: Algebra<bv32, bv8> := Algebra(Xor, Word, ShiftByte, Fits, 0)

  ghost predicate Doubled(lo: bv32, hi: bv32) {
    hi == lo << 1 && lo & 0x8000_0000 == 0
  }

  lemma StepAbsorbsDoubled(x: bv32, lo: bv32, hi: bv32)
    requires Doubled(lo, hi)
    ensures Step(Xor(x, hi)) == Xor(Step(x), lo)
  {
    StepAbsorbs(x, lo);
  }

  /** `shifted` is a word shifted by 0, 1, and so on; no bit is lost on the way. */
  ghost predicate Doubles(shifted: seq<bv32>) {
    forall i {:trigger shifted[i]} | 0 < i < |shifted| :: Doubled(shifted[i - 1], shifted[i])
  }

  lemma StepsAbsorb(x: bv32, shifted: seq<bv32>, n: nat)
    requires n < |shifted| && Doubles(shifted)
    ensures Iterate(Step, Xor(x, shifted[n]), n) == Xor(Iterate(Step, x, n), shifted[0])
  {
    forall a, i {:trigger Xor(a, shifted[i])} | 0 < i < |shifted|
      ensures Step(Xor(a, shifted[i])) == Xor(Step(a), shifted[i - 1])
    {
      StepAbsorbsDoubled(a, shifted[i - 1], shifted[i]);
    }
    IterateAbsorbs(Step, Xor, x, shifted, n);
  }

  lemma ShiftsDouble(v: bv32)
    requires Fits(v)
    ensures Doubled(v, v << 1) && Doubled(v << 1, v << 2) && Doubled(v << 2, v << 3) && Doubled(v << 3, v << 4)
    ensures Doubled(v << 4, v << 5) && Doubled(v << 5, v << 6) && Doubled(v << 6, v << 7) && Doubled(v << 7, v << 8)
  {
  }

  lemma EightShifts(v: bv32) returns (shifted: seq<bv32>)
    requires Fits(v)
    ensures |shifted| == 9 && shifted[0] == v && shifted[8] == ShiftByte(v) && Doubles(shifted)
  {
    ShiftsDouble(v);
    shifted := [v, v << 1, v << 2, v << 3, v << 4, v << 5, v << 6, v << 7, v << 8];
  }

  /** A difference that leaves the lowest byte alone is moved down by a byte. */
  lemma FeedAbsorbs(x: bv32, v: bv32, b: bv8)
    requires Fits(v)
    ensures Xor(Feed(x, b), v) == Feed(Xor(x, ShiftByte(v)), b)
  {
    var shifted := EightShifts(v);
    StepsAbsorb(Xor(x, Word(b)), shifted, 8);
    XorSwap(x, ShiftByte(v), Word(b));
  }

  lemma StepsInjective(x: bv32, y: bv32, n: nat)
    requires Iterate(Step, x, n) == Iterate(Step, y, n)
    ensures x == y
  {
    forall s, t {:trigger Step(s), Step(t)} | Step(s) == Step(t)
      ensures s == t
    {
      StepInjective(s, t);
    }
    IterateInjective(Step, x, y, n);
  }

  lemma FeedInjective(x: bv32, y: bv32, a: bv8, b: bv8)
    requires Feed(x, a) == Feed(y, b)
    ensures Xor(x, Word(a)) == Xor(y, Word(b))
  {
    StepsInjective(Xor(x, Word(a)), Xor(y, Word(b)), 8);
  }

  lemma XorZero(x: bv32)
    ensures Xor(x, 0) == x
  {
  }

  lemma WordsAreLawful()
    ensures Lawful(WORDS, Feed)
  {
    forall x, y, z ensures Xor(Xor(x, y), z) == Xor(x, Xor(y, z)) {
      XorAssociates(x, y, z);
    }
    forall x ensures Xor(x, 0) == x {
      XorZero(x);
    }
    forall x, v, b | Fits(v) ensures Xor(Feed(x, b), v) == Feed(Xor(x, ShiftByte(v)), b) {
      FeedAbsorbs(x, v, b);
    }
    forall x, y, a, b | Feed(x, a) == Feed(y, b) ensures Xor(x, Word(a)) == Xor(y, Word(b)) {
      FeedInjective(x, y, a, b);
    }
  }

  lemma PackOne(v: bv32, b: bv8)
    requires Fits(v)
    ensures ((v << 8) ^ (b as bv32)) & 0xFF == b as bv32 && ((v << 8) ^ (b as bv32)) >> 8 == v
  {
  }

  lemma PackGrows(v: bv32, b: bv8)
    ensures v == 0 ==> ((v << 8) ^ (b as bv32)) & 0xFFFF_FF00 == 0
    ensures v & 0xFFFF_FF00 == 0 ==> ((v << 8) ^ (b as bv32)) & 0xFFFF_0000 == 0
    ensures v & 0xFFFF_0000 == 0 ==> ((v << 8) ^ (b as bv32)) & 0xFF00_0000 == 0
  {
  }

  lemma PackOneByte(buf: Bytes)
    requires |buf| <= 1
    ensures Pack(WORDS, buf) & 0xFFFF_FF00 == 0
  {
    if |buf| == 1 { PackGrows(0, buf[0]); }
  }

  lemma PackTwoBytes(buf: Bytes)
    requires |buf| <= 2
    ensures Pack(WORDS, buf) & 0xFFFF_0000 == 0
  {
    if |buf| > 0 {
      PackOneByte(buf[1..]);
      PackGrows(Pack(WORDS, buf[1..]), buf[0]);
    }
  }

  /** Three bytes leave the highest place of a word free. */
  lemma PackFits(buf: Bytes)
    requires |buf| <= 3
    ensures Fits(Pack(WORDS, buf))
  {
    if |buf| > 0 {
      PackTwoBytes(buf[1..]);
      PackGrows(Pack(WORDS, buf[1..]), buf[0]);
    }
  }

  lemma PackHead(buf: Bytes)
    requires 0 < |buf| <= 4
    ensures Pack(WORDS, buf) & 0xFF == Word(buf[0]) && Pack(WORDS, buf) >> 8 == Pack(WORDS, buf[1..])
  {
    PackFits(buf[1..]);
    PackOne(Pack(WORDS, buf[1..]), buf[0]);
  }

  lemma WordInjective(a: bv8, b: bv8)
    requires Word(a) == Word(b)
    ensures a == b
  {
  }

  /** Up to four bytes can be told from the word they make. */
  lemma {:induction false} PackInjective(a: Bytes, b: Bytes)
    requires |a| == |b| <= 4
    requires Pack(WORDS, a) == Pack(WORDS, b)
    ensures a == b
    decreases |a|
  {
    if a == [] {
    } else {
      PackHead(a);
      PackHead(b);
      WordInjective(a[0], b[0]);
      PackInjective(a[1..], b[1..]);
      assert a == [a[0]] + a[1..];
      assert b == [b[0]] + b[1..];
    }
  }

  lemma XorCancels(x: bv32, v: bv32, w: bv32)
    requires Xor(x, v) == Xor(x, w)
    ensures v == w
  {
    assert x ^ (x ^ v) == v;
    assert x ^ (x ^ w) == w;
  }

  /** From one state, two different windows of up to four bytes lead to different states. */
  lemma WindowDetected(x: bv32, a: Bytes, b: Bytes)
    requires |a| == |b| <= 4
    ensures Fold(Feed, x, a) == Fold(Feed, x, b) <==> a == b
  {
    if Fold(Feed, x, a) == Fold(Feed, x, b) {
      WordsAreLawful();
      forall c {:trigger Pack(WORDS, c)} | |c| < |a| ensures Fits(Pack(WORDS, c)) {
        PackFits(c);
      }
      WindowDifference(WORDS, Feed, x, x, a, b);
      XorCancels(x, Pack(WORDS, a), Pack(WORDS, b));
      PackInjective(a, b);
    }
  }

  /** Whatever follows the window, the states stay apart. */
  lemma RestKeepsApart(x: bv32, y: bv32, rest: Bytes)
    requires Fold(Feed, x, rest) == Fold(Feed, y, rest)
    ensures x == y
  {
    forall s, t, b {:trigger Feed(s, b), Feed(t, b)} | Feed(s, b) == Feed(t, b) ensures s == t {
      FeedInjective(s, t, b, b);
      XorSame(s, t, Word(b));
    }
    FoldInjective(Feed, x, y, rest);
  }

  lemma XorSame(x: bv32, y: bv32, v: bv32)
    requires Xor(x, v) == Xor(y, v)
    ensures x == y
  {
    assert (x ^ v) ^ v == x;
    assert (y ^ v) ^ v == y;
  }

  lemma SameCrc(a: Bytes, b: Bytes)
    requires Crc(a) == Crc(b)
    ensures Fold(Feed, INITIAL, a) == Fold(Feed, INITIAL, b)
  {
    ComplementInjective(Fold(Feed, INITIAL, a), Fold(Feed, INITIAL, b));
  }

  lemma ComplementInjective(x: bv32, y: bv32)
    requires Complement(x) == Complement(y)
    ensures x == y
  {
    assert !(!x) == x;
    assert !(!y) == y;
  }

  lemma FoldThrough(x: bv32, head: Bytes, a: Bytes, rest: Bytes)
    ensures Fold(Feed, x, head + a + rest) == Fold(Feed, Fold(Feed, Fold(Feed, x, head), a), rest)
  {
    FoldConcat(Feed, x, head + a, rest);
    FoldConcat(Feed, x, head, a);
  }

  lemma BurstSplits(x: bv32, head: Bytes, a: Bytes, b: Bytes, rest: Bytes)
    requires |a| == |b| <= 4
    ensures Fold(Feed, x, head + a + rest) == Fold(Feed, x, head + b + rest) <==> a == b
  {
    FoldThrough(x, head, a, rest);
    FoldThrough(x, head, b, rest);
    var y := Fold(Feed, x, head);
    if Fold(Feed, x, head + a + rest) == Fold(Feed, x, head + b + rest) {
      RestKeepsApart(Fold(Feed, y, a), Fold(Feed, y, b), rest);
    }
    WindowDetected(y, a, b);
  }

  /** Nothing that happens within four consecutive bytes goes unnoticed, however long the rest. */
  lemma BurstDetected(head: Bytes, a: Bytes, b: Bytes, rest: Bytes)
    requires |a| == |b| <= 4
    ensures Crc(head + a + rest) == Crc(head + b + rest) <==> a == b
  {
    if Crc(head + a + rest) == Crc(head + b + rest) {
      SameCrc(head + a + rest, head + b + rest);
      BurstSplits(INITIAL, head, a, b, rest);
    }
  }

  // ---- which checksum it is ----

  /** The four bytes of a word, the lowest first. */
  function LowFirst(x: bv32): Bytes {
    [(x & 0xFF) as bv8, ((x >> 8) & 0xFF) as bv8, ((x >> 16) & 0xFF) as bv8, (x >> 24) as bv8]
  }

  function Zeros(n: nat): (bytes: Bytes)
    ensures |bytes| == n
  {
    seq(n, _ => 0)
  }

  lemma FeedZero(x: bv32, b: bv8)
    ensures Feed(x, b) == Feed(Xor(x, Word(b)), 0)
  {
    XorZero(Xor(x, Word(b)));
  }

  /** Up to four bytes may as well be put into the state before. */
  lemma {:induction false} FoldPacked(x: bv32, a: Bytes)
    requires |a| <= 4
    ensures Fold(Feed, x, a) == Fold(Feed, Xor(x, Pack(WORDS, a)), Zeros(|a|))
    decreases |a|
  {
    if a == [] {
      XorZero(x);
    } else {
      var v, b := Pack(WORDS, a[1..]), a[0];
      PackFits(a[1..]);
      FoldPacked(Feed(x, b), a[1..]);
      FeedAbsorbs(x, v, b);
      FeedZero(Xor(x, ShiftByte(v)), b);
      XorAssociates(x, ShiftByte(v), Word(b));
      assert Zeros(|a|)[1..] == Zeros(|a| - 1);
    }
  }

  lemma FourBytes(a: bv8, b: bv8, c: bv8, d: bv8)
    ensures Xor(ShiftByte(Xor(ShiftByte(Xor(ShiftByte(Xor(ShiftByte(0), Word(d))), Word(c))), Word(b))), Word(a)) ==
            (((d as bv32) << 24) ^ ((c as bv32) << 16) ^ ((b as bv32) << 8) ^ (a as bv32))
  {
  }

  lemma Places(x: bv32)
    ensures ((((x >> 24) as bv8) as bv32) << 24) ^ (((((x >> 16) & 0xFF) as bv8) as bv32) << 16)
            ^ (((((x >> 8) & 0xFF) as bv8) as bv32) << 8) ^ (((x & 0xFF) as bv8) as bv32) == x
  {
  }

  lemma PackMore(b: bv8, rest: Bytes)
    ensures Pack(WORDS, [b] + rest) == Xor(ShiftByte(Pack(WORDS, rest)), Word(b))
  {
    assert ([b] + rest)[1..] == rest;
  }

  lemma PackLowFirst(x: bv32)
    ensures Pack(WORDS, LowFirst(x)) == x
  {
    var a := LowFirst(x);
    PackMore(a[3], []);
    PackMore(a[2], [a[3]]);
    PackMore(a[1], [a[2]] + [a[3]]);
    PackMore(a[0], [a[1]] + ([a[2]] + [a[3]]));
    assert [a[3]] + [] == [a[3]] && a == [a[0]] + ([a[1]] + ([a[2]] + [a[3]]));
    FourBytes(a[0], a[1], a[2], a[3]);
    Places(x);
  }

  lemma EightStepsTo(states: seq<bv32>)
    requires |states| == 9 && forall i {:trigger states[i]} | 0 < i < 9 :: Step(states[i - 1]) == states[i]
    ensures Iterate(Step, states[0], 8) == states[8]
  {
    StepsTo(states, 0);
  }

  lemma {:induction false} StepsTo(states: seq<bv32>, i: nat)
    requires i < |states| && forall i {:trigger states[i]} | 0 < i < |states| :: Step(states[i - 1]) == states[i]
    ensures Iterate(Step, states[i], |states| - 1 - i) == states[|states| - 1]
    decreases |states| - i
  {
    if i == |states| - 1 {
    } else {
      assert Step(states[i]) == states[i + 1];
      StepsTo(states, i + 1);
    }
  }

  lemma FirstZeros()
    ensures Feed(0xFFFFFFFF, 0) == 0x2DFD1072
  {
    XorZero(0xFFFFFFFF);
    assert Step(0xFFFFFFFF) == 0x92477CDF && Step(0x92477CDF) == 0xA49B3D4F;
    assert Step(0xA49B3D4F) == 0xBFF51D87 && Step(0xBFF51D87) == 0xB2420DE3;
    assert Step(0xB2420DE3) == 0xB49985D1 && Step(0xB49985D1) == 0xB7F441C8;
    assert Step(0xB7F441C8) == 0x5BFA20E4 && Step(0x5BFA20E4) == 0x2DFD1072;
    EightStepsTo([0xFFFFFFFF, 0x92477CDF, 0xA49B3D4F, 0xBFF51D87, 0xB2420DE3,
                  0xB49985D1, 0xB7F441C8, 0x5BFA20E4, 0x2DFD1072]);
  }

  lemma SecondZeros()
    ensures Feed(0x2DFD1072, 0) == 0xBE26ED00
  {
    XorZero(0x2DFD1072);
    assert Step(0x2DFD1072) == 0x16FE8839 && Step(0x16FE8839) == 0xE6C7C73C;
    assert Step(0xE6C7C73C) == 0x7363E39E && Step(0x7363E39E) == 0x39B1F1CF;
    assert Step(0x39B1F1CF) == 0xF1607BC7 && Step(0xF1607BC7) == 0x9508BEC3;
    assert Step(0x9508BEC3) == 0xA73CDC41 && Step(0xA73CDC41) == 0xBE26ED00;
    EightStepsTo([0x2DFD1072, 0x16FE8839, 0xE6C7C73C, 0x7363E39E, 0x39B1F1CF,
                  0xF1607BC7, 0x9508BEC3, 0xA73CDC41, 0xBE26ED00]);
  }

  lemma ThirdZeros()
    ensures Feed(0xBE26ED00, 0) == 0x00BE26ED
  {
    XorZero(0xBE26ED00);
    assert Step(0xBE26ED00) == 0x5F137680 && Step(0x5F137680) == 0x2F89BB40;
    assert Step(0x2F89BB40) == 0x17C4DDA0 && Step(0x17C4DDA0) == 0x0BE26ED0;
    assert Step(0x0BE26ED0) == 0x05F13768 && Step(0x05F13768) == 0x02F89BB4;
    assert Step(0x02F89BB4) == 0x017C4DDA && Step(0x017C4DDA) == 0x00BE26ED;
    EightStepsTo([0xBE26ED00, 0x5F137680, 0x2F89BB40, 0x17C4DDA0, 0x0BE26ED0,
                  0x05F13768, 0x02F89BB4, 0x017C4DDA, 0x00BE26ED]);
  }

  lemma FourthZeros()
    ensures Feed(0x00BE26ED, 0) == 0xDEBB20E3
  {
    XorZero(0x00BE26ED);
    assert Step(0x00BE26ED) == 0xEDE79056 && Step(0xEDE79056) == 0x76F3C82B;
    assert Step(0x76F3C82B) == 0xD6C16735 && Step(0xD6C16735) == 0x86D830BA;
    assert Step(0x86D830BA) == 0x436C185D && Step(0x436C185D) == 0xCC0E8F0E;
    assert Step(0xCC0E8F0E) == 0x66074787 && Step(0x66074787) == 0xDEBB20E3;
    EightStepsTo([0x00BE26ED, 0xEDE79056, 0x76F3C82B, 0xD6C16735, 0x86D830BA,
                  0x436C185D, 0xCC0E8F0E, 0x66074787, 0xDEBB20E3]);
  }

  lemma FourZeros()
    ensures Fold(Feed, INITIAL, Zeros(4)) == 0xDEBB20E3
  {
    var z := Zeros(4);
    assert z == [0, 0, 0, 0] && z[1..] == [0, 0, 0] && z[1..][1..] == [0, 0] && z[1..][1..][1..] == [0];
    assert z[1..][1..][1..][1..] == [];
    FirstZeros();
    SecondZeros();
    ThirdZeros();
    FourthZeros();
  }

  lemma XorComplement(x: bv32)
    ensures Xor(x, Complement(x)) == INITIAL
  {
  }

  /** A buffer followed by its own checksum, the lowest byte first, always has the checksum that marks CRC-32. */
  lemma Residue(buf: Bytes)
    ensures Crc(buf + LowFirst(Crc(buf))) == 0x2144DF1C
  {
    var x := Fold(Feed, INITIAL, buf);
    var own := LowFirst(Crc(buf));
    FoldConcat(Feed, INITIAL, buf, own);
    FoldPacked(x, own);
    PackLowFirst(Crc(buf));
    XorComplement(x);
    FourZeros();
  }

  lemma NothingIsZero()
    ensures Crc([]) == 0
  {
  }
}
