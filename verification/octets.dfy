/** Numbers as bytes. */
module Octets {
  /** A byte read as a `char`. */
  function Signed(b: bv8): int {
    if b as int < 128 then b as int else b as int - 256
  }

  lemma ByteValue(n: int)
    requires 0 <= n < 256
    ensures (n as bv8) as int == n
  {
  }

  /** The low byte of an `int`. */
  function LowByte(x: int): (b: bv8)
    ensures b as int == x % 256
  {
    ByteValue(x % 256);
    (x % 256) as bv8
  }

  lemma SignedByte(x: int)
    requires -128 <= x < 128
    ensures Signed(LowByte(x)) == x
  {
  }

  function Big16(x: int): seq<bv8> {
    [LowByte(x / 256), LowByte(x)]
  }

  lemma Big16Value(x: int)
    requires 0 <= x < 65536
    ensures |Big16(x)| == 2 && Big16(x)[0] as int * 256 + Big16(x)[1] as int == x
  {
  }

  function SignedBig16(hi: bv8, lo: bv8): int {
    Signed(hi) * 256 + lo as int
  }

  lemma Big16RoundTrip(x: int)
    requires -0x8000 <= x < 0x8000
    ensures SignedBig16(Big16(x)[0], Big16(x)[1]) == x
  {
    SignedByte(x / 256);
  }
}
