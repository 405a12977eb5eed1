/** Go's bytes and fixed-width integers, where their wrap-around is observable. */
module MachineInts {

  type byte = b: int | 0 <= b < 256
  type Bytes = seq<byte>
  type int32 = x: int | -0x8000_0000 <= x < 0x8000_0000
  type int64 = x: int | -0x8000_0000_0000_0000 <= x < 0x8000_0000_0000_0000

  const TWO_31: int := 0x8000_0000
  const TWO_32: int := 0x1_0000_0000
  const TWO_63: int := 0x8000_0000_0000_0000
  const TWO_64: int := 0x1_0000_0000_0000_0000

  /** The int32 that the mathematical integer x is stored as. */
  function Wrap32(x: int): int32 {
    (x + TWO_31) % TWO_32 - TWO_31
  }

  /** The int (64 bits) that the mathematical integer x is stored as. */
  function Wrap64(x: int): int {
    (x + TWO_63) % TWO_64 - TWO_63
  }

  /** Wrapping before or after an addition makes no difference. */
  lemma Wrap32Add(x: int, d: int)
    ensures Wrap32(Wrap32(x) + d) == Wrap32(x + d)
  {
    var k := (x + TWO_31) / TWO_32;
    assert Wrap32(x) == x - k * TWO_32;
    ModShift(x + d + TWO_31, k);
  }

  lemma ModShift(x: int, k: int)
    ensures (x - k * TWO_32) % TWO_32 == x % TWO_32
  {
    var q := x / TWO_32;
    assert x - k * TWO_32 == (q - k) * TWO_32 + x % TWO_32;
  }

  lemma Wrap32Fits(x: int)
    requires -TWO_31 <= x < TWO_31
    ensures Wrap32(x) == x
  {
  }
}
