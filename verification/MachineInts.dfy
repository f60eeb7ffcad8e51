/** Machine integers of the source: unsigned words and the signed reading of 32 bits. */
module MachineInts {
  const TWO31: int := 0x8000_0000
  const TWO32: int := 0x1_0000_0000
  const TWO64: int := 0x1_0000_0000_0000_0000

  type Word = x: nat | x < 0x1_0000_0000

  function U8(x: int): nat { x % 256 }

  function U32(x: int): Word { x % TWO32 }

  function ToInt32(x: int): int {
    if x % TWO32 < TWO31 then x % TWO32 else x % TWO32 - TWO32
  }

  lemma SmallWord(x: int)
    requires 0 <= x < TWO31
    ensures U32(x) == x && ToInt32(x) == x
  {
  }
}
