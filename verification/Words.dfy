/** Machine words shared by the model: bytes, the 32-bit counter range and chip RAM geometry. */
module Words {
  type Byte = b: int | 0 <= b < 256
  /** A 16-bit word as the set of its one bits. */
  type Word = w: set<nat> | forall i :: i in w ==> i < 16

  function Pow2(k: nat): (p: nat)
    ensures p > 0
  {
    if k == 0 then 1 else 2 * Pow2(k - 1)
  }

  function NumberBelow(w: Word, k: nat): (n: nat)
    ensures n < Pow2(k)
  {
    if k == 0 then 0 else NumberBelow(w, k - 1) + if k - 1 in w then Pow2(k - 1) else 0
  }

  /** The unsigned value of a word. */
  function Number(w: Word): (n: nat)
    ensures n < 0x1_0000
  {
    assert Pow2(4) == 16 && Pow2(8) == 256 && Pow2(12) == 4096 && Pow2(16) == 0x1_0000;
    NumberBelow(w, 16)
  }

  const U16: nat := 0x1_0000
  const U24: nat := 0x100_0000
  const U32: nat := 0x1_0000_0000
  const U64: nat := 0x1_0000_0000_0000_0000

  /** Chip RAM is 2 MiB, cached in 8192 pages of 256 bytes. */
  const PAGE_SIZE: nat := 256
  const PAGE_COUNT: nat := 8192
  const CHIP_LIMIT: nat := 0x20_0000

  function PageOf(address: nat): nat {
    address / PAGE_SIZE
  }

  datatype Option<+T> = None | Some(value: T)
}
