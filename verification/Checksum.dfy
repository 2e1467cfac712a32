/** The Kickstart ROM checksum: a 32-bit sum of big-endian longwords with end-around carry. */
module Checksum {
  import opened Words

  const ONES: nat := 0xFFFF_FFFF

  function Longword(b0: Byte, b1: Byte, b2: Byte, b3: Byte): (v: nat)
    ensures v < U32
  {
    b0 * 0x100_0000 + b1 * 0x1_0000 + b2 * 0x100 + b3
  }

  function ByteOf(v: nat, i: nat): Byte
    requires v < U32 && i < 4
  {
    if i == 0 then v / 0x100_0000 else if i == 1 then v / 0x1_0000 % 0x100
    else if i == 2 then v / 0x100 % 0x100 else v % 0x100
  }

  lemma LongwordOfBytes(v: nat)
    requires v < U32
    ensures Longword(ByteOf(v, 0), ByteOf(v, 1), ByteOf(v, 2), ByteOf(v, 3)) == v
  {
    var h1, h2 := v / 0x100, v / 0x1_0000;
    assert v == h1 * 0x100 + v % 0x100;
    assert h2 == h1 / 0x100 && h1 == h2 * 0x100 + h1 % 0x100;
    assert v / 0x100_0000 == h2 / 0x100 && h2 == h2 / 0x100 * 0x100 + h2 % 0x100;
  }

  lemma BytesOfLongword(b0: Byte, b1: Byte, b2: Byte, b3: Byte)
    ensures var v := Longword(b0, b1, b2, b3);
            ByteOf(v, 0) == b0 && ByteOf(v, 1) == b1 && ByteOf(v, 2) == b2 && ByteOf(v, 3) == b3
  {
    var v := Longword(b0, b1, b2, b3);
    assert v / 0x100 == b0 * 0x1_0000 + b1 * 0x100 + b2;
    assert v / 0x1_0000 == b0 * 0x100 + b1;
    assert v / 0x100_0000 == b0;
  }

  ghost predicate Image(mem: seq<Byte>) {
    |mem| % 4 == 0
  }

  function At(mem: seq<Byte>, i: nat): (v: nat)
    requires i + 4 <= |mem|
    ensures v < U32
  {
    Longword(mem[i], mem[i + 1], mem[i + 2], mem[i + 3])
  }

  /** Longwords are read and stored with their most significant byte first. */
  lemma BigEndian(mem: seq<Byte>, at: nat, v: nat)
    requires at + 4 <= |mem| && v < U32
    ensures At(mem, at) ==
            0x100_0000 * (mem[at] as int) + 0x1_0000 * (mem[at + 1] as int) + 0x100 * (mem[at + 2] as int) + mem[at + 3]
    ensures var s := Stored(mem, at, v);
            && v == 0x100_0000 * (s[at] as int) + 0x1_0000 * (s[at + 1] as int) + 0x100 * (s[at + 2] as int) + s[at + 3]
            && forall i :: 0 <= i < |mem| && (i < at || i >= at + 4) ==> s[i] == mem[i]
  {
    LongwordOfBytes(v);
  }

  // ---------------------------------------------------------------- end-around carry

  /** Add with the carry out of bit 31 brought back in. */
  function AddCarry(sum: nat, v: nat): (r: nat)
    requires sum < U32 && v < U32
    ensures r < U32
  {
    if sum + v < U32 then sum + v else (sum + v - U32 + 1) % U32
  }

  /** The representative of a sum modulo 2^32 - 1: zero only for a zero sum. */
  function Canonical(total: nat): (r: nat)
    ensures r < U32
  {
    if total == 0 then 0 else (total - 1) % ONES + 1
  }

  lemma CanonicalStep(total: nat, v: nat)
    requires v < U32
    ensures AddCarry(Canonical(total), v) == Canonical(total + v)
  {
    if total > 0 {
      var r := (total - 1) % ONES + 1;
      assert (total - 1 + v) % ONES == (r - 1 + v) % ONES;
      if r + v < U32 {
        assert r - 1 + v < ONES || r - 1 + v == ONES;
      }
    }
  }

  // ---------------------------------------------------------------- sums over an image

  /** The longword the sum takes at offset i: the checksum slot counts as zero on update. */
  function Term(mem: seq<Byte>, i: nat, skip: Option<nat>): (v: nat)
    requires i + 4 <= |mem|
    ensures v < U32
  {
    if skip == Some(i) then 0 else At(mem, i)
  }

  /** The plain, unbounded sum of the first n bytes' longwords. */
  function Total(mem: seq<Byte>, n: nat, skip: Option<nat>): nat
    requires n <= |mem| && n % 4 == 0
  {
    if n == 0 then 0 else Total(mem, n - 4, skip) + Term(mem, n - 4, skip)
  }

  /** The end-around-carry sum in memory order. */
  function CarrySum(mem: seq<Byte>, n: nat, skip: Option<nat>): (r: nat)
    requires n <= |mem| && n % 4 == 0
    ensures r < U32
  {
    if n == 0 then 0 else AddCarry(CarrySum(mem, n - 4, skip), Term(mem, n - 4, skip))
  }

  lemma {:induction false} CarrySumIsCanonical(mem: seq<Byte>, n: nat, skip: Option<nat>)
    requires n <= |mem| && n % 4 == 0
    ensures CarrySum(mem, n, skip) == Canonical(Total(mem, n, skip))
  {
    if n > 0 {
      var m, v := n - 4, Term(mem, n - 4, skip);
      CarrySumIsCanonical(mem, m, skip);
      CanonicalStep(Total(mem, m, skip), v);
      assert CarrySum(mem, n, skip) == AddCarry(CarrySum(mem, m, skip), v);
      assert Total(mem, n, skip) == Total(mem, m, skip) + v;
    }
  }

  function Stored(mem: seq<Byte>, at: nat, v: nat): (r: seq<Byte>)
    requires at + 4 <= |mem| && v < U32
    ensures |r| == |mem|
  {
    mem[at := ByteOf(v, 0)][at + 1 := ByteOf(v, 1)][at + 2 := ByteOf(v, 2)][at + 3 := ByteOf(v, 3)]
  }

  /** next differs from mem in the longword at one offset. */
  ghost predicate Replaced(mem: seq<Byte>, next: seq<Byte>, at: nat, v: nat) {
    && |next| == |mem| && at % 4 == 0 && at + 4 <= |mem|
    && forall i :: 0 <= i && i + 4 <= |mem| && i % 4 == 0 ==> At(next, i) == if i == at then v else At(mem, i)
  }

  lemma StoredReplaces(mem: seq<Byte>, at: nat, v: nat)
    requires at + 4 <= |mem| && v < U32 && at % 4 == 0
    ensures Replaced(mem, Stored(mem, at, v), at, v)
  {
    LongwordOfBytes(v);
    var next := Stored(mem, at, v);
    forall i | 0 <= i && i + 4 <= |mem| && i % 4 == 0
      ensures At(next, i) == if i == at then v else At(mem, i)
    {
      if i != at {
        AlignedApart(at, i);
        assert next[i..i + 4] == mem[i..i + 4];
        SameBytes(mem, next, i);
      }
    }
  }

  lemma AlignedApart(a: nat, b: nat)
    requires a % 4 == 0 && b % 4 == 0 && a != b
    ensures a + 4 <= b || b + 4 <= a
  {
  }

  lemma SameBytes(mem: seq<Byte>, next: seq<Byte>, i: nat)
    requires i + 4 <= |mem| == |next| && next[i..i + 4] == mem[i..i + 4]
    ensures At(next, i) == At(mem, i)
  {
    var a, b := mem[i..i + 4], next[i..i + 4];
    assert a[0] == b[0] && a[1] == b[1] && a[2] == b[2] && a[3] == b[3];
  }

  lemma StoredSame(mem: seq<Byte>, at: nat)
    requires at + 4 <= |mem|
    ensures Stored(mem, at, At(mem, at)) == mem
  {
    BytesOfLongword(mem[at], mem[at + 1], mem[at + 2], mem[at + 3]);
  }

  /** The stored word takes the place of the zero the sum assumed. */
  lemma {:induction false} TotalAfterStore(mem: seq<Byte>, next: seq<Byte>, at: nat, v: nat, n: nat)
    requires Replaced(mem, next, at, v) && n <= |mem| && n % 4 == 0
    ensures Total(next, n, None) == Total(mem, n, Some(at)) + if at < n then v else 0
    ensures Total(next, n, Some(at)) == Total(mem, n, Some(at))
  {
    if n > 0 {
      TotalAfterStore(mem, next, at, v, n - 4);
      TermsAfterStore(mem, next, at, v, n - 4);
      AlignedOrder(at, n - 4);
    }
  }

  lemma TermsAfterStore(mem: seq<Byte>, next: seq<Byte>, at: nat, v: nat, i: nat)
    requires Replaced(mem, next, at, v) && i + 4 <= |mem| && i % 4 == 0
    ensures Term(next, i, None) == Term(mem, i, Some(at)) + if i == at then v else 0
    ensures Term(next, i, Some(at)) == Term(mem, i, Some(at))
  {
    assert At(next, i) == if i == at then v else At(mem, i);
  }

  lemma AlignedOrder(at: nat, i: nat)
    requires at % 4 == 0 && i % 4 == 0
    ensures at < i + 4 <==> at < i || at == i
  {
  }

  function Complement(sum: nat): (c: nat)
    requires sum < U32
    ensures c < U32
  {
    ONES - sum
  }

  /** The word an update stores. */
  function Expected(mem: seq<Byte>, at: nat): (c: nat)
    requires Image(mem)
    ensures c < U32
  {
    Complement(CarrySum(mem, |mem|, Some(at)))
  }

  lemma ReplacedSum(mem: seq<Byte>, next: seq<Byte>, at: nat, v: nat)
    requires Image(mem) && Replaced(mem, next, at, v) && v < U32
    ensures CarrySum(next, |mem|, None) == AddCarry(CarrySum(mem, |mem|, Some(at)), v)
    ensures CarrySum(next, |mem|, Some(at)) == CarrySum(mem, |mem|, Some(at))
  {
    CarrySumIsCanonical(mem, |mem|, Some(at));
    CarrySumIsCanonical(next, |mem|, Some(at));
    CarrySumIsCanonical(next, |mem|, None);
    TotalAfterStore(mem, next, at, v, |mem|);
    CanonicalStep(Total(mem, |mem|, Some(at)), v);
  }

  /** With the expected word in place the sum of all longwords, taken in memory order and
      including that word, is all ones. */
  lemma UpdatedSumIsAllOnes(mem: seq<Byte>, at: nat)
    requires Image(mem) && at + 4 <= |mem| && at % 4 == 0
    ensures CarrySum(Stored(mem, at, Expected(mem, at)), |mem|, None) == ONES
  {
    var c := Expected(mem, at);
    StoredReplaces(mem, at, c);
    ReplacedSum(mem, Stored(mem, at, c), at, c);
  }

  /** And a second update expects the same word. */
  lemma UpdateIsStable(mem: seq<Byte>, at: nat)
    requires Image(mem) && at + 4 <= |mem| && at % 4 == 0
    ensures var next := Stored(mem, at, Expected(mem, at));
            Image(next) && At(next, at) == Expected(next, at) == Expected(mem, at)
  {
    var c := Expected(mem, at);
    StoredReplaces(mem, at, c);
    ReplacedSum(mem, Stored(mem, at, c), at, c);
  }

  lemma AllOnesIff(sum: nat, v: nat)
    requires sum < U32 && v < U32
    ensures AddCarry(sum, v) == ONES <==> v == Complement(sum) || (v == ONES && sum == ONES)
  {
  }

  /** The word already stored is the expected one exactly when the whole sum is all ones, but
      for the one family that end-around carry cannot tell apart: all ones in the slot over a
      rest that sums to all ones. */
  lemma ValidIff(mem: seq<Byte>, at: nat)
    requires Image(mem) && at + 4 <= |mem| && at % 4 == 0
    ensures CarrySum(mem, |mem|, None) == ONES <==>
            At(mem, at) == Expected(mem, at)
            || (At(mem, at) == ONES && CarrySum(mem, |mem|, Some(at)) == ONES)
  {
    var v := At(mem, at);
    StoredSame(mem, at);
    StoredReplaces(mem, at, v);
    ReplacedSum(mem, mem, at, v);
    AllOnesIff(CarrySum(mem, |mem|, Some(at)), v);
  }

  method AddLongword(prev: nat, val: nat) returns (sum: nat)
    requires prev < U32 && val < U32
    ensures sum == AddCarry(prev, val)
  {
    sum := (prev + val) % U32;
    if sum < prev {
      sum := (sum + 1) % U32;
    }
  }

  /** The loop reads whole longwords, past a size that is not a multiple of four. */
  function ReadEnd(size: nat): (end: nat)
    ensures end % 4 == 0 && size <= end < size + 4
  {
    (size + 3) / 4 * 4
  }

  /** The offset is one the loop visits. */
  predicate InSlot(at: nat, end: nat) {
    at % 4 == 0 && at < end
  }

  /** What the loop finds in the checksum slot; nothing if it never meets the offset. */
  function Found(image: seq<Byte>, at: nat): (v: nat)
    requires Image(image)
    ensures v < U32
  {
    if InSlot(at, |image|) then At(image, at) else 0
  }

  function FoundBelow(image: seq<Byte>, at: nat, i: nat): nat
    requires Image(image)
  {
    if InSlot(at, |image|) && at < i then At(image, at) else 0
  }

  lemma FoundStep(image: seq<Byte>, at: nat, i: nat)
    requires Image(image) && i + 4 <= |image| && i % 4 == 0
    ensures FoundBelow(image, at, i + 4) == if i == at then At(image, i) else FoundBelow(image, at, i)
  {
    if at % 4 == 0 {
      AlignedOrder(at, i);
    }
  }

  /** The loop: the carry sum, and the word found in the checksum slot. */
  method SumLongwords(mem: array<Byte>, size: nat, at: nat, update: bool) returns (sum: nat, oldSum: nat)
    requires ReadEnd(size) <= mem.Length
    ensures sum == CarrySum(mem[..ReadEnd(size)], ReadEnd(size), if update then Some(at) else None)
    ensures update ==> oldSum == Found(mem[..ReadEnd(size)], at)
  {
    var end := ReadEnd(size);
    ghost var image, skip := mem[..end], if update then Some(at) else None;
    var i := 0;
    sum, oldSum := 0, 0;
    while i < size
      invariant i <= end && i % 4 == 0 && (i < end ==> i < size)
      invariant sum == CarrySum(image, i, skip)
      invariant update ==> oldSum == FoundBelow(image, at, i)
    {
      NextLongword(i, end, at);
      FoundStep(image, at, i);
      var val := ReadLongword(mem, end, i);
      if update && i == at {
        oldSum, val := val, 0;
      }
      CarryStep(image, i, skip);
      sum := AddLongword(sum, val);
      LastLongword(i, size);
      i := i + 4;
    }
  }

  lemma NextLongword(i: nat, end: nat, at: nat)
    requires i < end && i % 4 == 0 && end % 4 == 0
    ensures i + 4 <= end && (i + 4) % 4 == 0
    ensures at % 4 == 0 && at < i + 4 ==> at <= i
  {
  }

  lemma LastLongword(i: nat, size: nat)
    requires i < size && i % 4 == 0
    ensures i + 4 <= ReadEnd(size) && (i + 4 < ReadEnd(size) ==> i + 4 < size)
  {
  }

  lemma CarryStep(image: seq<Byte>, i: nat, skip: Option<nat>)
    requires i + 4 <= |image| && i % 4 == 0 && (i + 4) % 4 == 0
    ensures CarrySum(image, i + 4, skip) == AddCarry(CarrySum(image, i, skip), Term(image, i, skip))
  {
  }

  method ReadLongword(mem: array<Byte>, end: nat, i: nat) returns (val: nat)
    requires i + 4 <= end <= mem.Length
    ensures val == At(mem[..end], i)
  {
    val := Longword(mem[i], mem[i + 1], mem[i + 2], mem[i + 3]);
  }

  method StoreLongword(mem: array<Byte>, at: nat, v: nat)
    requires at + 4 <= mem.Length && v < U32
    modifies mem
    ensures mem[..] == Stored(old(mem[..]), at, v)
  {
    mem[at], mem[at + 1], mem[at + 2], mem[at + 3] := ByteOf(v, 0), ByteOf(v, 1), ByteOf(v, 2), ByteOf(v, 3);
  }

  lemma StoredInImage(mem: seq<Byte>, end: nat, at: nat, v: nat)
    requires at + 4 <= end <= |mem| && v < U32
    ensures Stored(mem, at, v)[..end] == Stored(mem[..end], at, v)
  {
  }

  /** amiga_checksum over any size and offset: the memory it touches has to be there. */
  method AmigaChecksum(mem: array<Byte>, size: nat, at: nat, update: bool) returns (changed: bool)
    requires ReadEnd(size) <= mem.Length && (update ==> at + 4 <= mem.Length)
    modifies mem
    ensures var image := old(mem[..ReadEnd(size)]);
            changed <==> update && Found(image, at) != Expected(image, at)
    ensures var image := old(mem[..ReadEnd(size)]);
            mem[..] == if changed then Stored(old(mem[..]), at, Expected(image, at)) else old(mem[..])
    ensures var image := old(mem[..ReadEnd(size)]);
            update && InSlot(at, ReadEnd(size)) ==> mem[..ReadEnd(size)] == Stored(image, at, Expected(image, at))
  {
    var end := ReadEnd(size);
    ghost var before, image := mem[..], mem[..end];
    assert image == before[..end];
    var sum, oldSum := SumLongwords(mem, size, at, update);
    sum := ONES - sum;
    changed := update && sum != oldSum;
    if changed {
      StoreLongword(mem, at, sum);
      if InSlot(at, end) {
        StoredInImage(before, end, at, sum);
        assert mem[..end] == mem[..][..end];
      }
    } else if InSlot(at, end) {
      StoredSame(image, at);
    }
  }
}
