/** A byte memory of 2^24 addresses, big-endian numbers in it, and the orderly bus log. */
module BusMemory {
  import opened Words
  import Registers
  import PageCache

  // ---------------------------------------------------------------- bytes of a number

  function BigEndian(v: nat, n: nat): (b: seq<Byte>)
    ensures |b| == n
    decreases n, v
  {
    if n == 0 then [] else BigEndian(v / 256, n - 1) + [v % 256]
  }

  function FromBytes(b: seq<Byte>): nat {
    if b == [] then 0 else FromBytes(b[..|b| - 1]) * 256 + b[|b| - 1]
  }

  /** v without its last n bytes, and x with n zero bytes behind it. */
  function Shifted(v: nat, n: nat): nat {
    if n == 0 then v else Shifted(v / 256, n - 1)
  }

  function Scaled(x: nat, n: nat): nat {
    if n == 0 then x else Scaled(x, n - 1) * 256
  }

  lemma {:induction false} BigEndianSplits(v: nat, m: nat, n: nat)
    ensures BigEndian(v, m + n) == BigEndian(Shifted(v, n), m) + BigEndian(v, n)
  {
    if n > 0 {
      BigEndianSplits(v / 256, m, n - 1);
      assert BigEndian(v, m + n) == BigEndian(v / 256, m + n - 1) + [v % 256];
    }
  }

  lemma {:induction false} FromBytesAppends(a: seq<Byte>, b: seq<Byte>)
    ensures FromBytes(a + b) == Scaled(FromBytes(a), |b|) + FromBytes(b)
    decreases |b|
  {
    if b == [] {
      assert a + b == a;
    } else {
      FromBytesAppends(a, b[..|b| - 1]);
      assert (a + b)[..|a + b| - 1] == a + b[..|b| - 1];
    }
  }

  /** The bytes of a number that fits give the number back. */
  lemma {:induction false} NumberRoundTrip(v: nat, n: nat)
    ensures FromBytes(BigEndian(v, n)) + Scaled(Shifted(v, n), n) == v
  {
    if n > 0 {
      NumberRoundTrip(v / 256, n - 1);
      var b := BigEndian(v, n);
      assert b[..n - 1] == BigEndian(v / 256, n - 1) && b[n - 1] == v % 256;
    }
  }

  /** And any n bytes are the bytes of their number. */
  lemma {:induction false} BytesRoundTrip(b: seq<Byte>)
    ensures BigEndian(FromBytes(b), |b|) == b
    decreases |b|
  {
    if b != [] {
      BytesRoundTrip(b[..|b| - 1]);
      assert FromBytes(b) / 256 == FromBytes(b[..|b| - 1]) && FromBytes(b) % 256 == b[|b| - 1];
    }
  }

  lemma Shifts(v: nat)
    ensures Shifted(v, 1) == v / 0x100 && Shifted(v, 2) == v / 0x1_0000
    ensures Shifted(v, 3) == v / 0x100_0000 && Shifted(v, 4) == v / U32
  {
    assert Shifted(v, 2) == Shifted(v / 256, 1) == v / 256 / 256;
    assert Shifted(v, 3) == Shifted(v / 256, 2) == Shifted(v / 256 / 256, 1);
    assert Shifted(v, 4) == Shifted(v / 256, 3) == Shifted(v / 256 / 256, 2) == Shifted(v / 256 / 256 / 256, 1);
  }

  lemma Scales(x: nat)
    ensures Scaled(x, 1) == x * 0x100 && Scaled(x, 2) == x * 0x1_0000
    ensures Scaled(x, 3) == x * 0x100_0000 && Scaled(x, 4) == x * U32
  {
    assert Scaled(x, 1) == Scaled(x, 0) * 256;
    assert Scaled(x, 2) == Scaled(x, 1) * 256;
    assert Scaled(x, 3) == Scaled(x, 2) * 256;
    assert Scaled(x, 4) == Scaled(x, 3) * 256;
  }

  lemma LastDigit(v: nat, n: nat)
    ensures BigEndian(v, n + 1) == BigEndian(v / 256, n) + [v % 256]
  {
  }

  lemma TwoDigits(v: nat)
    ensures BigEndian(v, 2) == [v / 256 % 256, v % 256]
  {
    LastDigit(v, 1);
    LastDigit(v / 256, 0);
  }

  /** The most significant byte comes first. */
  lemma BigEndianFour(v: nat)
    ensures BigEndian(v, 4) == [v / 0x100_0000 % 256, v / 0x1_0000 % 256, v / 256 % 256, v % 256]
  {
    var b := v / 256 / 256;
    LastDigit(v, 3);
    LastDigit(v / 256, 2);
    TwoDigits(b);
    FourDigits(v);
    assert [b / 256 % 256, b % 256] + [v / 256 % 256] + [v % 256]
           == [b / 256 % 256, b % 256, v / 256 % 256, v % 256];
  }

  lemma FourDigits(v: nat)
    ensures v / 256 / 256 == v / 0x1_0000 && v / 256 / 256 / 256 == v / 0x100_0000
  {
  }

  // ---------------------------------------------------------------- memory

  /** Consecutive bytes stored from an address on, addresses taken modulo 2^24. */
  function Poke(mem: seq<Byte>, address: nat, bytes: seq<Byte>): (r: seq<Byte>)
    requires |mem| == U24
    ensures |r| == U24
    decreases |bytes|
  {
    if bytes == [] then mem else Poke(mem[address % U24 := bytes[0]], address + 1, bytes[1..])
  }

  function PeekBytes(mem: seq<Byte>, address: nat, n: nat): (b: seq<Byte>)
    requires |mem| == U24
    ensures |b| == n
    decreases n, address
  {
    if n == 0 then [] else [mem[address % U24]] + PeekBytes(mem, address + 1, n - 1)
  }

  lemma {:induction false} PokeSplits(mem: seq<Byte>, address: nat, first: seq<Byte>, rest: seq<Byte>)
    requires |mem| == U24
    ensures Poke(mem, address, first + rest) == Poke(Poke(mem, address, first), address + |first|, rest)
    decreases |first|
  {
    if first == [] {
      assert first + rest == rest;
    } else {
      assert (first + rest)[1..] == first[1..] + rest;
      PokeSplits(mem[address % U24 := first[0]], address + 1, first[1..], rest);
    }
  }

  lemma {:induction false} PeekSplits(mem: seq<Byte>, address: nat, m: nat, n: nat)
    requires |mem| == U24
    ensures PeekBytes(mem, address, m + n) == PeekBytes(mem, address, m) + PeekBytes(mem, address + m, n)
    decreases m
  {
    if m > 0 {
      PeekSplits(mem, address + 1, m - 1, n);
    }
  }

  lemma {:induction false} PokeWraps(mem: seq<Byte>, a: nat, b: nat, bytes: seq<Byte>)
    requires |mem| == U24 && a % U24 == b % U24
    ensures Poke(mem, a, bytes) == Poke(mem, b, bytes)
    decreases |bytes|
  {
    if bytes != [] {
      SameNext(a, b);
      PokeWraps(mem[a % U24 := bytes[0]], a + 1, b + 1, bytes[1..]);
    }
  }

  lemma {:induction false} PeekWraps(mem: seq<Byte>, a: nat, b: nat, n: nat)
    requires |mem| == U24 && a % U24 == b % U24
    ensures PeekBytes(mem, a, n) == PeekBytes(mem, b, n)
    decreases n
  {
    if n > 0 {
      SameNext(a, b);
      PeekWraps(mem, a + 1, b + 1, n - 1);
    }
  }

  lemma SameNext(a: nat, b: nat)
    requires a % U24 == b % U24
    ensures (a + 1) % U24 == (b + 1) % U24
  {
  }

  function Wrapped(address: nat, i: nat): nat {
    (address + i) % U24
  }

  /** Whether one of n consecutive addresses from a on is x. */
  predicate Touches(a: nat, n: nat, x: nat) {
    exists i :: 0 <= i < n && Wrapped(a, i) == x
  }

  /** A store changes the addresses it covers and no others. */
  lemma {:induction false} PokeKeepsOthers(mem: seq<Byte>, address: nat, bytes: seq<Byte>, x: nat)
    requires |mem| == U24 && x < U24 && !Touches(address, |bytes|, x)
    ensures Poke(mem, address, bytes)[x] == mem[x]
    decreases |bytes|
  {
    if bytes != [] {
      assert Wrapped(address, 0) != x;
      var next := address + 1;
      forall i | 0 <= i < |bytes| - 1
        ensures Wrapped(next, i) != x
      {
        assert Wrapped(address, i + 1) == Wrapped(next, i);
      }
      PokeKeepsOthers(mem[address % U24 := bytes[0]], address + 1, bytes[1..], x);
    }
  }

  lemma NoReturn(address: nat, n: nat)
    requires n < U24
    ensures !Touches(address + 1, n, address % U24)
  {
    var next := address + 1;
    forall i | 0 <= i < n
      ensures Wrapped(next, i) != address % U24
    {
      Differ(address, i + 1);
    }
  }

  lemma Differ(address: nat, d: nat)
    requires 0 < d < U24
    ensures (address + d) % U24 != address % U24
  {
  }

  /** Reading back what was stored, at any address and alignment. */
  lemma {:induction false} MemoryRoundTrip(mem: seq<Byte>, address: nat, bytes: seq<Byte>)
    requires |mem| == U24 && |bytes| < U24
    ensures PeekBytes(Poke(mem, address, bytes), address, |bytes|) == bytes
    decreases |bytes|
  {
    if bytes != [] {
      var next := mem[address % U24 := bytes[0]];
      MemoryRoundTrip(next, address + 1, bytes[1..]);
      NoReturn(address, |bytes| - 1);
      PokeKeepsOthers(next, address + 1, bytes[1..], address % U24);
    }
  }

  // ---------------------------------------------------------------- the log

  /** What the bus does that others can see, in order. */
  datatype Effect =
    | Stored(address: nat, bytes: seq<Byte>)
    | Captured(address: nat, value: nat, width: nat)
    | Invalidated(address: nat, width: nat)

  /** A transaction is a byte, or a word at an even address. */
  function Transaction(address: nat, bytes: seq<Byte>): seq<Effect>
    requires |bytes| == 1 || |bytes| == 2
  {
    [Stored(address, bytes), Captured(address, FromBytes(bytes), |bytes|), Invalidated(address, |bytes|)]
  }

  /** Every store is followed at once by its one capture and its invalidation. */
  ghost predicate Orderly(log: seq<Effect>)
    decreases |log|
  {
    log == []
    || (&& |log| >= 3 && log[0].Stored? && log[0].address < U24
        && (|log[0].bytes| == 1 || (|log[0].bytes| == 2 && log[0].address % 2 == 0))
        && log[..3] == Transaction(log[0].address, log[0].bytes)
        && Orderly(log[3..]))
  }

  lemma {:induction false} OrderlyAppends(a: seq<Effect>, b: seq<Effect>)
    requires Orderly(a) && Orderly(b)
    ensures Orderly(a + b)
    decreases |a|
  {
    if a == [] {
      assert a + b == b;
    } else {
      OrderlyAppends(a[3..], b);
      assert (a + b)[..3] == a[..3] && (a + b)[3..] == a[3..] + b;
    }
  }

  lemma TransactionOrderly(address: nat, bytes: seq<Byte>)
    requires address < U24 && (|bytes| == 1 || (|bytes| == 2 && address % 2 == 0))
    ensures Orderly(Transaction(address, bytes))
  {
    var t := Transaction(address, bytes);
    assert t[..3] == t && t[3..] == [];
  }

  /** The transactions a byte string is split into: words at even addresses, bytes else. */
  function Effects(address: nat, bytes: seq<Byte>): seq<Effect>
    decreases |bytes|
  {
    if bytes == [] then []
    else if address % 2 == 1 || |bytes| == 1 then
      Transaction(address % U24, bytes[..1]) + Effects(address + 1, bytes[1..])
    else
      Transaction(address % U24, bytes[..2]) + Effects(address + 2, bytes[2..])
  }

  /** The length of the first transaction. */
  function FirstPiece(address: nat, length: nat): (n: nat)
    requires length > 0
    ensures 0 < n <= length && n <= 2
  {
    if address % 2 == 1 || length == 1 then 1 else 2
  }

  lemma EffectsHead(address: nat, bytes: seq<Byte>, n: nat)
    requires bytes != [] && n == FirstPiece(address, |bytes|)
    ensures Effects(address, bytes) == Transaction(address % U24, bytes[..n]) + Effects(address + n, bytes[n..])
  {
  }

  /** The memory that a log's stores leave behind. */
  function Replayed(mem: seq<Byte>, log: seq<Effect>): (r: seq<Byte>)
    requires |mem| == U24
    ensures |r| == U24
    decreases |log|
  {
    if log == [] then mem
    else Replayed(if log[0].Stored? then Poke(mem, log[0].address, log[0].bytes) else mem, log[1..])
  }

  lemma TransactionReplays(mem: seq<Byte>, address: nat, bytes: seq<Byte>, rest: seq<Effect>)
    requires |mem| == U24 && (|bytes| == 1 || |bytes| == 2)
    ensures Replayed(mem, Transaction(address, bytes) + rest) == Replayed(Poke(mem, address, bytes), rest)
  {
    var log := Transaction(address, bytes) + rest;
    var m1, l1 := Poke(mem, address, bytes), log[1..];
    var l2 := l1[1..];
    assert Replayed(mem, log) == Replayed(m1, l1);
    assert l1[0] == Captured(address, FromBytes(bytes), |bytes|);
    assert Replayed(m1, l1) == Replayed(m1, l2);
    assert l2[0] == Invalidated(address, |bytes|) && l2[1..] == rest;
  }

  /** The split transactions store exactly the bytes of the write, in order. */
  lemma {:induction false} EffectsReplay(mem: seq<Byte>, address: nat, bytes: seq<Byte>)
    requires |mem| == U24
    ensures Replayed(mem, Effects(address, bytes)) == Poke(mem, address, bytes)
    decreases |bytes|
  {
    if bytes != [] {
      var n := FirstPiece(address, |bytes|);
      EffectsHead(address, bytes, n);
      TransactionReplays(mem, address % U24, bytes[..n], Effects(address + n, bytes[n..]));
      PokeWraps(mem, address % U24, address, bytes[..n]);
      EffectsReplay(Poke(mem, address, bytes[..n]), address + n, bytes[n..]);
      assert bytes[..n] + bytes[n..] == bytes;
      PokeSplits(mem, address, bytes[..n], bytes[n..]);
    }
  }

  lemma Associate(a: seq<Effect>, b: seq<Effect>, c: seq<Effect>)
    ensures a + (b + c) == a + b + c
  {
  }

  lemma {:induction false} EffectsSplit(address: nat, first: seq<Byte>, rest: seq<Byte>)
    requires (address + |first|) % 2 == 0
    ensures Effects(address, first + rest) == Effects(address, first) + Effects(address + |first|, rest)
    decreases |first|
  {
    var all := first + rest;
    if first == [] {
      assert all == rest;
    } else {
      var n := FirstPiece(address, |first|);
      SameFirstPiece(address, |first|, |all|);
      assert all[..n] == first[..n] && all[n..] == first[n..] + rest;
      EffectsHead(address, first, n);
      EffectsHead(address, all, n);
      EffectsSplit(address + n, first[n..], rest);
      Associate(Transaction(address % U24, first[..n]), Effects(address + n, first[n..]),
                Effects(address + |first|, rest));
    }
  }

  lemma SameFirstPiece(address: nat, n: nat, m: nat)
    requires 0 < n <= m && (address + n) % 2 == 0
    ensures FirstPiece(address, m) == FirstPiece(address, n)
  {
  }

  lemma SameParity(a: nat, b: nat)
    requires a % U24 == b % U24
    ensures a % 2 == b % 2
  {
    WrapKeepsParity(a);
    WrapKeepsParity(b);
  }

  lemma WrapKeepsParity(a: nat)
    ensures a % 2 == a % U24 % 2
  {
    var q, r := a / U24, a % U24;
    assert a == 2 * (q * 0x80_0000) + r;
  }

  lemma SameOffset(a: nat, b: nat, n: nat)
    requires a % U24 == b % U24
    ensures (a + n) % U24 == (b + n) % U24
  {
  }

  lemma {:induction false} EffectsWrap(a: nat, b: nat, bytes: seq<Byte>)
    requires a % U24 == b % U24
    ensures Effects(a, bytes) == Effects(b, bytes)
    decreases |bytes|
  {
    if bytes != [] {
      var n := FirstPiece(a, |bytes|);
      SameParity(a, b);
      SameOffset(a, b, n);
      EffectsHead(a, bytes, n);
      EffectsHead(b, bytes, n);
      EffectsWrap(a + n, b + n, bytes[n..]);
    }
  }

  /** Every split is orderly. */
  lemma {:induction false} EffectsOrderly(address: nat, bytes: seq<Byte>)
    ensures Orderly(Effects(address, bytes))
    decreases |bytes|
  {
    if bytes != [] {
      var n := if address % 2 == 1 || |bytes| == 1 then 1 else 2;
      EffectsOrderly(address + n, bytes[n..]);
      assert address % U24 % 2 == address % 2;
      TransactionOrderly(address % U24, bytes[..n]);
      OrderlyAppends(Transaction(address % U24, bytes[..n]), Effects(address + n, bytes[n..]));
    }
  }

  /** A longword takes the bus two words at an even address, and a byte, a word and a byte at an
      odd one; wider accesses take it longword by longword. */
  lemma LongTransactions(address: nat, bytes: seq<Byte>)
    requires |bytes| == 4
    ensures Effects(address, bytes) ==
            if address % 2 == 0
            then Transaction(address % U24, bytes[..2]) + Transaction((address + 2) % U24, bytes[2..])
            else Transaction(address % U24, bytes[..1]) + Transaction((address + 1) % U24, bytes[1..3])
                 + Transaction((address + 3) % U24, bytes[3..])
  {
    if address % 2 == 0 {
      EffectsHead(address, bytes, 2);
      LastTransaction(address + 2, bytes[2..]);
    } else {
      var rest := bytes[1..];
      EffectsHead(address, bytes, 1);
      EffectsHead(address + 1, rest, 2);
      LastTransaction(address + 3, rest[2..]);
      assert rest[..2] == bytes[1..3] && rest[2..] == bytes[3..];
    }
  }

  lemma LastTransaction(address: nat, bytes: seq<Byte>)
    requires |bytes| == 1 || (|bytes| == 2 && address % 2 == 0)
    ensures Effects(address, bytes) == Transaction(address % U24, bytes)
  {
    EffectsHead(address, bytes, |bytes|);
    assert bytes[..|bytes|] == bytes && bytes[|bytes|..] == [];
  }

  /** Accesses wider than a longword are sequences of longword accesses. */
  function LongEffects(address: nat, bytes: seq<Byte>): seq<Effect>
    decreases |bytes|
  {
    if |bytes| < 4 then Effects(address, bytes)
    else Effects(address, bytes[..4]) + LongEffects(address + 4, bytes[4..])
  }

  lemma {:induction false} LongEffectsOrderly(address: nat, bytes: seq<Byte>)
    ensures Orderly(LongEffects(address, bytes))
    decreases |bytes|
  {
    if |bytes| < 4 {
      EffectsOrderly(address, bytes);
    } else {
      EffectsOrderly(address, bytes[..4]);
      LongEffectsOrderly(address + 4, bytes[4..]);
      OrderlyAppends(Effects(address, bytes[..4]), LongEffects(address + 4, bytes[4..]));
    }
  }

  /** In an orderly log the entries after a store are its capture and its invalidation. */
  lemma {:induction false} StoreIsFollowed(log: seq<Effect>, k: nat)
    requires Orderly(log) && k < |log| && log[k].Stored?
    ensures k + 2 < |log| && k % 3 == 0 && log[k].address < U24
    ensures |log[k].bytes| == 1 || (|log[k].bytes| == 2 && log[k].address % 2 == 0)
    ensures log[k + 1] == Captured(log[k].address, FromBytes(log[k].bytes), |log[k].bytes|)
    ensures log[k + 2] == Invalidated(log[k].address, |log[k].bytes|)
    decreases |log|
  {
    assert log[..3][1] == log[1] && log[..3][2] == log[2];
    if k >= 3 {
      StoreIsFollowed(log[3..], k - 3);
    }
  }

  /** Captures come only from stores: exactly one each. */
  lemma {:induction false} CaptureHasItsStore(log: seq<Effect>, k: nat)
    requires Orderly(log) && k < |log| && log[k].Captured?
    ensures k > 0 && k % 3 == 1 && log[k - 1].Stored?
    decreases |log|
  {
    assert log[..3][1] == log[1] && log[..3][2] == log[2];
    if k >= 3 {
      CaptureHasItsStore(log[3..], k - 3);
    }
  }

  /** Every chip RAM byte a transaction stored lies in a page its invalidation handles. */
  lemma InvalidationCovers(log: seq<Effect>, k: nat, i: nat)
    requires Orderly(log) && k < |log| && log[k].Stored? && i < |log[k].bytes|
    requires log[k].address + i < CHIP_LIMIT
    ensures k + 2 < |log| && log[k + 2].Invalidated?
    ensures var v := log[k + 2];
            && v.address < CHIP_LIMIT && v.width > 0
            && PageOf(v.address) <= PageOf(log[k].address + i) <= PageCache.LastPage(v.address, v.width)
  {
    StoreIsFollowed(log, k);
  }

  /** What the bus captures from the audio registers is what the event ring expects. */
  lemma CaptureIsABusEvent(log: seq<Effect>, k: nat, value: Word, ticks: nat)
    requires Orderly(log) && k < |log| && log[k].Captured? && Registers.Offered(log[k].address)
    ensures Registers.BusEvent(Registers.Event(log[k].address, value, log[k].width, ticks))
  {
    CaptureHasItsStore(log, k);
    StoreIsFollowed(log, k - 1);
  }
}
