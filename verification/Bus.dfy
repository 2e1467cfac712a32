/** The Classic bus: byte and word transactions, and the wider and unaligned accesses the
    processor composes from them. */
module Bus {
  import opened Words
  import opened BusMemory

  // ---------------------------------------------------------------- how writes compose

  lemma OneByte(v: nat)
    ensures BigEndian(v, 1) == [v % 256] && FromBytes([v % 256]) == v % 256
  {
    assert BigEndian(v / 256, 0) == [];
    assert [v % 256][..0] == [];
  }

  lemma TwoBytes(v: nat)
    ensures BigEndian(v, 2) == [v / 256 % 256, v % 256]
    ensures FromBytes(BigEndian(v, 2)) == v % U16
  {
    OneByte(v / 256);
    var b := BigEndian(v, 2);
    assert b[..1] == [v / 256 % 256];
    OneByte(v / 256);
  }

  /** A word as two bytes, a longword as byte, word, byte, or as two words. */
  lemma WordParts(v: nat)
    ensures BigEndian(v, 2) == BigEndian(v / 0x100, 1) + BigEndian(v % 0x100, 1)
  {
    TwoBytes(v);
    OneByte(v / 0x100);
    OneByte(v % 0x100);
  }

  lemma LongOddParts(v: nat)
    ensures BigEndian(v, 4) == BigEndian(v / 0x100_0000, 1) + BigEndian(v / 0x100, 2) + BigEndian(v % 0x100, 1)
  {
    Shifts(v);
    BigEndianSplits(v, 1, 3);
    BigEndianSplits(v, 2, 1);
    LastByte(v);
    Joined(BigEndian(v / 0x100_0000, 1), BigEndian(v / 0x100, 2), BigEndian(v, 1));
  }

  lemma LastByte(v: nat)
    ensures BigEndian(v % 0x100, 1) == BigEndian(v, 1)
  {
    OneByte(v);
    OneByte(v % 0x100);
  }

  lemma Joined(a: seq<Byte>, b: seq<Byte>, c: seq<Byte>)
    ensures a + (b + c) == a + b + c
  {
  }

  lemma LongEvenParts(v: nat)
    ensures BigEndian(v, 4) == BigEndian(v / 0x1_0000, 2) + BigEndian(v, 2)
  {
    Shifts(v);
    BigEndianSplits(v, 2, 2);
  }

  /** The effect of a whole write: memory and log. */
  ghost predicate Wrote(mem: seq<Byte>, mem': seq<Byte>, log: seq<Effect>, log': seq<Effect>,
                        address: nat, bytes: seq<Byte>)
  {
    && |mem| == |mem'| == U24
    && mem' == Poke(mem, address, bytes)
    && log' == log + Effects(address, bytes)
  }

  /** Two writes in a row that meet at an even address are one write. */
  lemma WritesJoin(m0: seq<Byte>, m1: seq<Byte>, m2: seq<Byte>, l0: seq<Effect>, l1: seq<Effect>, l2: seq<Effect>,
                   address: nat, first: seq<Byte>, rest: seq<Byte>)
    requires Wrote(m0, m1, l0, l1, address, first) && Wrote(m1, m2, l1, l2, address + |first|, rest)
    requires (address + |first|) % 2 == 0
    ensures Wrote(m0, m2, l0, l2, address, first + rest)
  {
    PokeSplits(m0, address, first, rest);
    EffectsSplit(address, first, rest);
  }

  lemma WriteWraps(m0: seq<Byte>, m1: seq<Byte>, l0: seq<Effect>, l1: seq<Effect>, a: nat, b: nat, bytes: seq<Byte>)
    requires Wrote(m0, m1, l0, l1, a, bytes) && a % U24 == b % U24
    ensures Wrote(m0, m1, l0, l1, b, bytes)
  {
    PokeWraps(m0, a, b, bytes);
    EffectsWrap(a, b, bytes);
  }

  lemma ByteWrite(mem: seq<Byte>, log: seq<Effect>, a: nat, byte: Byte)
    requires |mem| == U24 && a < U24
    ensures Wrote(mem, mem[a := byte], log, log + Transaction(a, [byte]), a, [byte])
  {
    assert [byte][..1] == [byte] && [byte][1..] == [];
    assert Poke(mem, a, [byte]) == Poke(mem[a := byte], a + 1, []);
    assert Effects(a, [byte]) == Transaction(a, [byte]) + Effects(a + 1, []);
  }

  lemma WordWrite(mem: seq<Byte>, log: seq<Effect>, a: nat, bytes: seq<Byte>)
    requires |mem| == U24 && a < U24 && a % 2 == 0 && |bytes| == 2
    ensures Wrote(mem, mem[a := bytes[0]][a + 1 := bytes[1]], log, log + Transaction(a, bytes), a, bytes)
  {
    assert bytes[..2] == bytes && bytes[2..] == [];
    var m1 := mem[a := bytes[0]];
    assert Poke(mem, a, bytes) == Poke(m1, a + 1, bytes[1..]);
    assert Poke(m1, a + 1, bytes[1..]) == Poke(m1[a + 1 := bytes[1]], a + 2, bytes[1..][1..]);
    assert Effects(a, bytes) == Transaction(a, bytes) + Effects(a + 2, []);
  }

  // ---------------------------------------------------------------- wide writes

  lemma LowLong(v: nat)
    ensures BigEndian(v % U32, 4) == BigEndian(v, 4)
  {
    Shifts(v);
    NumberRoundTrip(v, 4);
    Scales(v / U32);
    BytesRoundTrip(BigEndian(v, 4));
    assert FromBytes(BigEndian(v, 4)) == v % U32;
  }

  lemma WideParts(v: nat)
    ensures BigEndian(v, 8) == BigEndian(v / U32, 4) + BigEndian(v % U32, 4)
  {
    Shifts(v);
    BigEndianSplits(v, 4, 4);
    LowLong(v);
  }

  lemma WideRead(mem: seq<Byte>, a: nat)
    requires |mem| == U24
    ensures FromBytes(PeekBytes(mem, a, 8)) ==
            FromBytes(PeekBytes(mem, a, 4)) * U32 + FromBytes(PeekBytes(mem, a + 4, 4))
  {
    PeekSplits(mem, a, 4, 4);
    FromBytesAppends(PeekBytes(mem, a, 4), PeekBytes(mem, a + 4, 4));
    Scales(FromBytes(PeekBytes(mem, a, 4)));
  }

  /** A write wider than a longword: the same bytes, one longword at a time. */
  ghost predicate WroteWide(mem: seq<Byte>, mem': seq<Byte>, log: seq<Effect>, log': seq<Effect>,
                            address: nat, bytes: seq<Byte>)
  {
    && |mem| == |mem'| == U24
    && mem' == Poke(mem, address, bytes)
    && log' == log + LongEffects(address, bytes)
  }

  lemma {:induction false} LongEffectsSplit(address: nat, first: seq<Byte>, rest: seq<Byte>)
    requires |first| % 4 == 0
    ensures LongEffects(address, first + rest) == LongEffects(address, first) + LongEffects(address + |first|, rest)
    decreases |first|
  {
    if first == [] {
      assert first + rest == rest;
    } else {
      assert (first + rest)[..4] == first[..4] && (first + rest)[4..] == first[4..] + rest;
      LongEffectsSplit(address + 4, first[4..], rest);
    }
  }

  lemma WideJoin(m0: seq<Byte>, m1: seq<Byte>, m2: seq<Byte>, l0: seq<Effect>, l1: seq<Effect>, l2: seq<Effect>,
                 address: nat, first: seq<Byte>, rest: seq<Byte>)
    requires WroteWide(m0, m1, l0, l1, address, first) && WroteWide(m1, m2, l1, l2, address + |first|, rest)
    requires |first| % 4 == 0
    ensures WroteWide(m0, m2, l0, l2, address, first + rest)
  {
    PokeSplits(m0, address, first, rest);
    LongEffectsSplit(address, first, rest);
  }

  lemma LongIsWide(m0: seq<Byte>, m1: seq<Byte>, l0: seq<Effect>, l1: seq<Effect>, address: nat, bytes: seq<Byte>)
    requires Wrote(m0, m1, l0, l1, address, bytes) && |bytes| == 4
    ensures WroteWide(m0, m1, l0, l1, address, bytes)
  {
    assert bytes[..4] == bytes && bytes[4..] == [];
    assert LongEffects(address, bytes) == Effects(address, bytes) + LongEffects(address + 4, []);
  }

  lemma LongsJoin(m0: seq<Byte>, m1: seq<Byte>, m2: seq<Byte>, l0: seq<Effect>, l1: seq<Effect>, l2: seq<Effect>,
                  address: nat, first: seq<Byte>, rest: seq<Byte>)
    requires Wrote(m0, m1, l0, l1, address, first) && Wrote(m1, m2, l1, l2, address + 4, rest)
    requires |first| == |rest| == 4
    ensures WroteWide(m0, m2, l0, l2, address, first + rest)
  {
    LongIsWide(m0, m1, l0, l1, address, first);
    LongIsWide(m1, m2, l1, l2, address + 4, rest);
    WideJoin(m0, m1, m2, l0, l1, l2, address, first, rest);
  }

  // ---------------------------------------------------------------- what a write promises

  /** Reading back a written value of n bytes, at any address and alignment. */
  lemma WriteReadRoundTrip(m0: seq<Byte>, m1: seq<Byte>, l0: seq<Effect>, l1: seq<Effect>,
                           address: nat, v: nat, n: nat)
    requires Wrote(m0, m1, l0, l1, address, BigEndian(v, n)) || WroteWide(m0, m1, l0, l1, address, BigEndian(v, n))
    requires n < U24 && Shifted(v, n) == 0
    ensures FromBytes(PeekBytes(m1, address, n)) == v
  {
    MemoryRoundTrip(m0, address, BigEndian(v, n));
    NumberRoundTrip(v, n);
    ScaledZero(n);
  }

  lemma WideFits(v: nat)
    requires v < U64
    ensures Shifted(v, 8) == 0
  {
    Shifts(v);
    Shifts(v / U32);
    ShiftsJoin(v, 4, 4);
  }

  lemma {:induction false} ShiftsJoin(v: nat, n: nat, m: nat)
    ensures Shifted(v, n + m) == Shifted(Shifted(v, n), m)
  {
    if n > 0 {
      ShiftsJoin(v / 256, n - 1, m);
    }
  }

  /** Both halves of a written 128-bit value are read back, at any address and alignment. */
  lemma Write128RoundTrip(m0: seq<Byte>, m1: seq<Byte>, l0: seq<Effect>, l1: seq<Effect>,
                          address: nat, hi: nat, lo: nat)
    requires WroteWide(m0, m1, l0, l1, address, BigEndian(hi, 8) + BigEndian(lo, 8)) && hi < U64 && lo < U64
    ensures FromBytes(PeekBytes(m1, address, 8)) == hi && FromBytes(PeekBytes(m1, address + 8, 8)) == lo
  {
    var bytes := BigEndian(hi, 8) + BigEndian(lo, 8);
    MemoryRoundTrip(m0, address, bytes);
    PeekSplits(m1, address, 8, 8);
    assert bytes[..8] == BigEndian(hi, 8) && bytes[8..] == BigEndian(lo, 8);
    assert PeekBytes(m1, address, 8) == bytes[..8] && PeekBytes(m1, address + 8, 8) == bytes[8..];
    NumberIsBack(hi);
    NumberIsBack(lo);
  }

  lemma NumberIsBack(v: nat)
    requires v < U64
    ensures FromBytes(BigEndian(v, 8)) == v
  {
    NumberRoundTrip(v, 8);
    WideFits(v);
    ScaledZero(8);
  }

  lemma {:induction false} ScaledZero(n: nat)
    ensures Scaled(0, n) == 0
  {
    if n > 0 {
      ScaledZero(n - 1);
    }
  }

  /** Writes touch no other byte. */
  lemma WriteKeepsOthers(m0: seq<Byte>, m1: seq<Byte>, l0: seq<Effect>, l1: seq<Effect>, address: nat,
                         bytes: seq<Byte>, x: nat)
    requires Wrote(m0, m1, l0, l1, address, bytes) || WroteWide(m0, m1, l0, l1, address, bytes)
    requires x < U24 && !Touches(address, |bytes|, x)
    ensures m1[x] == m0[x]
  {
    PokeKeepsOthers(m0, address, bytes, x);
  }

  /** Writes of every width keep the log orderly: one capture and one covering invalidation
      after every store. */
  lemma WritesStayOrderly(m0: seq<Byte>, m1: seq<Byte>, l0: seq<Effect>, l1: seq<Effect>,
                          address: nat, bytes: seq<Byte>)
    requires Wrote(m0, m1, l0, l1, address, bytes) || WroteWide(m0, m1, l0, l1, address, bytes)
    requires Orderly(l0)
    ensures Orderly(l1)
  {
    EffectsOrderly(address, bytes);
    LongEffectsOrderly(address, bytes);
    if Wrote(m0, m1, l0, l1, address, bytes) {
      OrderlyAppends(l0, Effects(address, bytes));
    } else {
      OrderlyAppends(l0, LongEffects(address, bytes));
    }
  }

  // ---------------------------------------------------------------- the bus

  class Bus {
    const memory: array<Byte>
    var log: seq<Effect>

    constructor (memory: array<Byte>)
      requires memory.Length == U24
      ensures this.memory == memory && log == []
    {
      this.memory := memory;
      log := [];
    }

    /** One byte transaction, its capture and its invalidation. */
    method Write8(address: nat, data: nat)
      requires memory.Length == U24
      modifies this, memory
      ensures Wrote(old(memory[..]), memory[..], old(log), log, address, BigEndian(data, 1))
    {
      var a, byte := address % U24, data % 256;
      OneByte(data);
      ByteWrite(memory[..], log, a, byte);
      memory[a] := byte;
      log := log + [Stored(a, [byte]), Captured(a, byte, 1), Invalidated(a, 1)];
      assert log == old(log) + Transaction(a, [byte]);
      WriteWraps(old(memory[..]), memory[..], old(log), log, a, address, [byte]);
    }

    /** One word transaction at an even address. */
    method WriteWord(a: nat, data: nat)
      requires memory.Length == U24 && a < U24 && a % 2 == 0
      modifies this, memory
      ensures Wrote(old(memory[..]), memory[..], old(log), log, a, BigEndian(data, 2))
    {
      TwoBytes(data);
      WordWrite(memory[..], log, a, BigEndian(data, 2));
      var high, low := data / 256 % 256, data % 256;
      memory[a], memory[a + 1] := high, low;
      log := log + [Stored(a, [high, low]), Captured(a, data % U16, 2), Invalidated(a, 2)];
      assert memory[..] == old(memory[..])[a := high][a + 1 := low];
      assert log == old(log) + Transaction(a, BigEndian(data, 2));
    }

    /** An odd word is two bytes. */
    method Write16(address: nat, data: nat)
      requires memory.Length == U24
      modifies this, memory
      ensures Wrote(old(memory[..]), memory[..], old(log), log, address, BigEndian(data, 2))
    {
      var a := address % U24;
      if a % 2 == 1 {
        WordParts(data);
        Write8(a, data / 256);
        ghost var m1, l1 := memory[..], log;
        Write8(a + 1, data % 256);
        WritesJoin(old(memory[..]), m1, memory[..],
                   old(log), l1, log, a, BigEndian(data / 256, 1), BigEndian(data % 256, 1));
      } else {
        WriteWord(a, data);
      }
      WriteWraps(old(memory[..]), memory[..], old(log), log, a, address, BigEndian(data, 2));
    }

    /** An odd longword is byte, word, byte; an even one two words. */
    method Write32(address: nat, data: nat)
      requires memory.Length == U24
      modifies this, memory
      ensures Wrote(old(memory[..]), memory[..], old(log), log, address, BigEndian(data, 4))
    {
      if address % 2 == 1 {
        Write32Odd(address, data);
      } else {
        LongEvenParts(data);
        Write16(address, data / 0x1_0000);
        ghost var m1, l1 := memory[..], log;
        Write16(address + 2, data);
        WritesJoin(old(memory[..]), m1, memory[..],
                   old(log), l1, log, address, BigEndian(data / 0x1_0000, 2), BigEndian(data, 2));
      }
    }

    method Write32Odd(address: nat, data: nat)
      requires memory.Length == U24 && address % 2 == 1
      modifies this, memory
      ensures Wrote(old(memory[..]), memory[..], old(log), log, address, BigEndian(data, 4))
    {
      LongOddParts(data);
      ghost var head, last := BigEndian(data / 0x100_0000, 1) + BigEndian(data / 0x100, 2), BigEndian(data % 0x100, 1);
      WriteOddHead(address, data);
      ghost var m, l := memory[..], log;
      Write8(address + 3, data % 0x100);
      WritesJoin(old(memory[..]), m, memory[..], old(log), l, log, address, head, last);
    }

    method WriteOddHead(address: nat, data: nat)
      requires memory.Length == U24 && address % 2 == 1
      modifies this, memory
      ensures Wrote(old(memory[..]), memory[..], old(log), log, address,
                    BigEndian(data / 0x100_0000, 1) + BigEndian(data / 0x100, 2))
    {
      ghost var first, mid := BigEndian(data / 0x100_0000, 1), BigEndian(data / 0x100, 2);
      Write8(address, data / 0x100_0000);
      ghost var m, l := memory[..], log;
      Write16(address + 1, data / 0x100);
      WritesJoin(old(memory[..]), m, memory[..], old(log), l, log, address, first, mid);
    }

    method Write64(address: nat, data: nat)
      requires memory.Length == U24 && data < U64
      modifies this, memory
      ensures WroteWide(old(memory[..]), memory[..], old(log), log, address, BigEndian(data, 8))
    {
      Write32(address, data / U32);
      ghost var m1, l1 := memory[..], log;
      Write32(address + 4, data % U32);
      LongsJoin(old(memory[..]), m1, memory[..],
                old(log), l1, log, address, BigEndian(data / U32, 4), BigEndian(data % U32, 4));
      WideParts(data);
    }

    /** The two halves of the 128-bit struct. */
    method Write128(address: nat, hi: nat, lo: nat)
      requires memory.Length == U24 && hi < U64 && lo < U64
      modifies this, memory
      ensures WroteWide(old(memory[..]), memory[..], old(log), log, address, BigEndian(hi, 8) + BigEndian(lo, 8))
    {
      WideParts(hi);
      WideParts(lo);
      Write32(address, hi / U32);
      ghost var m1, l1 := memory[..], log;
      Write32(address + 4, hi % U32);
      ghost var m2, l2 := memory[..], log;
      LongsJoin(old(memory[..]), m1, m2, old(log), l1, l2, address, BigEndian(hi / U32, 4), BigEndian(hi % U32, 4));
      WriteLowHalf(address, lo);
      WideJoin(old(memory[..]), m2, memory[..], old(log), l2, log, address, BigEndian(hi, 8), BigEndian(lo, 8));
    }

    method WriteLowHalf(address: nat, lo: nat)
      requires memory.Length == U24 && lo < U64
      modifies this, memory
      ensures WroteWide(old(memory[..]), memory[..], old(log), log, address + 8, BigEndian(lo, 8))
    {
      WideParts(lo);
      Write32(address + 8, lo / U32);
      ghost var m1, l1 := memory[..], log;
      Write32(address + 12, lo % U32);
      LongsJoin(old(memory[..]), m1, memory[..],
                old(log), l1, log, address + 8, BigEndian(lo / U32, 4), BigEndian(lo % U32, 4));
    }

    method Read8(address: nat) returns (value: nat)
      requires memory.Length == U24
      ensures value == FromBytes(PeekBytes(memory[..], address, 1))
    {
      OneByte(memory[address % U24]);
      assert PeekBytes(memory[..], address, 1) == [memory[address % U24]] + PeekBytes(memory[..], address + 1, 0);
      value := memory[address % U24];
    }

    method Read16(address: nat) returns (value: nat)
      requires memory.Length == U24
      ensures value == FromBytes(PeekBytes(memory[..], address, 2))
    {
      ghost var mem := memory[..];
      var a := address % U24;
      PeekWraps(mem, a, address, 2);
      PeekSplits(mem, a, 1, 1);
      FromBytesAppends(PeekBytes(mem, a, 1), PeekBytes(mem, a + 1, 1));
      Scales(FromBytes(PeekBytes(mem, a, 1)));
      if a % 2 == 1 {
        var high := Read8(a);
        var low := Read8(a + 1);
        value := high * 0x100 + low;
      } else {
        var high: nat, low: nat := memory[a], memory[a + 1];
        assert PeekBytes(mem, a, 1) == [high] && PeekBytes(mem, a + 1, 1) == [low];
        OneByte(high);
        OneByte(low);
        value := high * 0x100 + low;
      }
    }

    method Read32(address: nat) returns (value: nat)
      requires memory.Length == U24
      ensures value == FromBytes(PeekBytes(memory[..], address, 4))
    {
      ghost var mem := memory[..];
      if address % 2 == 1 {
        var high := Read8(address);
        var mid := Read16(address + 1);
        var low := Read8(address + 3);
        value := high * 0x100_0000 + mid * 0x100 + low;
        OddLong(mem, address);
      } else {
        var high := Read16(address);
        var low := Read16(address + 2);
        value := high * 0x1_0000 + low;
        EvenLong(mem, address);
      }
    }

    method Read64(address: nat) returns (value: nat)
      requires memory.Length == U24
      ensures value == FromBytes(PeekBytes(memory[..], address, 8))
    {
      WideRead(memory[..], address);
      var hi := Read32(address);
      var lo := Read32(address + 4);
      value := hi * U32 + lo;
    }

    method Read128(address: nat) returns (hi: nat, lo: nat)
      requires memory.Length == U24
      ensures hi == FromBytes(PeekBytes(memory[..], address, 8))
      ensures lo == FromBytes(PeekBytes(memory[..], address + 8, 8))
    {
      var top := Read32(address);
      var upper := Read32(address + 4);
      var lower := Read32(address + 8);
      var bottom := Read32(address + 12);
      WideRead(memory[..], address);
      hi := top * U32 + upper;
      WideRead(memory[..], address + 8);
      lo := lower * U32 + bottom;
    }
  }

  lemma OddLong(mem: seq<Byte>, a: nat)
    requires |mem| == U24
    ensures FromBytes(PeekBytes(mem, a, 4)) ==
            FromBytes(PeekBytes(mem, a, 1)) * 0x100_0000
            + FromBytes(PeekBytes(mem, a + 1, 2)) * 0x100 + FromBytes(PeekBytes(mem, a + 3, 1))
  {
    PeekSplits(mem, a, 1, 3);
    PeekSplits(mem, a + 1, 2, 1);
    FromBytesAppends(PeekBytes(mem, a, 1), PeekBytes(mem, a + 1, 3));
    FromBytesAppends(PeekBytes(mem, a + 1, 2), PeekBytes(mem, a + 3, 1));
    Scales(FromBytes(PeekBytes(mem, a, 1)));
    Scales(FromBytes(PeekBytes(mem, a + 1, 2)));
  }

  lemma EvenLong(mem: seq<Byte>, a: nat)
    requires |mem| == U24
    ensures FromBytes(PeekBytes(mem, a, 4)) ==
            FromBytes(PeekBytes(mem, a, 2)) * 0x1_0000 + FromBytes(PeekBytes(mem, a + 2, 2))
  {
    PeekSplits(mem, a, 2, 2);
    FromBytesAppends(PeekBytes(mem, a, 2), PeekBytes(mem, a + 2, 2));
    Scales(FromBytes(PeekBytes(mem, a, 2)));
  }
}
