/** What the words written to the chip registers mean, register by register. */
module RegisterValues {
  import opened Words
  import opened PaulaCore
  import opened Registers
  import Arith

  // ---------------------------------------------------------------- words

  lemma {:induction false} HighBits(w: Word, k: nat, i: nat)
    requires i < k
    ensures NumberBelow(w, k) / Pow2(i) % 2 == 1 <==> i in w
    decreases k
  {
    var low, top := NumberBelow(w, k - 1), if k - 1 in w then Pow2(k - 1) else 0;
    if i == k - 1 {
      if k - 1 in w {
        Arith.Quotient(low + top, Pow2(i), 1, low);
      } else {
        Arith.Quotient(low + top, Pow2(i), 0, low);
      }
    } else {
      HighBits(w, k - 1, i);
      DoublesAbove(i, k - 1);
      var m := Pow2(k - 2 - i);
      assert top == Pow2(i) * (if k - 1 in w then 2 * m else 0);
      AddedAbove(low, Pow2(i), if k - 1 in w then m else 0);
    }
  }

  lemma {:induction false} DoublesAbove(i: nat, k: nat)
    requires i < k
    ensures Pow2(k) == Pow2(i) * (2 * Pow2(k - 1 - i))
    decreases k
  {
    if i < k - 1 {
      DoublesAbove(i, k - 1);
      assert 2 * (Pow2(i) * (2 * Pow2(k - 2 - i))) == Pow2(i) * (2 * (2 * Pow2(k - 2 - i)));
    }
  }

  lemma AddedAbove(low: nat, unit: nat, m: nat)
    requires unit > 0
    ensures (low + unit * (2 * m)) / unit % 2 == low / unit % 2
  {
    var q, r := low / unit, low % unit;
    assert low + unit * (2 * m) == (q + 2 * m) * unit + r;
    Arith.Quotient(low + unit * (2 * m), unit, q + 2 * m, r);
  }

  /** A word is the set of the one bits of its number. */
  lemma NumberBits(w: Word, i: nat)
    requires i < 16
    ensures Number(w) / Pow2(i) % 2 == 1 <==> i in w
  {
    HighBits(w, 16, i);
  }

  /** Bit 15 says whether the other one bits are set or cleared; the rest stay. */
  lemma SetClrBits(reg: Word, value: Word, i: nat)
    requires i < 15
    ensures i in SetClr(reg, value) <==> if i in value then 15 in value else i in reg
    ensures 15 in SetClr(reg, value) ==> 15 in reg
  {
  }

  /** A channel's interrupt request is bit 7 and up: 0x80 shifted left by the channel. */
  lemma IrqWord(ch: nat)
    requires ch < CHANNELS
    ensures var w: Word := {IrqBit(ch)};
            Number(w) == 0x80 * Pow2(ch)
  {
    var w: Word := {IrqBit(ch)};
    LoneBit(w, 16, 7 + ch);
    assert Pow2(1) == 2 && Pow2(2) == 4 && Pow2(3) == 8 && Pow2(7) == 128 && Pow2(8) == 256;
    assert Pow2(9) == 512 && Pow2(10) == 1024;
  }

  lemma {:induction false} LoneBit(w: Word, k: nat, i: nat)
    requires w == {i}
    ensures NumberBelow(w, k) == if i < k then Pow2(i) else 0
    decreases k
  {
    if k > 0 {
      LoneBit(w, k - 1, i);
    }
  }

  // ---------------------------------------------------------------- bytes

  /** The byte bus shows a byte on both lanes, so that a byte written at either address of a
      register is the word with that byte twice. */
  lemma ByteOnBothLanes(p: Core, address: nat, value: Word, ticks: nat)
    requires CoreOk(p) && address % 2 == 0
    ensures var w := WordOf(value, 1);
            && (forall i :: 0 <= i < 8 ==> (i in w <==> i in value) && (i + 8 in w <==> i in value))
            && Applied(p, Event(address, value, 1, ticks)) == WriteRegister(p, address, w)
            && Applied(p, Event(address + 1, value, 1, ticks)) == WriteRegister(p, address, w)
  {
    RegisterPair(address);
    SameRegister(p, 0xDFF000 + RegisterOf(address), address, WordOf(value, 1));
  }

  lemma RegisterPair(address: nat)
    requires address % 2 == 0
    ensures RegisterOf(address) == RegisterOf(address + 1) == address % 0x1000
    ensures (0xDFF000 + RegisterOf(address)) % 0x1000 == address % 0x1000
  {
  }

  lemma SameRegister(p: Core, a: nat, b: nat, value: Word)
    requires CoreOk(p) && a % 0x1000 == b % 0x1000
    ensures WriteRegister(p, a, value) == WriteRegister(p, b, value)
  {
  }

  // ---------------------------------------------------------------- the audio registers

  ghost predicate OnlyChannel(p: Core, r: Core, ch: nat, c: Channel)
    requires CoreOk(p) && ch < CHANNELS
  {
    r == p.(channels := p.channels[ch := c])
  }

  lemma AudioRegister(p: Core, ch: nat, reg: nat, value: Word)
    requires CoreOk(p) && ch < CHANNELS && reg < 16
    ensures OnlyChannel(p, WriteRegister(p, 0xDFF0A0 + 0x10 * ch + reg, value), ch,
                        ChannelWrite(p.channels[ch], reg, value))
  {
    var r := 0xA0 + 0x10 * ch + reg;
    assert (0xDFF000 + r) % 0x1000 == r;
    assert (r - AUD_BASE) / 16 == ch && (r - AUD_BASE) % 16 == reg;
  }

  /** Location high and low, length, period and volume of a channel from 0xDFF0A0: each write
      latches the written number in its place and nothing else of the chip changes. A length of
      zero is 65536 words, a period of zero is one, and the volume has seven bits. */
  lemma AudioRegisterValues(p: Core, ch: nat, reg: nat, value: Word)
    requires CoreOk(p) && ch < CHANNELS && reg < 16
    ensures var c, v := p.channels[ch], Number(value);
            OnlyChannel(p, WriteRegister(p, 0xDFF0A0 + 0x10 * ch + reg, value), ch,
                        if reg == 0 then c.(locLatched := v * 0x1_0000 + c.locLatched % 0x1_0000)
                        else if reg == 2 then c.(locLatched := c.locLatched / 0x1_0000 * 0x1_0000 + v)
                        else if reg == 4 then c.(lenLatched := if v > 0 then v else 65536)
                        else if reg == 6 then c.(period := if v > 0 then v else 1)
                        else if reg == 8 then c.(volume := v % 128)
                        else c)
  {
    AudioRegister(p, ch, reg, value);
    SevenBits(value);
  }

  /** A loop setting latches location and length of its channel, zero words standing for 65536; a
      channel out of range is ignored. */
  lemma LoopValues(p: Core, ch: int, loc: nat, words: nat)
    requires CoreOk(p) && loc < U32
    ensures var r := WithLoop(p, ch, loc, words);
            if 0 <= ch < 4 then
              var c := p.channels[ch];
              OnlyChannel(p, r, ch, c.(locLatched := loc, lenLatched := if words > 0 then words else 65536))
            else r == p
  {
  }

  lemma SevenBits(value: Word)
    ensures Number(set i | i in value && i < 7) == Number(value) % 128
  {
    var low: Word := set i | i in value && i < 7;
    LowBits(value, low, 7);
    NoBitsAbove(low, 7, 16);
    HighPart(value, 7, 16);
    assert Pow2(7) == 128;
  }

  lemma {:induction false} LowBits(w: Word, low: Word, k: nat)
    requires forall i :: 0 <= i < k ==> (i in w <==> i in low)
    ensures NumberBelow(w, k) == NumberBelow(low, k)
  {
    if k > 0 {
      LowBits(w, low, k - 1);
    }
  }

  lemma {:induction false} NoBitsAbove(w: Word, j: nat, k: nat)
    requires j <= k && forall i :: j <= i < k ==> i !in w
    ensures NumberBelow(w, k) == NumberBelow(w, j)
    decreases k
  {
    if j < k {
      NoBitsAbove(w, j, k - 1);
    }
  }

  /** The bits from j on add a multiple of 2^j. */
  lemma {:induction false} HighPart(w: Word, j: nat, k: nat)
    requires j <= k
    ensures NumberBelow(w, k) % Pow2(j) == NumberBelow(w, j)
    decreases k
  {
    var low := NumberBelow(w, j);
    if j == k {
      Arith.Small(low, Pow2(j));
    } else {
      HighPart(w, j, k - 1);
      var x, top := NumberBelow(w, k - 1), if k - 1 in w then Pow2(k - 1) else 0;
      MultipleAbove(j, k - 1);
      AddedMultiple(x, Pow2(j), if k - 1 in w then Pow2(k - 1 - j) else 0);
    }
  }

  lemma AddedMultiple(x: nat, unit: nat, m: nat)
    requires unit > 0
    ensures (x + m * unit) % unit == x % unit
  {
    var q, r := x / unit, x % unit;
    assert x + m * unit == (q + m) * unit + r;
    Arith.Quotient(x + m * unit, unit, q + m, r);
  }

  lemma {:induction false} MultipleAbove(j: nat, k: nat)
    requires j <= k
    ensures Pow2(k) == Pow2(k - j) * Pow2(j)
    decreases k
  {
    if j < k {
      MultipleAbove(j, k - 1);
    }
  }

  /** The shadow keeps the last word of each channel register, that it was seen, and nothing else
      of it changes; the unused slots of the audio block are not kept. */
  lemma ShadowRegister(s: Shadow, ch: nat, reg: nat, value: Word)
    requires ShadowOk(s) && ch < CHANNELS && reg < 16
    ensures var index := reg / 2;
            Shadowed(s, 0xDFF0A0 + 0x10 * ch + reg, value) ==
            if index > 5 then s
            else s.(channels := s.channels[ch := ChannelShadow(s.channels[ch].reg[index := value],
                                                               s.channels[ch].seen + {index})])
  {
    var a := 0xDFF0A0 + 0x10 * ch + reg;
    assert RegisterOf(a) == 0xA0 + 0x10 * ch + reg / 2 * 2;
    assert (0x10 * ch + reg / 2 * 2) / 16 == ch && (0x10 * ch + reg / 2 * 2) % 16 == reg / 2 * 2;
    assert reg / 2 > 5 ==> s.channels[ch := s.channels[ch]] == s.channels;
  }

  /** The shadow takes the control words bit by bit as the chip does, on either byte lane. */
  lemma ShadowControl(s: Shadow, lane: nat, value: Word)
    requires ShadowOk(s) && lane < 2
    ensures Shadowed(s, 0xDFF096 + lane, value)
            == s.(dma := SetClr(s.dma, value), seenGlobal := s.seenGlobal + {Dma})
    ensures Shadowed(s, 0xDFF09A + lane, value)
            == s.(intEna := SetClr(s.intEna, value), seenGlobal := s.seenGlobal + {IntEna})
    ensures Shadowed(s, 0xDFF09C + lane, value)
            == s.(intReq := SetClr(s.intReq, value), seenGlobal := s.seenGlobal + {IntReq})
    ensures Shadowed(s, 0xDFF09E + lane, value)
            == s.(adkCon := SetClr(s.adkCon, value), seenGlobal := s.seenGlobal + {AdkCon})
  {
    assert RegisterOf(0xDFF096 + lane) == 0x96 && RegisterOf(0xDFF09A + lane) == 0x9A;
    assert RegisterOf(0xDFF09C + lane) == 0x9C && RegisterOf(0xDFF09E + lane) == 0x9E;
  }

  // ---------------------------------------------------------------- DMA and samples

  /** A sample byte is a signed number in two's complement. */
  lemma SignedIs(b: Byte)
    ensures -128 <= Signed(b) < 128 && (Signed(b) - b) % 256 == 0
  {
  }

  /** A channel plays only with its own bit and the master bit 9 of DMACON: otherwise it reads
      nothing, raises nothing and is silent. */
  lemma DmaGates(e: Exec, ch: nat, read: Reader)
    requires ExecOk(e) && ch < CHANNELS
    ensures var r := Advance(e, ch, read);
            var d := r.core.channels[ch];
            if ch in e.core.dmaCon && 9 in e.core.dmaCon then
              if e.core.channels[ch].onLowByte then |r.fetched| == |e.fetched| + 2
              else r.fetched == e.fetched && d.nextOut == Signed(d.sampleH)
            else r.fetched == e.fetched && r.irqs == e.irqs && d.curOut == d.nextOut == 0
  {
  }

  lemma {:induction false} MasterOffTicks(e: Exec, ch: nat, read: Reader)
    requires ExecOk(e) && ch < CHANNELS && 9 !in e.core.dmaCon
    ensures var r := Ticks(e, ch, read);
            r.fetched == e.fetched && r.irqs == e.irqs && r.core.dmaCon == e.core.dmaCon
    decreases Phase(e, ch).Floor
  {
    if Phase(e, ch) >= 1.0 {
      var d := WithPhase(e, ch, Phase(e, ch) - 1.0);
      DmaGates(d, ch, read);
      MasterOffTicks(Advance(d, ch, read), ch, read);
    }
  }

  lemma {:induction false} MasterOffMix(f: Frame, ch: nat, read: Reader)
    requires ExecOk(f.exec) && ch <= CHANNELS && 9 !in f.exec.core.dmaCon
    ensures MixFrom(f, ch, read).exec.fetched == f.exec.fetched && MixFrom(f, ch, read).exec.irqs == f.exec.irqs
    decreases CHANNELS - ch
  {
    if ch < CHANNELS {
      MasterOffTicks(Started(f.exec, ch), ch, read);
      MasterOffMix(MixChannel(f, ch, read), ch + 1, read);
    }
  }

  /** With the DMA master off a frame reads no memory and raises no interrupt. */
  lemma MasterOff(p: Core, read: Reader)
    requires CoreOk(p) && 9 !in p.dmaCon
    ensures RenderFrame(p, read).exec.fetched == [] && RenderFrame(p, read).exec.irqs == 0
  {
    MasterOffMix(FrameStart(p), 0, read);
  }

  /** The four control registers take their word bit by bit as bit 15 says; DMACON also starts
      and stops channels, and the others touch nothing else. */
  lemma ControlRegisters(p: Core, value: Word)
    requires CoreOk(p)
    ensures var dma := WriteRegister(p, 0xDFF096, value);
            && dma.dmaCon == SetClr(p.dmaCon, value)
            && dma == p.(dmaCon := dma.dmaCon, channels := dma.channels)
            && WriteRegister(p, 0xDFF09A, value) == p.(intEna := SetClr(p.intEna, value))
            && WriteRegister(p, 0xDFF09C, value) == p.(intReq := SetClr(p.intReq, value))
            && WriteRegister(p, 0xDFF09E, value) == p.(adkCon := SetClr(p.adkCon, value))
  {
  }
}
