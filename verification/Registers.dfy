/** Captured register writes: the producer's shadow of the latest registers, the event the
    consumer applies, and the rebuild of the core from a shadow. */
module Registers {
  import opened Words
  import opened PaulaCore

  datatype Event = Event(address: nat, value: Word, width: nat, ticks: nat)

  /** LCH, LCL, LEN, PER, VOL and DAT of one channel, and which of them were ever written. */
  datatype ChannelShadow = ChannelShadow(reg: seq<Word>, seen: set<nat>)

  datatype Global = Dma | IntEna | IntReq | AdkCon

  datatype Shadow = Shadow(
    channels: seq<ChannelShadow>, dma: Word, intEna: Word, intReq: Word, adkCon: Word,
    seenGlobal: set<Global>)

  const BLANK_CHANNEL: ChannelShadow := ChannelShadow([{}, {}, {}, {}, {}, {}], {})
  const BLANK: Shadow :=
    Shadow([BLANK_CHANNEL, BLANK_CHANNEL, BLANK_CHANNEL, BLANK_CHANNEL], {}, {}, {}, {}, {})

  ghost predicate ShadowOk(s: Shadow) {
    && |s.channels| == CHANNELS
    && (forall ch :: 0 <= ch < CHANNELS ==> |s.channels[ch].reg| == 6)
    && 15 !in s.dma && 15 !in s.intEna && 15 !in s.intReq && 15 !in s.adkCon
    && (Dma !in s.seenGlobal ==> s.dma == {})
    && (IntEna !in s.seenGlobal ==> s.intEna == {})
    && (AdkCon !in s.seenGlobal ==> s.adkCon == {})
  }

  // ---------------------------------------------------------------- the captured word

  /** The register an address selects: twelve bits, the lowest one ignored. */
  function RegisterOf(address: nat): nat {
    address % 0x1000 / 2 * 2
  }

  /** The byte bus puts a byte on both lanes. */
  function WordOf(value: Word, width: nat): Word {
    if width == 1 then (set i | i in value && i < 8) + (set i | i in value && i < 8 :: i + 8)
    else value
  }

  predicate IsAudioRegister(address: nat) {
    var r := address % 0x1000;
    0xA0 <= r <= 0xDB || 0x96 <= r <= 0x97 || 0x9A <= r <= 0x9F
  }

  predicate Offered(address: nat) {
    address % U24 / 0x1000 == 0xDFF && IsAudioRegister(address % U24)
  }

  /** Of the writes to the chip registers the filter drops only those that would change nothing,
      whatever the core and the value. */
  lemma DroppedWritesNothing(address: nat)
    ensures address % U24 / 0x1000 == 0xDFF && !Offered(address) ==>
              forall p: Core, v: Word :: CoreOk(p) ==> WriteRegister(p, address, v) == p
  {
    if !Offered(address) && address % U24 / 0x1000 == 0xDFF {
      forall p: Core, v: Word | CoreOk(p)
        ensures WriteRegister(p, address, v) == p
      {
        DroppedWrite(p, address, v);
      }
    }
  }

  lemma DroppedWrite(p: Core, address: nat, value: Word)
    requires CoreOk(p) && !IsAudioRegister(address % U24)
    ensures WriteRegister(p, address, value) == p
  {
    var r := address % 0x1000;
    assert address % U24 % 0x1000 == r;
    if AUD_BASE <= r < AUD_BASE + 16 * CHANNELS {
      assert (r - AUD_BASE) / 16 == 3 && (r - AUD_BASE) % 16 >= 12;
      assert p.channels[3 := p.channels[3]] == p.channels;
    }
  }

  /** It lets in the audio block, and DMACON, INTENA, INTREQ and ADKCON on either byte lane. */
  lemma OfferedIff(address: nat)
    ensures Offered(address) <==>
            && address % 0x100_0000 / 0x1000 == 0xDFF
            && var r := address % 0x1000;
               r == 0x96 || r == 0x97 || 0x9A <= r <= 0x9F || 0xA0 <= r < 0xDC
  {
    assert address % U24 % 0x1000 == address % 0x1000;
  }

  /** What the Classic bus emits: a byte, or a word at an even address. */
  predicate BusEvent(e: Event) {
    && Offered(e.address) && e.address < U24
    && (e.width == 1 || (e.width == 2 && e.address % 2 == 0))
  }

  // ---------------------------------------------------------------- the producer's shadow

  function ShadowChannel(c: ChannelShadow, reg: nat, value: Word): ChannelShadow
    requires |c.reg| == 6
  {
    if reg % 2 == 1 || reg > 10 then c
    else ChannelShadow(c.reg[reg / 2 := value], c.seen + {reg / 2})
  }

  function Shadowed(s: Shadow, address: nat, value: Word): (s': Shadow)
    requires ShadowOk(s)
    ensures ShadowOk(s')
  {
    ShadowedAt(s, RegisterOf(address), value)
  }

  function ShadowedAt(s: Shadow, r: nat, value: Word): (s': Shadow)
    requires ShadowOk(s)
    ensures ShadowOk(s')
  {
    if r == DMACON then s.(dma := SetClr(s.dma, value), seenGlobal := s.seenGlobal + {Dma})
    else if r == INTENA then s.(intEna := SetClr(s.intEna, value), seenGlobal := s.seenGlobal + {IntEna})
    else if r == INTREQ then s.(intReq := SetClr(s.intReq, value), seenGlobal := s.seenGlobal + {IntReq})
    else if r == ADKCON then s.(adkCon := SetClr(s.adkCon, value), seenGlobal := s.seenGlobal + {AdkCon})
    else if r < AUD_BASE || r > 0xDA then s
    else
      var ch, reg := (r - AUD_BASE) / 16, (r - AUD_BASE) % 16;
      if ch >= CHANNELS then s
      else s.(channels := s.channels[ch := ShadowChannel(s.channels[ch], reg, value)])
  }

  // ---------------------------------------------------------------- the consumer's core

  /** Apply a captured write to the core; malformed ones are ignored. */
  function Applied(p: Core, e: Event): (r: Core)
    requires CoreOk(p)
    ensures CoreOk(r)
  {
    if e.width != 1 && e.width != 2 then p
    else if e.width == 2 && e.address % 2 == 1 then p
    else WriteRegister(p, 0xDFF000 + RegisterOf(e.address), WordOf(e.value, e.width))
  }

  function AppliedAll(p: Core, events: seq<Event>): (r: Core)
    requires CoreOk(p)
    ensures CoreOk(r)
    decreases |events|
  {
    if events == [] then p else AppliedAll(Applied(p, events[0]), events[1..])
  }

  /** The rebuild writes only registers that were seen, in register order. */
  function RestoredRegister(p: Core, s: ChannelShadow, ch: nat, reg: nat): (r: Core)
    requires CoreOk(p) && |s.reg| == 6 && ch < CHANNELS && reg < 5
    ensures CoreOk(r)
  {
    if reg !in s.seen then p
    else Applied(p, Event(0xDFF0A0 + 16 * ch + 2 * reg, s.reg[reg], 2, 0))
  }

  function RestoredRegisters(p: Core, s: ChannelShadow, ch: nat, reg: nat): (r: Core)
    requires CoreOk(p) && |s.reg| == 6 && ch < CHANNELS && reg <= 5
    ensures CoreOk(r)
    decreases 5 - reg, s
  {
    if reg == 5 then p else RestoredRegisters(RestoredRegister(p, s, ch, reg), s, ch, reg + 1)
  }

  function RestoredChannels(p: Core, s: Shadow, ch: nat): (r: Core)
    requires CoreOk(p) && ShadowOk(s) && ch <= CHANNELS
    ensures CoreOk(r)
    decreases CHANNELS - ch, s
  {
    if ch == CHANNELS then p
    else RestoredChannels(RestoredRegisters(p, s.channels[ch], ch, 0), s, ch + 1)
  }

  /** The interrupt and modulation registers. */
  function BeforeDma(p: Core, s: Shadow): (r: Core)
    requires CoreOk(p)
    ensures CoreOk(r)
  {
    var p1 := if IntEna in s.seenGlobal then WriteRegister(p, 0xDFF09A, s.intEna + {15}) else p;
    var p2 := if IntReq in s.seenGlobal then WriteRegister(p1, 0xDFF09C, s.intReq + {15}) else p1;
    if AdkCon in s.seenGlobal then WriteRegister(p2, 0xDFF09E, s.adkCon + {15}) else p2
  }

  /** They are set first, then DMA is enabled last. */
  function RestoredGlobals(p: Core, s: Shadow): (r: Core)
    requires CoreOk(p)
    ensures CoreOk(r)
  {
    var p3 := BeforeDma(p, s);
    if Dma in s.seenGlobal then Applied(p3, Event(0xDFF096, s.dma + {15}, 2, 0)) else p3
  }

  function Restored(p: Core, s: Shadow): (r: Core)
    requires CoreOk(p) && ShadowOk(s)
    ensures CoreOk(r)
  {
    RestoredGlobals(RestoredChannels(ResetCore(p), s, 0), s)
  }

  // ---------------------------------------------------------------- latched registers

  /** What a register write latches, without the live DMA cursor and without INTREQ. */
  datatype Latch = Latch(loc: nat, len: nat, period: nat, volume: nat)
  datatype Latches = Latches(channels: seq<Latch>, dma: Word, intEna: Word, adkCon: Word)

  function LatchOf(c: Channel): Latch {
    Latch(c.locLatched, c.lenLatched, c.period, c.volume)
  }

  function LatchesOf(p: Core): (l: Latches)
    requires CoreOk(p)
    ensures |l.channels| == CHANNELS
    ensures forall ch :: 0 <= ch < CHANNELS ==> l.channels[ch] == LatchOf(p.channels[ch])
  {
    Latches(seq(CHANNELS, ch requires 0 <= ch < CHANNELS => LatchOf(p.channels[ch])),
            p.dmaCon, p.intEna, p.adkCon)
  }

  function Word16(c: ChannelShadow, index: nat): nat
    requires |c.reg| == 6 && index < 6
  {
    if index in c.seen then Number(c.reg[index]) else 0
  }

  /** The registers a shadow stands for. An unwritten register has its reset value. */
  function ChannelView(c: ChannelShadow): Latch
    requires |c.reg| == 6
  {
    Latch(Word16(c, 0) * U16 + Word16(c, 1),
          if 2 in c.seen then LengthOf(Number(c.reg[2])) else 0,
          if Word16(c, 3) == 0 then 1 else Word16(c, 3),
          if 4 in c.seen then Number(set i | i in c.reg[4] && i < 7) else 0)
  }

  function View(s: Shadow): (l: Latches)
    requires ShadowOk(s)
    ensures |l.channels| == CHANNELS
    ensures forall ch :: 0 <= ch < CHANNELS ==> l.channels[ch] == ChannelView(s.channels[ch])
  {
    Latches(seq(CHANNELS, ch requires 0 <= ch < CHANNELS => ChannelView(s.channels[ch])),
            s.dma, s.intEna, s.adkCon)
  }

  ghost predicate Tracks(p: Core, s: Shadow) {
    CoreOk(p) && ShadowOk(s) && LatchesOf(p) == View(s)
  }

  // ---------------------------------------------------------------- tracking

  lemma LocationTracks(c: Channel, s: ChannelShadow, reg: nat, value: Word)
    requires ChannelOk(c) && |s.reg| == 6 && LatchOf(c) == ChannelView(s) && (reg == 0 || reg == 2)
    ensures LatchOf(ChannelWrite(c, reg, value)) == ChannelView(ShadowChannel(s, reg, value))
  {
    var high, low := Word16(s, 0), Word16(s, 1);
    assert c.locLatched / U16 == high && c.locLatched % U16 == low;
  }

  lemma ChannelTracks(c: Channel, s: ChannelShadow, reg: nat, value: Word)
    requires ChannelOk(c) && |s.reg| == 6 && LatchOf(c) == ChannelView(s) && reg % 2 == 0
    ensures LatchOf(ChannelWrite(c, reg, value)) == ChannelView(ShadowChannel(s, reg, value))
  {
    if reg == 0 || reg == 2 {
      LocationTracks(c, s, reg, value);
    } else if reg == 4 {
      LengthTracks(c, s, value);
    } else if reg == 6 {
      PeriodTracks(c, s, value);
    } else if reg == 8 {
      VolumeTracks(c, s, value);
    }
  }

  lemma LengthTracks(c: Channel, s: ChannelShadow, value: Word)
    requires ChannelOk(c) && |s.reg| == 6 && LatchOf(c) == ChannelView(s)
    ensures LatchOf(ChannelWrite(c, 4, value)) == ChannelView(ShadowChannel(s, 4, value))
  {
  }

  lemma PeriodTracks(c: Channel, s: ChannelShadow, value: Word)
    requires ChannelOk(c) && |s.reg| == 6 && LatchOf(c) == ChannelView(s)
    ensures LatchOf(ChannelWrite(c, 6, value)) == ChannelView(ShadowChannel(s, 6, value))
  {
  }

  lemma VolumeTracks(c: Channel, s: ChannelShadow, value: Word)
    requires ChannelOk(c) && |s.reg| == 6 && LatchOf(c) == ChannelView(s)
    ensures LatchOf(ChannelWrite(c, 8, value)) == ChannelView(ShadowChannel(s, 8, value))
  {
  }

  lemma AudioWriteTracks(p: Core, s: Shadow, ch: nat, reg: nat, value: Word)
    requires Tracks(p, s) && ch < CHANNELS && reg % 2 == 0
    ensures Tracks(p.(channels := p.channels[ch := ChannelWrite(p.channels[ch], reg, value)]),
                   s.(channels := s.channels[ch := ShadowChannel(s.channels[ch], reg, value)]))
  {
    assert LatchesOf(p).channels[ch] == View(s).channels[ch];
    ChannelTracks(p.channels[ch], s.channels[ch], reg, value);
    var p' := p.(channels := p.channels[ch := ChannelWrite(p.channels[ch], reg, value)]);
    var s' := s.(channels := s.channels[ch := ShadowChannel(s.channels[ch], reg, value)]);
    forall i | 0 <= i < CHANNELS
      ensures LatchesOf(p').channels[i] == View(s').channels[i]
    {
      assert LatchesOf(p).channels[i] == View(s).channels[i];
    }
  }

  lemma GatingKeepsLatches(p: Core, address: nat, value: Word)
    requires CoreOk(p) && address % 0x1000 == DMACON
    ensures LatchesOf(WriteRegister(p, address, value)) == LatchesOf(p).(dma := SetClr(p.dmaCon, value))
  {
    var p' := WriteRegister(p, address, value);
    forall i | 0 <= i < CHANNELS
      ensures LatchesOf(p').channels[i] == LatchesOf(p).channels[i]
    {
    }
  }

  lemma GlobalWrite(p: Core, value: Word)
    requires CoreOk(p)
    ensures WriteRegister(p, 0xDFF09A, value) == p.(intEna := SetClr(p.intEna, value))
    ensures WriteRegister(p, 0xDFF09C, value) == p.(intReq := SetClr(p.intReq, value))
    ensures WriteRegister(p, 0xDFF09E, value) == p.(adkCon := SetClr(p.adkCon, value))
  {
    assert 0xDFF09A % 0x1000 == INTENA && 0xDFF09C % 0x1000 == INTREQ && 0xDFF09E % 0x1000 == ADKCON;
  }

  lemma GlobalWriteTracks(p: Core, s: Shadow, address: nat, value: Word)
    requires Tracks(p, s) && RegisterOf(address) in {INTENA, INTREQ, ADKCON}
    ensures Tracks(WriteRegister(p, 0xDFF000 + RegisterOf(address), value), Shadowed(s, address, value))
  {
    GlobalWrite(p, value);
    var p' := WriteRegister(p, 0xDFF000 + RegisterOf(address), value);
    assert p'.channels == p.channels;
    assert LatchesOf(p') == LatchesOf(p).(intEna := p'.intEna, adkCon := p'.adkCon);
  }

  lemma OtherWriteTracks(p: Core, s: Shadow, address: nat, value: Word)
    requires Tracks(p, s)
    requires var r := RegisterOf(address); r !in {DMACON, INTENA, INTREQ, ADKCON} && (r < AUD_BASE || r > 0xDA)
    ensures Tracks(WriteRegister(p, 0xDFF000 + RegisterOf(address), value), Shadowed(s, address, value))
  {
    var r := RegisterOf(address);
    assert (0xDFF000 + r) % 0x1000 == r && r % 2 == 0;
    if AUD_BASE <= r < AUD_BASE + 16 * CHANNELS {
      assert r == 0xDC || r == 0xDE;
      PaddingWriteIgnored(p, r - AUD_BASE, value);
    }
  }

  lemma PaddingWriteIgnored(p: Core, offset: nat, value: Word)
    requires CoreOk(p) && (offset == 0x3C || offset == 0x3E)
    ensures WriteChannel(p, offset, value) == p
  {
  }

  lemma DmaWriteTracks(p: Core, s: Shadow, address: nat, value: Word)
    requires Tracks(p, s) && RegisterOf(address) == DMACON
    ensures Tracks(WriteRegister(p, 0xDFF000 + RegisterOf(address), value), Shadowed(s, address, value))
  {
    GatingKeepsLatches(p, 0xDFF000 + DMACON, value);
  }

  lemma AudioRegisterWrite(p: Core, r: nat, value: Word)
    requires CoreOk(p) && AUD_BASE <= r < AUD_BASE + 16 * CHANNELS
    ensures var ch := (r - AUD_BASE) / 16;
            WriteRegister(p, 0xDFF000 + r, value) ==
            p.(channels := p.channels[ch := ChannelWrite(p.channels[ch], (r - AUD_BASE) % 16, value)])
  {
    AudioDispatch(p, r, value);
    var offset := r - AUD_BASE;
    assert WriteChannel(p, offset, value) ==
           p.(channels := p.channels[offset / 16 := ChannelWrite(p.channels[offset / 16], offset % 16, value)]);
  }

  lemma AudioDispatch(p: Core, r: nat, value: Word)
    requires CoreOk(p) && AUD_BASE <= r < AUD_BASE + 16 * CHANNELS
    ensures WriteRegister(p, 0xDFF000 + r, value) == WriteChannel(p, r - AUD_BASE, value)
  {
    assert (0xDFF000 + r) % 0x1000 == r;
  }

  lemma AudioShadowWrite(s: Shadow, r: nat, value: Word)
    requires ShadowOk(s) && AUD_BASE <= r <= 0xDA
    ensures var ch := (r - AUD_BASE) / 16;
            ch < CHANNELS
            && ShadowedAt(s, r, value) ==
               s.(channels := s.channels[ch := ShadowChannel(s.channels[ch], (r - AUD_BASE) % 16, value)])
  {
  }

  lemma EvenOffset(r: nat)
    requires r % 2 == 0 && r >= AUD_BASE
    ensures (r - AUD_BASE) % 16 % 2 == 0
  {
  }

  lemma AudioRegisterTracks(p: Core, s: Shadow, r: nat, value: Word)
    requires Tracks(p, s) && AUD_BASE <= r <= 0xDA && r % 2 == 0
    ensures Tracks(WriteRegister(p, 0xDFF000 + r, value), ShadowedAt(s, r, value))
  {
    AudioRegisterWrite(p, r, value);
    AudioShadowWrite(s, r, value);
    EvenOffset(r);
    AudioWriteTracks(p, s, (r - AUD_BASE) / 16, (r - AUD_BASE) % 16, value);
  }

  /** Writing a word to the core and to the shadow keeps them in step. */
  lemma WriteTracks(p: Core, s: Shadow, address: nat, value: Word)
    requires Tracks(p, s)
    ensures Tracks(WriteRegister(p, 0xDFF000 + RegisterOf(address), value), Shadowed(s, address, value))
  {
    var r := RegisterOf(address);
    if r == DMACON {
      DmaWriteTracks(p, s, address, value);
    } else if r == INTENA || r == INTREQ || r == ADKCON {
      GlobalWriteTracks(p, s, address, value);
    } else if r < AUD_BASE || r > 0xDA {
      OtherWriteTracks(p, s, address, value);
    } else {
      AudioRegisterTracks(p, s, r, value);
    }
  }

  /** A bus event moves the consumer's registers exactly as its capture moved the shadow. */
  lemma ShadowTracksApply(p: Core, s: Shadow, e: Event)
    requires Tracks(p, s) && BusEvent(e)
    ensures Tracks(Applied(p, e), Shadowed(s, e.address, WordOf(e.value, e.width)))
  {
    WriteTracks(p, s, e.address, WordOf(e.value, e.width));
  }

  lemma ChannelCongruent(c: Channel, d: Channel, reg: nat, value: Word)
    requires ChannelOk(c) && ChannelOk(d) && LatchOf(c) == LatchOf(d)
    ensures LatchOf(ChannelWrite(c, reg, value)) == LatchOf(ChannelWrite(d, reg, value))
  {
  }

  lemma AudioCongruent(p: Core, q: Core, offset: nat, value: Word)
    requires CoreOk(p) && CoreOk(q) && LatchesOf(p) == LatchesOf(q) && offset < 16 * CHANNELS
    ensures LatchesOf(WriteChannel(p, offset, value)) == LatchesOf(WriteChannel(q, offset, value))
  {
    var p', q' := WriteChannel(p, offset, value), WriteChannel(q, offset, value);
    var ch := offset / 16;
    assert LatchesOf(p).channels[ch] == LatchesOf(q).channels[ch];
    ChannelCongruent(p.channels[ch], q.channels[ch], offset % 16, value);
    forall i | 0 <= i < CHANNELS
      ensures LatchesOf(p').channels[i] == LatchesOf(q').channels[i]
    {
      assert LatchesOf(p).channels[i] == LatchesOf(q).channels[i];
    }
  }

  lemma OtherCongruent(p: Core, q: Core, address: nat, value: Word)
    requires CoreOk(p) && CoreOk(q) && LatchesOf(p) == LatchesOf(q)
    requires var r := address % 0x1000;
             r != DMACON && !(AUD_BASE <= r < AUD_BASE + 16 * CHANNELS)
    ensures LatchesOf(WriteRegister(p, address, value)) == LatchesOf(WriteRegister(q, address, value))
  {
    var p', q' := WriteRegister(p, address, value), WriteRegister(q, address, value);
    assert p'.channels == p.channels && q'.channels == q.channels;
    assert LatchesOf(p').channels == LatchesOf(p).channels == LatchesOf(q).channels == LatchesOf(q').channels;
  }

  lemma GatingCongruent(p: Core, q: Core, address: nat, value: Word)
    requires CoreOk(p) && CoreOk(q) && LatchesOf(p) == LatchesOf(q) && address % 0x1000 == DMACON
    ensures LatchesOf(WriteRegister(p, address, value)) == LatchesOf(WriteRegister(q, address, value))
  {
    GatingKeepsLatches(p, address, value);
    GatingKeepsLatches(q, address, value);
    assert LatchesOf(p).dma == LatchesOf(q).dma;
  }

  lemma AudioDispatched(p: Core, address: nat, value: Word)
    requires CoreOk(p) && AUD_BASE <= address % 0x1000 < AUD_BASE + 16 * CHANNELS
    ensures WriteRegister(p, address, value) == WriteChannel(p, address % 0x1000 - AUD_BASE, value)
  {
  }

  lemma AudioWriteCongruent(p: Core, q: Core, address: nat, value: Word)
    requires CoreOk(p) && CoreOk(q) && LatchesOf(p) == LatchesOf(q)
    requires AUD_BASE <= address % 0x1000 < AUD_BASE + 16 * CHANNELS
    ensures LatchesOf(WriteRegister(p, address, value)) == LatchesOf(WriteRegister(q, address, value))
  {
    var offset := address % 0x1000 - AUD_BASE;
    var p', q' := WriteRegister(p, address, value), WriteRegister(q, address, value);
    assert p' == WriteChannel(p, offset, value) by { AudioDispatched(p, address, value); }
    assert q' == WriteChannel(q, offset, value) by { AudioDispatched(q, address, value); }
    assert LatchesOf(p') == LatchesOf(q') by { AudioCongruent(p, q, offset, value); }
  }

  /** What a write latches depends only on what was latched. */
  lemma WriteCongruent(p: Core, q: Core, address: nat, value: Word)
    requires CoreOk(p) && CoreOk(q) && LatchesOf(p) == LatchesOf(q)
    ensures LatchesOf(WriteRegister(p, address, value)) == LatchesOf(WriteRegister(q, address, value))
  {
    var r := address % 0x1000;
    if r == DMACON {
      GatingCongruent(p, q, address, value);
    } else if AUD_BASE <= r < AUD_BASE + 16 * CHANNELS {
      AudioWriteCongruent(p, q, address, value);
    } else {
      OtherCongruent(p, q, address, value);
    }
  }

  /** So does what a captured write latches. */
  lemma AppliedCongruent(p: Core, q: Core, e: Event)
    requires CoreOk(p) && CoreOk(q) && LatchesOf(p) == LatchesOf(q)
    ensures LatchesOf(Applied(p, e)) == LatchesOf(Applied(q, e))
  {
    WriteCongruent(p, q, 0xDFF000 + RegisterOf(e.address), WordOf(e.value, e.width));
  }

  lemma {:induction false} AllCongruent(p: Core, q: Core, events: seq<Event>)
    requires CoreOk(p) && CoreOk(q) && LatchesOf(p) == LatchesOf(q)
    ensures LatchesOf(AppliedAll(p, events)) == LatchesOf(AppliedAll(q, events))
    decreases |events|
  {
    if events != [] {
      var e := events[0];
      AppliedCongruent(p, q, e);
      AllCongruent(Applied(p, e), Applied(q, e), events[1..]);
    }
  }

  lemma {:induction false} AllExtends(p: Core, events: seq<Event>, e: Event)
    requires CoreOk(p)
    ensures AppliedAll(p, events + [e]) == Applied(AppliedAll(p, events), e)
    decreases |events|
  {
    if events == [] {
      assert AppliedAll(p, [e]) == AppliedAll(Applied(p, e), [e][1..]);
    } else {
      assert (events + [e])[1..] == events[1..] + [e];
      AllExtends(Applied(p, events[0]), events[1..], e);
    }
  }

  // ---------------------------------------------------------------- restoring

  function ChannelRestored(c: Channel, s: ChannelShadow, reg: nat): (r: Channel)
    requires ChannelOk(c) && |s.reg| == 6 && reg <= 5
    ensures ChannelOk(r)
    decreases 5 - reg, s
  {
    if reg == 5 then c
    else ChannelRestored(if reg in s.seen then ChannelWrite(c, 2 * reg, s.reg[reg]) else c, s, reg + 1)
  }

  lemma AudioWrite(p: Core, offset: nat, value: Word)
    requires CoreOk(p) && offset < 16 * CHANNELS && offset % 2 == 0
    ensures Applied(p, Event(0xDFF0A0 + offset, value, 2, 0)) == WriteChannel(p, offset, value)
  {
    AudioRegisterOf(offset);
    WordApplied(p, 0xDFF0A0 + offset, value);
    AudioDispatch(p, AUD_BASE + offset, value);
  }

  lemma WordApplied(p: Core, address: nat, value: Word)
    requires CoreOk(p) && address % 2 == 0
    ensures Applied(p, Event(address, value, 2, 0)) == WriteRegister(p, 0xDFF000 + RegisterOf(address), value)
  {
    assert WordOf(value, 2) == value;
  }

  lemma AudioRegisterOf(offset: nat)
    requires offset < 16 * CHANNELS && offset % 2 == 0
    ensures RegisterOf(0xDFF0A0 + offset) == AUD_BASE + offset && (0xDFF0A0 + offset) % 2 == 0
  {
  }

  lemma RestoredRegisterIs(p: Core, s: ChannelShadow, ch: nat, reg: nat)
    requires CoreOk(p) && |s.reg| == 6 && ch < CHANNELS && reg < 5 && reg in s.seen
    ensures RestoredRegister(p, s, ch, reg) ==
            p.(channels := p.channels[ch := ChannelWrite(p.channels[ch], 2 * reg, s.reg[reg])])
  {
    SlotOffset(ch, reg);
    AudioWrite(p, 16 * ch + 2 * reg, s.reg[reg]);
  }

  lemma SlotOffset(ch: nat, reg: nat)
    requires ch < CHANNELS && reg < 5
    ensures var offset := 16 * ch + 2 * reg;
            offset < 16 * CHANNELS && offset % 2 == 0 && offset / 16 == ch && offset % 16 == 2 * reg
  {
  }

  lemma {:induction false} RestoredRegistersAre(p: Core, s: ChannelShadow, ch: nat, reg: nat)
    requires CoreOk(p) && |s.reg| == 6 && ch < CHANNELS && reg <= 5
    ensures RestoredRegisters(p, s, ch, reg) ==
            p.(channels := p.channels[ch := ChannelRestored(p.channels[ch], s, reg)])
    decreases 5 - reg
  {
    if reg < 5 {
      var p' := RestoredRegister(p, s, ch, reg);
      if reg in s.seen {
        RestoredRegisterIs(p, s, ch, reg);
      }
      RestoredRegistersAre(p', s, ch, reg + 1);
    }
  }

  lemma LocationRestored(s: ChannelShadow)
    requires |s.reg| == 6
    ensures var c := ChannelRestored(RESET_CHANNEL, s, 0);
            var c0 := if 0 in s.seen then ChannelWrite(RESET_CHANNEL, 0, s.reg[0]) else RESET_CHANNEL;
            var c1 := if 1 in s.seen then ChannelWrite(c0, 2, s.reg[1]) else c0;
            && c1 == RESET_CHANNEL.(locLatched := Word16(s, 0) * U16 + Word16(s, 1))
            && c == ChannelRestored(c1, s, 2)
  {
  }

  lemma ChannelRestoredExact(s: ChannelShadow)
    requires |s.reg| == 6
    ensures LatchOf(ChannelRestored(RESET_CHANNEL, s, 0)) == ChannelView(s)
  {
    LocationRestored(s);
    var c1 := RESET_CHANNEL.(locLatched := Word16(s, 0) * U16 + Word16(s, 1));
    var c2 := if 2 in s.seen then ChannelWrite(c1, 4, s.reg[2]) else c1;
    var c3 := if 3 in s.seen then ChannelWrite(c2, 6, s.reg[3]) else c2;
    var c4 := if 4 in s.seen then ChannelWrite(c3, 8, s.reg[4]) else c3;
    assert ChannelRestored(c1, s, 2) == ChannelRestored(c2, s, 3) == ChannelRestored(c3, s, 4) == c4;
  }

  lemma {:induction false} RestoredChannelsExact(p: Core, s: Shadow, ch: nat)
    requires CoreOk(p) && ShadowOk(s) && ch <= CHANNELS
    requires forall i :: 0 <= i < ch ==> LatchOf(p.channels[i]) == ChannelView(s.channels[i])
    requires forall i :: ch <= i < CHANNELS ==> p.channels[i] == RESET_CHANNEL
    ensures var p' := RestoredChannels(p, s, ch);
            && p'.dmaCon == p.dmaCon && p'.intEna == p.intEna && p'.adkCon == p.adkCon
            && forall i :: 0 <= i < CHANNELS ==> LatchOf(p'.channels[i]) == ChannelView(s.channels[i])
    decreases CHANNELS - ch
  {
    if ch < CHANNELS {
      RestoredRegistersAre(p, s.channels[ch], ch, 0);
      ChannelRestoredExact(s.channels[ch]);
      RestoredChannelsExact(RestoredRegisters(p, s.channels[ch], ch, 0), s, ch + 1);
    }
  }

  /** Setting a cleared register to w with bit 15 up leaves w. */
  lemma SetFromClear(w: Word)
    requires 15 !in w
    ensures SetClr({}, w + {15}) == w
  {
  }

  /** The registers other than DMA, before DMA is enabled. */
  lemma InterruptsRestored(p: Core, s: Shadow) returns (p3: Core)
    requires CoreOk(p) && ShadowOk(s) && p.dmaCon == p.intEna == p.adkCon == {}
    ensures CoreOk(p3) && p3 == p.(intEna := s.intEna, intReq := p3.intReq, adkCon := s.adkCon)
    ensures RestoredGlobals(p, s) ==
            if Dma in s.seenGlobal then Applied(p3, Event(0xDFF096, s.dma + {15}, 2, 0)) else p3
  {
    GlobalWrite(p, s.intEna + {15});
    SetFromClear(s.intEna);
    var p1 := p.(intEna := s.intEna);
    GlobalWrite(p1, s.intReq + {15});
    var p2 := if IntReq in s.seenGlobal then p1.(intReq := SetClr(p.intReq, s.intReq + {15})) else p1;
    GlobalWrite(p2, s.adkCon + {15});
    SetFromClear(s.adkCon);
    p3 := p2.(adkCon := s.adkCon);
  }

  lemma GlobalsRestored(p: Core, s: Shadow)
    requires CoreOk(p) && ShadowOk(s) && p.dmaCon == p.intEna == p.adkCon == {}
    ensures LatchesOf(RestoredGlobals(p, s)) == LatchesOf(p).(dma := s.dma, intEna := s.intEna, adkCon := s.adkCon)
  {
    var p3 := InterruptsRestored(p, s);
    assert LatchesOf(p3) == LatchesOf(p).(intEna := s.intEna, adkCon := s.adkCon);
    if Dma in s.seenGlobal {
      SetFromClear(s.dma);
      assert RegisterOf(0xDFF096) == DMACON && (0xDFF000 + DMACON) % 0x1000 == DMACON;
      GatingKeepsLatches(p3, 0xDFF000 + DMACON, s.dma + {15});
    }
  }

  /** The rebuild latches exactly the registers of the shadow, whatever the core held. */
  lemma RestoreExact(p: Core, s: Shadow)
    requires CoreOk(p) && ShadowOk(s)
    ensures Tracks(Restored(p, s), s)
  {
    var p1 := RestoredChannels(ResetCore(p), s, 0);
    RestoredChannelsExact(ResetCore(p), s, 0);
    GlobalsRestored(p1, s);
    assert LatchesOf(p1).channels == View(s).channels;
  }

  // ---------------------------------------------------------------- rendering

  lemma TicksKeepLatches(e: Exec, ch: nat, read: Reader)
    requires ExecOk(e) && ch < CHANNELS
    ensures SameLatches(e.core, Ticks(e, ch, read).core)
    decreases Phase(e, ch).Floor
  {
    if Phase(e, ch) >= 1.0 {
      TicksKeepLatches(Advance(WithPhase(e, ch, Phase(e, ch) - 1.0), ch, read), ch, read);
    }
  }

  ghost predicate SameLatches(p: Core, q: Core) {
    && CoreOk(p) && CoreOk(q)
    && p.dmaCon == q.dmaCon && p.intEna == q.intEna && p.adkCon == q.adkCon
    && forall ch :: 0 <= ch < CHANNELS ==> LatchOf(p.channels[ch]) == LatchOf(q.channels[ch])
  }

  lemma {:induction false} MixKeepsLatches(f: Frame, ch: nat, read: Reader)
    requires ExecOk(f.exec) && ch <= CHANNELS
    ensures SameLatches(f.exec.core, MixFrom(f, ch, read).exec.core)
    decreases CHANNELS - ch
  {
    if ch < CHANNELS {
      TicksKeepLatches(Started(f.exec, ch), ch, read);
      MixKeepsLatches(MixChannel(f, ch, read), ch + 1, read);
    }
  }

  /** Rendering a frame latches nothing. */
  lemma RenderKeepsLatches(p: Core, read: Reader)
    requires CoreOk(p)
    ensures LatchesOf(RenderFrame(p, read).exec.core) == LatchesOf(p)
  {
    MixKeepsLatches(FrameStart(p), 0, read);
    assert LatchesOf(RenderFrame(p, read).exec.core).channels == LatchesOf(p).channels;
  }
}
