/** The Paula core as the C++ object holds it: fields updated in place by register writes
    and by rendering. Each method's contract is the function that specifies it. */
module Paula {
  import opened Words
  import opened PaulaCore
  import opened PaulaMix

  lemma MixAppends(e: Exec, parts: seq<Part>, ch: nat, read: Reader)
    requires ExecOk(e) && ch < CHANNELS
    ensures var alone := MixChannel(Frame(e, []), ch, read);
            MixFrom(Frame(e, parts), ch, read) == MixFrom(Frame(alone.exec, parts + alone.parts), ch + 1, read)
  {
    var alone := MixChannel(Frame(e, []), ch, read);
    assert MixChannel(Frame(e, parts), ch, read) == Frame(alone.exec, parts + alone.parts);
  }

  lemma SumsAppend(parts: seq<Part>, part: Part)
    ensures Left(parts + [part]) == Left(parts) + LeftOf(part)
    ensures Right(parts + [part]) == Right(parts) + RightOf(part)
  {
    assert (parts + [part])[..|parts|] == parts;
  }

  class Paula {
    var channels: seq<Channel>
    var dmaCon: Word
    var intReq: Word
    var intEna: Word
    var adkCon: Word
    var interp: Interpolation
    var stereoSep: real
    var stereoCurrent: real
    var muted: seq<bool>
    var mixGain: seq<real>
    /** What the two callbacks have seen since the frame began. */
    var fetched: seq<nat>
    var irqs: nat

    ghost function Abs(): Core
      reads this
    {
      Core(channels, dmaCon, intReq, intEna, adkCon, interp, stereoSep, stereoCurrent, muted, mixGain)
    }

    ghost function Running(): Exec
      reads this
    {
      Exec(Abs(), fetched, irqs)
    }

    ghost predicate Valid()
      reads this
    {
      CoreOk(Abs())
    }

    constructor ()
      ensures Valid() && fetched == [] && irqs == 0
      ensures Abs() == Core(seq(CHANNELS, _ => RESET_CHANNEL), {}, {}, {}, {}, Nearest, 0.85, 1.0,
                            [false, false, false, false], [1.0, 1.0, 1.0, 1.0])
    {
      channels := seq(CHANNELS, _ => RESET_CHANNEL);
      dmaCon, intReq, intEna, adkCon := {}, {}, {}, {};
      interp, stereoSep, stereoCurrent := Nearest, 0.85, 1.0;
      muted, mixGain := [false, false, false, false], [1.0, 1.0, 1.0, 1.0];
      fetched, irqs := [], 0;
    }

    method Reset()
      requires Valid()
      modifies this`channels, this`dmaCon, this`intReq, this`intEna, this`adkCon
      ensures Valid() && Abs() == ResetCore(old(Abs()))
    {
      channels := seq(CHANNELS, _ => RESET_CHANNEL);
      dmaCon, intReq, intEna, adkCon := {}, {}, {}, {};
    }

    /** Assignment of a saved core, as *core = saved. */
    method Restore(saved: Core)
      requires CoreOk(saved)
      modifies this
      ensures Valid() && Abs() == saved && fetched == [] && irqs == 0
    {
      channels := saved.channels;
      dmaCon, intReq, intEna, adkCon := saved.dmaCon, saved.intReq, saved.intEna, saved.adkCon;
      interp, stereoSep, stereoCurrent := saved.interp, saved.stereoSep, saved.stereoCurrent;
      muted, mixGain := saved.muted, saved.mixGain;
      fetched, irqs := [], 0;
    }

    /** The callbacks have seen nothing of the coming frame. */
    method BeginFrame()
      modifies this`fetched, this`irqs
      ensures fetched == [] && irqs == 0
    {
      fetched, irqs := [], 0;
    }

    method Save() returns (saved: Core)
      ensures saved == Abs()
    {
      saved := Core(channels, dmaCon, intReq, intEna, adkCon, interp, stereoSep, stereoCurrent, muted, mixGain);
    }

    /** A channel that just came on re-primes; one already running is left alone. */
    method GateChannel(ch: nat)
      requires Valid() && ch < CHANNELS
      modifies this`channels
      ensures Valid() && channels == old(channels)[ch := Gated(old(channels)[ch], Enabled(dmaCon, ch))]
    {
      var c := channels[ch];
      if ch in dmaCon && DMA_MASTER in dmaCon {
        if c.wantsRestart {
          c := c.(curPtr := c.locLatched, wordsLeft := c.lenLatched);
          c := c.(onLowByte := true, sampleL := 0, sampleH := 0, curOut := 0, nextOut := 0);
          c := c.(phase := 0.0, wantsRestart := false);
        }
      } else {
        c := c.(wantsRestart := true);
      }
      channels := channels[ch := c];
    }

    method WriteDmaCon(value: Word)
      requires Valid()
      modifies this`dmaCon, this`channels
      ensures Valid() && dmaCon == SetClr(old(dmaCon), value)
      ensures channels == GatedAll(old(channels), dmaCon)
    {
      var bits := value - {15};
      if 15 in value {
        dmaCon := dmaCon + bits;
      } else {
        dmaCon := dmaCon - bits;
      }
      for ch := 0 to CHANNELS
        invariant Valid() && dmaCon == SetClr(old(dmaCon), value)
        invariant forall i :: 0 <= i < ch ==> channels[i] == Gated(old(channels)[i], Enabled(dmaCon, i))
        invariant forall i :: ch <= i < CHANNELS ==> channels[i] == old(channels)[i]
      {
        GateChannel(ch);
      }
    }

    method WriteRegister16(address: nat, value: Word)
      requires Valid()
      modifies this`channels, this`dmaCon, this`intReq, this`intEna, this`adkCon
      ensures Valid() && Abs() == WriteRegister(old(Abs()), address, value)
    {
      var reg := address % 0x1000;
      if reg == DMACON {
        WriteDmaCon(value);
      } else if reg == INTREQ {
        intReq := SetClr(intReq, value);
      } else if reg == INTENA {
        intEna := SetClr(intEna, value);
      } else if reg == ADKCON {
        adkCon := SetClr(adkCon, value);
      } else {
        WriteAudio(reg, value);
      }
    }

    method WriteAudio(reg: nat, value: Word)
      requires Valid()
      modifies this`channels
      ensures Valid()
      ensures Abs() == if AUD_BASE <= reg < AUD_BASE + 16 * CHANNELS
                       then WriteChannel(old(Abs()), reg - AUD_BASE, value) else old(Abs())
    {
      for ch := 0 to CHANNELS
        invariant channels == old(channels)
        invariant reg < AUD_BASE || reg >= AUD_BASE + 16 * ch
      {
        var base := AUD_BASE + 16 * ch;
        if base <= reg < base + 16 {
          channels := channels[ch := ChannelWrite(channels[ch], reg - base, value)];
          return;
        }
      }
    }

    method SetLoop(ch: int, loc: nat, lenWords: nat)
      requires Valid() && loc < U32
      modifies this`channels
      ensures Valid() && Abs() == WithLoop(old(Abs()), ch, loc, lenWords)
    {
      if ch < 0 || ch >= CHANNELS {
        return;
      }
      channels := channels[ch := channels[ch].(locLatched := loc)];
      channels := channels[ch := channels[ch].(lenLatched := if lenWords == 0 then 65536 else lenWords)];
    }

    method FetchNext(ch: nat, read: Reader)
      requires Valid() && ch < CHANNELS
      modifies this`channels, this`intReq, this`fetched, this`irqs
      ensures Valid()
      ensures var c, n := old(channels)[ch], |old(fetched)|;
              Running() == FetchWord(old(Running()), ch, read(n, FetchPtr(c)),
                                     read(n + 1, (FetchPtr(c) + 1) % U32))
    {
      var c := Reload(ch);
      var l, h := read(|fetched|, c.curPtr), read(|fetched| + 1, (c.curPtr + 1) % U32);
      var taken := TakeWord(c, l, h);
      assert taken == Fetch(channels[ch], l, h) && c.curPtr == FetchPtr(channels[ch]);
      StoreWord(ch, taken, c.curPtr);
    }

    /** The channel after its fetch, and the two addresses read. */
    method StoreWord(ch: nat, taken: Channel, a: nat)
      requires Valid() && ch < CHANNELS && ChannelOk(taken)
      modifies this`channels, this`fetched
      ensures Valid()
      ensures Abs() == old(Abs()).(channels := old(channels)[ch := taken])
      ensures fetched == old(fetched) + [a, (a + 1) % U32]
    {
      fetched := fetched + [a, (a + 1) % U32];
      channels := channels[ch := taken];
    }

    /** At a block end the latched block is loaded and the channel's interrupt raised. */
    method Reload(ch: nat) returns (c: Channel)
      requires Valid() && ch < CHANNELS
      modifies this`intReq, this`irqs
      ensures var was := channels[ch];
              c == if was.wordsLeft == 0 then was.(curPtr := was.locLatched, wordsLeft := was.lenLatched) else was
      ensures var ends := channels[ch].wordsLeft == 0;
              && intReq == (if ends then old(intReq) + {IrqBit(ch)} else old(intReq))
              && irqs == old(irqs) + if ends then 1 else 0
    {
      c := channels[ch];
      if c.wordsLeft == 0 {
        c := c.(curPtr := c.locLatched, wordsLeft := c.lenLatched);
        intReq := intReq + {IrqBit(ch)};
        irqs := irqs + 1;
      }
    }

    static method TakeWord(c: Channel, l: Byte, h: Byte) returns (taken: Channel)
      ensures taken == c.(sampleL := l, sampleH := h, curPtr := (c.curPtr + 2) % U32,
                          wordsLeft := if c.wordsLeft > 0 then c.wordsLeft - 1 else 0,
                          curOut := c.nextOut, nextOut := Signed(l), onLowByte := false)
    {
      taken := c.(sampleL := l, sampleH := h, curPtr := (c.curPtr + 2) % U32);
      taken := taken.(wordsLeft := if c.wordsLeft > 0 then c.wordsLeft - 1 else 0);
      taken := taken.(curOut := taken.nextOut, nextOut := Signed(l), onLowByte := false);
    }

    method AdvanceOneSourceSample(ch: nat, read: Reader)
      requires Valid() && ch < CHANNELS
      modifies this`channels, this`intReq, this`fetched, this`irqs
      ensures Valid() && Running() == Advance(old(Running()), ch, read)
    {
      var c := channels[ch];
      if ch !in dmaCon || DMA_MASTER !in dmaCon {
        channels := channels[ch := c.(curOut := 0, nextOut := 0)];
      } else if c.onLowByte {
        FetchNext(ch, read);
      } else {
        channels := channels[ch := c.(curOut := c.nextOut, nextOut := Signed(c.sampleH), onLowByte := true)];
      }
    }

    /** Step the phase, take the whole ticks it holds, glide the gain; the voice. */
    method ServiceChannel(ch: nat, read: Reader) returns (heard: Channel)
      requires Valid() && ch < CHANNELS
      modifies this`channels, this`intReq, this`fetched, this`irqs
      ensures Valid()
      ensures var played := Ticks(Started(old(Running()), ch), ch, read);
              Running() == Gliding(played, ch) && heard == played.core.channels[ch]
    {
      var c := channels[ch];
      channels := channels[ch := c.(phase := c.phase + PhaseStep(c.period))];
      assert Running() == Started(old(Running()), ch);
      TakeTicks(ch, read);
      heard := channels[ch];
      channels := channels[ch := Glided(heard)];
    }

    method TakeTicks(ch: nat, read: Reader)
      requires Valid() && ch < CHANNELS
      modifies this`channels, this`intReq, this`fetched, this`irqs
      ensures Valid() && Running() == Ticks(old(Running()), ch, read)
    {
      while channels[ch].phase >= 1.0
        invariant Valid()
        invariant Ticks(Running(), ch, read) == Ticks(old(Running()), ch, read)
        decreases channels[ch].phase.Floor
      {
        TakeOneTick(ch, read);
      }
    }

    method TakeOneTick(ch: nat, read: Reader)
      requires Valid() && ch < CHANNELS
      modifies this`channels, this`intReq, this`fetched, this`irqs
      ensures Valid() && channels[ch].phase == old(channels[ch].phase) - 1.0
      ensures var e := old(Running());
              Running() == Advance(WithPhase(e, ch, Phase(e, ch) - 1.0), ch, read)
    {
      ghost var e := Running();
      channels := channels[ch := channels[ch].(phase := channels[ch].phase - 1.0)];
      assert Running() == WithPhase(e, ch, Phase(e, ch) - 1.0);
      AdvanceOneSourceSample(ch, read);
    }

    /** Service a channel and ramp its mix gain. */
    method MixOne(ch: nat, read: Reader) returns (part: Part)
      requires Valid() && ch < CHANNELS
      modifies this`channels, this`intReq, this`fetched, this`irqs, this`mixGain
      ensures Valid()
      ensures Frame(Running(), [part]) == MixChannel(Frame(old(Running()), []), ch, read)
    {
      var heard := ServiceChannel(ch, read);
      mixGain := mixGain[ch := Ramped(mixGain[ch], if muted[ch] then 0.0 else 1.0)];
      part := Part(ch, heard, interp, muted[ch], mixGain[ch], stereoCurrent);
    }

    /** One output frame, mixed from the four channels. */
    method Render(read: Reader) returns (left: real, right: real)
      requires Valid() && fetched == [] && irqs == 0
      modifies this`channels, this`intReq, this`fetched, this`irqs, this`stereoCurrent, this`mixGain
      ensures Valid()
      ensures var f := RenderFrame(old(Abs()), read);
              Running() == f.exec && left == Left(f.parts) && right == Right(f.parts)
      ensures old(stereoCurrent) == old(stereoSep) == 1.0 ==>
                && (old(muted)[1] && old(muted)[2] ==> right == 0.0)
                && (old(muted)[0] && old(muted)[3] ==> left == 0.0)
    {
      HardPanned(Abs(), read);
      stereoCurrent := Ramped(stereoCurrent, stereoSep);
      assert Frame(Running(), []) == FrameStart(old(Abs()));
      ghost var f;
      left, right, f := MixAll(read);
    }

    method MixAll(read: Reader) returns (left: real, right: real, ghost f: Frame)
      requires Valid()
      modifies this`channels, this`intReq, this`fetched, this`irqs, this`mixGain
      ensures Valid()
      ensures f == MixFrom(Frame(old(Running()), []), 0, read)
      ensures Running() == f.exec && left == Left(f.parts) && right == Right(f.parts)
    {
      left, right := 0.0, 0.0;
      f := Frame(Running(), []);
      for ch := 0 to CHANNELS
        invariant Valid() && f.exec == Running()
        invariant MixFrom(f, ch, read) == MixFrom(Frame(old(Running()), []), 0, read)
        invariant left == Left(f.parts) && right == Right(f.parts)
      {
        left, right, f := MixNext(ch, read, left, right, f);
      }
    }

    /** Add one channel to the frame under way. */
    method MixNext(ch: nat, read: Reader, left0: real, right0: real, ghost f0: Frame)
      returns (left: real, right: real, ghost f: Frame)
      requires Valid() && ch < CHANNELS && f0.exec == Running()
      requires left0 == Left(f0.parts) && right0 == Right(f0.parts)
      modifies this`channels, this`intReq, this`fetched, this`irqs, this`mixGain
      ensures Valid() && f.exec == Running() && left == Left(f.parts) && right == Right(f.parts)
      ensures MixFrom(f, ch + 1, read) == MixFrom(f0, ch, read)
    {
      MixAppends(f0.exec, f0.parts, ch, read);
      var part := MixOne(ch, read);
      SumsAppend(f0.parts, part);
      left, right := left0 + LeftOf(part), right0 + RightOf(part);
      f := Frame(Running(), f0.parts + [part]);
    }

    method FetchState(ch: int) returns (s: PaulaCore.FetchState)
      requires Valid()
      ensures 0 <= ch < CHANNELS ==> s == FetchStateOf(Abs(), ch)
      ensures !(0 <= ch < CHANNELS) ==> !s.enabled
    {
      s := PaulaCore.FetchState(0, 0, 0, 0, false);
      if ch < 0 || ch >= CHANNELS {
        return;
      }
      var c := channels[ch];
      s := PaulaCore.FetchState(c.curPtr, c.wordsLeft, c.locLatched, c.lenLatched,
                                ch in dmaCon && DMA_MASTER in dmaCon);
      if c.wantsRestart || (c.onLowByte && s.wordsLeft == 0) {
        s := s.(cursor := s.loop, wordsLeft := s.loopWords);
      }
    }
  }
}
