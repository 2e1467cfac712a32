/** What a core rebuilt from a shadow plays: every enabled channel from the start of the block it
    latches, the others nothing until they are switched on. */
module Rebuild {
  import opened Words
  import opened PaulaCore
  import opened Registers
  import RegisterValues

  /** All that a rebuild leaves alone besides the latched registers. */
  ghost predicate SameMixer(p: Core, q: Core) {
    && q.interp == p.interp && q.stereoSep == p.stereoSep && q.stereoCurrent == p.stereoCurrent
    && q.muted == p.muted && q.mixGain == p.mixGain
  }

  lemma {:induction false} RestoredStaysOff(c: Channel, s: ChannelShadow, reg: nat)
    requires ChannelOk(c) && |s.reg| == 6 && reg <= 5 && c.wantsRestart
    ensures ChannelRestored(c, s, reg).wantsRestart
    decreases 5 - reg
  {
    if reg < 5 {
      RestoredStaysOff(if reg in s.seen then ChannelWrite(c, 2 * reg, s.reg[reg]) else c, s, reg + 1);
    }
  }

  ghost predicate AllOff(p: Core)
    requires CoreOk(p)
  {
    p.dmaCon == {} && p.intReq == {} && forall ch :: 0 <= ch < CHANNELS ==> p.channels[ch].wantsRestart
  }

  lemma {:induction false} ChannelsStayOff(p: Core, s: Shadow, ch: nat)
    requires CoreOk(p) && ShadowOk(s) && ch <= CHANNELS && AllOff(p)
    ensures AllOff(RestoredChannels(p, s, ch)) && SameMixer(p, RestoredChannels(p, s, ch))
    decreases CHANNELS - ch
  {
    if ch < CHANNELS {
      RestoredRegistersAre(p, s.channels[ch], ch, 0);
      RestoredStaysOff(p.channels[ch], s.channels[ch], 0);
      ChannelsStayOff(RestoredRegisters(p, s.channels[ch], ch, 0), s, ch + 1);
    }
  }

  lemma BeforeDmaStaysOff(p: Core, s: Shadow)
    requires CoreOk(p) && ShadowOk(s) && AllOff(p)
    ensures var r := BeforeDma(p, s);
            && r.channels == p.channels && r.dmaCon == {} && SameMixer(p, r)
            && r.intReq == if IntReq in s.seenGlobal then s.intReq else {}
  {
    RegisterValues.ControlRegisters(p, s.intEna + {15});
    var p1 := if IntEna in s.seenGlobal then WriteRegister(p, 0xDFF09A, s.intEna + {15}) else p;
    RegisterValues.ControlRegisters(p1, s.intReq + {15});
    var p2 := if IntReq in s.seenGlobal then WriteRegister(p1, 0xDFF09C, s.intReq + {15}) else p1;
    RegisterValues.ControlRegisters(p2, s.adkCon + {15});
  }

  lemma DmaWritten(p: Core, value: Word)
    requires CoreOk(p) && p.dmaCon == {} && 15 !in value
    ensures Applied(p, Event(0xDFF096, value + {15}, 2, 0)) ==
            p.(dmaCon := value, channels := GatedAll(p.channels, value))
  {
    var w := value + {15};
    WordApplied(p, 0xDFF096, w);
    assert RegisterOf(0xDFF096) == 0x96;
    SetFromClear(value);
    DmaConWrite(p, w);
  }

  lemma DmaConWrite(p: Core, w: Word)
    requires CoreOk(p)
    ensures WriteRegister(p, 0xDFF096, w) ==
            p.(dmaCon := SetClr(p.dmaCon, w), channels := GatedAll(p.channels, SetClr(p.dmaCon, w)))
  {
  }

  /** Switching DMA on last starts every enabled channel at its latched block. */
  lemma DmaStarts(p: Core, value: Word, ch: nat)
    requires CoreOk(p) && p.dmaCon == {} && 15 !in value && ch < CHANNELS && p.channels[ch].wantsRestart
    ensures var r := Applied(p, Event(0xDFF096, value + {15}, 2, 0));
            && r.intReq == p.intReq && SameMixer(p, r)
            && r.channels[ch] == if ch in value && 9 in value then Primed(p.channels[ch]) else p.channels[ch]
  {
    DmaWritten(p, value);
  }

  /** After a rebuild a channel enabled in the shadow stands at the start of the block it latches,
      with nothing pending, and any other waits to be switched on; the interrupt requests are
      the shadow's and the mixer is untouched. */
  lemma RebuiltPlays(p: Core, s: Shadow, ch: nat)
    requires CoreOk(p) && ShadowOk(s) && ch < CHANNELS
    ensures var r := Restored(p, s);
            var c := r.channels[ch];
            && (if ch in s.dma && 9 in s.dma then
                  && c.curPtr == c.locLatched && c.wordsLeft == c.lenLatched && c.onLowByte
                  && c.phase == 0.0 && c.curOut == c.nextOut == 0 && !c.wantsRestart
                else c.wantsRestart)
            && r.intReq == (if IntReq in s.seenGlobal then s.intReq else {})
            && SameMixer(p, r)
  {
    var p0 := ResetCore(p);
    ChannelsStayOff(p0, s, 0);
    var p1 := RestoredChannels(p0, s, 0);
    BeforeDmaStaysOff(p1, s);
    var p3 := BeforeDma(p1, s);
    DmaStarts(p3, s.dma, ch);
    assert Restored(p, s) == if Dma in s.seenGlobal then Applied(p3, Event(0xDFF096, s.dma + {15}, 2, 0)) else p3;
  }
}
