/** What every core the program can reach satisfies: restarts are wanted exactly while DMA is
    off, phases hold less than one tick, and a channel without a length has no words left. */
module PaulaInvariant {
  import opened Words
  import opened PaulaCore
  import opened Transaction
  import PaulaStream

  ghost predicate PhasesOk(p: Core)
    requires CoreOk(p)
  {
    forall ch :: 0 <= ch < CHANNELS ==> 0.0 <= p.channels[ch].phase < 1.0
  }

  ghost predicate LengthsOk(p: Core)
    requires CoreOk(p)
  {
    forall ch :: 0 <= ch < CHANNELS && p.channels[ch].lenLatched == 0 ==> p.channels[ch].wordsLeft == 0
  }

  ghost predicate Regular(p: Core) {
    PaulaStream.RestartExact(p) && PhasesOk(p) && LengthsOk(p)
  }

  // ---------------------------------------------------------------- register writes

  lemma ResetRegular(p: Core)
    requires CoreOk(p)
    ensures Regular(ResetCore(p))
  {
    PaulaStream.ResetIsRestartExact(p);
  }

  lemma ChannelWriteKeeps(c: Channel, reg: nat, value: Word)
    requires ChannelOk(c)
    ensures var r := ChannelWrite(c, reg, value);
            && r.phase == c.phase && r.wordsLeft == c.wordsLeft
            && (r.lenLatched == 0 ==> c.lenLatched == 0)
  {
  }

  /** One channel after a write: gated, written or untouched. */
  lemma WrittenChannel(p: Core, address: nat, value: Word, ch: nat)
    requires CoreOk(p) && ch < CHANNELS
    ensures var c, r := p.channels[ch], WriteRegister(p, address, value).channels[ch];
            || r == Primed(c) || r == c.(wantsRestart := true) || r == c
            || exists reg :: r == ChannelWrite(c, reg, value)
  {
    var reg := address % 0x1000;
    if AUD_BASE <= reg < AUD_BASE + 16 * CHANNELS && reg != DMACON {
      assert WriteRegister(p, address, value) == WriteChannel(p, reg - AUD_BASE, value);
      assert (reg - AUD_BASE) / 16 == ch ==>
          WriteChannel(p, reg - AUD_BASE, value).channels[ch]
          == ChannelWrite(p.channels[ch], (reg - AUD_BASE) % 16, value);
    }
  }

  lemma WriteKeepsChannel(p: Core, address: nat, value: Word, ch: nat)
    requires CoreOk(p) && ch < CHANNELS
    ensures var c, r := p.channels[ch], WriteRegister(p, address, value).channels[ch];
            && (r.phase == c.phase || r.phase == 0.0)
            && ((c.lenLatched == 0 ==> c.wordsLeft == 0) ==> (r.lenLatched == 0 ==> r.wordsLeft == 0))
  {
    var c, r := p.channels[ch], WriteRegister(p, address, value).channels[ch];
    WrittenChannel(p, address, value, ch);
    if reg :| r == ChannelWrite(c, reg, value) {
      ChannelWriteKeeps(c, reg, value);
    }
  }

  lemma WriteKeepsRegular(p: Core, address: nat, value: Word)
    requires Regular(p)
    ensures Regular(WriteRegister(p, address, value))
  {
    var r := WriteRegister(p, address, value);
    forall ch | 0 <= ch < CHANNELS
      ensures r.channels[ch].wantsRestart <==> !Enabled(r.dmaCon, ch)
    {
      PaulaStream.PrimesOnRisingEdge(p, address, value, ch);
    }
    forall ch | 0 <= ch < CHANNELS
      ensures 0.0 <= r.channels[ch].phase < 1.0
      ensures r.channels[ch].lenLatched == 0 ==> r.channels[ch].wordsLeft == 0
    {
      WriteKeepsChannel(p, address, value, ch);
    }
  }

  lemma LoopKeepsRegular(p: Core, ch: int, loc: nat, lenWords: nat)
    requires Regular(p) && loc < U32
    ensures Regular(WithLoop(p, ch, loc, lenWords))
  {
  }

  // ---------------------------------------------------------------- rendering

  /** A tick moves no other channel, no phase and no latch, and leaves words only where there
      is a length. */
  lemma TickKeeps(e: Exec, ch: nat, read: Reader, o: nat)
    requires ExecOk(e) && ch < CHANNELS && o < CHANNELS
    ensures var c, r := e.core.channels[o], Advance(e, ch, read).core.channels[o];
            && r.phase == c.phase && r.lenLatched == c.lenLatched
            && (o != ch ==> r == c)
            && (c.lenLatched == 0 && c.wordsLeft == 0 ==> r.wordsLeft == 0)
  {
  }

  lemma TickKeepsLengths(e: Exec, ch: nat, read: Reader)
    requires ExecOk(e) && ch < CHANNELS && LengthsOk(e.core)
    ensures LengthsOk(Advance(e, ch, read).core)
  {
    forall o | 0 <= o < CHANNELS && Advance(e, ch, read).core.channels[o].lenLatched == 0
      ensures Advance(e, ch, read).core.channels[o].wordsLeft == 0
    {
      TickKeeps(e, ch, read, o);
    }
  }

  lemma {:induction false} TicksKeepLengths(e: Exec, ch: nat, read: Reader)
    requires ExecOk(e) && ch < CHANNELS && LengthsOk(e.core)
    ensures LengthsOk(Ticks(e, ch, read).core)
    decreases Phase(e, ch).Floor
  {
    if Phase(e, ch) >= 1.0 {
      var d := WithPhase(e, ch, Phase(e, ch) - 1.0);
      assert LengthsOk(d.core);
      TickKeepsLengths(d, ch, read);
      TicksKeepLengths(Advance(d, ch, read), ch, read);
    }
  }

  lemma {:induction false} TicksUsePhase(e: Exec, ch: nat, read: Reader)
    requires ExecOk(e) && ch < CHANNELS && Phase(e, ch) >= 0.0
    ensures 0.0 <= Phase(Ticks(e, ch, read), ch) < 1.0
    ensures forall o :: 0 <= o < CHANNELS && o != ch ==> Ticks(e, ch, read).core.channels[o] == e.core.channels[o]
    decreases Phase(e, ch).Floor
  {
    if Phase(e, ch) >= 1.0 {
      var d := WithPhase(e, ch, Phase(e, ch) - 1.0);
      forall o | 0 <= o < CHANNELS
        ensures Advance(d, ch, read).core.channels[o].phase == d.core.channels[o].phase
        ensures o != ch ==> Advance(d, ch, read).core.channels[o] == d.core.channels[o]
      {
        TickKeeps(d, ch, read, o);
      }
      TicksUsePhase(Advance(d, ch, read), ch, read);
    }
  }

  lemma StepPositive(period: nat)
    ensures PhaseStep(period) >= 0.0
  {
    var d := if period == 0 then 1.0 else period as real;
    assert CLOCK_HZ / d >= 0.0;
  }

  lemma MixOneKeeps(f: Frame, ch: nat, read: Reader)
    requires ExecOk(f.exec) && ch < CHANNELS && PhasesOk(f.exec.core) && LengthsOk(f.exec.core)
    ensures PhasesOk(MixChannel(f, ch, read).exec.core) && LengthsOk(MixChannel(f, ch, read).exec.core)
  {
    var e := Started(f.exec, ch);
    StepPositive(f.exec.core.channels[ch].period);
    assert LengthsOk(e.core);
    TicksKeepLengths(e, ch, read);
    TicksUsePhase(e, ch, read);
  }

  lemma {:induction false} MixKeeps(f: Frame, ch: nat, read: Reader)
    requires ExecOk(f.exec) && ch <= CHANNELS && PhasesOk(f.exec.core) && LengthsOk(f.exec.core)
    ensures PhasesOk(MixFrom(f, ch, read).exec.core) && LengthsOk(MixFrom(f, ch, read).exec.core)
    decreases CHANNELS - ch
  {
    if ch < CHANNELS {
      MixOneKeeps(f, ch, read);
      MixKeeps(MixChannel(f, ch, read), ch + 1, read);
    }
  }

  lemma FrameKeepsRegular(p: Core, read: Reader)
    requires Regular(p)
    ensures Regular(RenderFrame(p, read).exec.core)
  {
    PaulaStream.FrameKeepsRestart(p, read);
    assert FrameStart(p).exec.core.channels == p.channels;
    MixKeeps(FrameStart(p), 0, read);
  }

  // ---------------------------------------------------------------- every run

  lemma MixerKeepsRegular(p: Core, word: nat)
    requires Regular(p)
    ensures Regular(CoreMixed(p, word))
  {
    assert CoreMixed(p, word).channels == p.channels && CoreMixed(p, word).dmaCon == p.dmaCon;
  }

  lemma EventKeepsRegular(v: Live, e: Event)
    requires LiveOk(v) && Regular(v.core)
    ensures Regular(LiveStep(v, e).core)
  {
    match e
    case FrameDue(ram, hit) => FrameKeepsRegular(v.core, CacheReader(ram, hit));
    case RegisterWrite(address, value) => WriteKeepsRegular(v.core, address, value);
    case MixerRequest(word) => MixerKeepsRegular(v.core, word);
    case Resync => ResetRegular(v.core);
  }

  /** Over every run of frames, committed or rolled back, register writes, mixer changes and
      resyncs, from the core that initialisation leaves on. */
  lemma {:induction false} EveryCoreIsRegular(v: Live, events: seq<Event>, i: nat)
    requires LiveOk(v) && Regular(v.core) && i < |events|
    ensures LiveOk(LiveRun(v, events)[i]) && Regular(LiveRun(v, events)[i].core)
    decreases |events|
  {
    EventKeepsRegular(v, events[0]);
    if i > 0 {
      EveryCoreIsRegular(LiveStep(v, events[0]), events[1..], i - 1);
    }
  }
}
