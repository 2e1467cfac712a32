/** The words 32 frames do fetch, and why the lookahead needs period 3: a faster channel reads
    beyond the window within one countdown. */
module LookaheadReach {
  import opened Words
  import opened PaulaCore
  import opened Lookahead
  import opened LookaheadFrames
  import opened PaulaTimeline
  import opened PaulaInvariant

  /** Of the words between k and k' ticks of c, the first byte of each was fetched. */
  ghost predicate Brought(c: Channel, k: nat, k': nat, fetched: seq<nat>) {
    forall i: nat :: Fetches(c.onLowByte, k) <= i < Fetches(c.onLowByte, k') ==> Upcoming(Raw(c), i) in fetched
  }

  lemma BroughtJoins(c: Channel, k0: nat, k1: nat, k2: nat, f1: seq<nat>, f2: seq<nat>)
    requires Brought(c, k0, k1, f1) && f1 <= f2 && Brought(c, k1, k2, f2)
    ensures Brought(c, k0, k2, f2)
  {
  }

  lemma TickBrings(c: Channel, e: Exec, ch: nat, read: Reader, k: nat)
    requires ExecOk(e) && ch < CHANNELS && Enabled(e.core.dmaCon, ch) && Moved(c, e.core.channels[ch], k)
    ensures Moved(c, Advance(e, ch, read).core.channels[ch], k + 1)
    ensures Brought(c, k, k + 1, Advance(e, ch, read).fetched) && e.fetched <= Advance(e, ch, read).fetched
  {
    TickMoves(c, e, ch, read, k);
    FetchStep(e, ch, read);
    var n, w := Fetches(c.onLowByte, k), Upcoming(Raw(e.core.channels[ch]), 0);
    assert w == Upcoming(Raw(c), n + 0);
    if e.core.channels[ch].onLowByte {
      assert Advance(e, ch, read).fetched[|e.fetched|] == w;
    }
  }

  lemma {:induction false} TicksBring(c: Channel, e: Exec, ch: nat, read: Reader, k: nat) returns (k': nat)
    requires ExecOk(e) && ch < CHANNELS && Enabled(e.core.dmaCon, ch) && Moved(c, e.core.channels[ch], k)
    requires Phase(e, ch) >= 0.0
    ensures Moved(c, Ticks(e, ch, read).core.channels[ch], k')
    ensures Brought(c, k, k', Ticks(e, ch, read).fetched)
    ensures Ticks(e, ch, read).core.dmaCon == e.core.dmaCon
    ensures 0.0 <= Phase(Ticks(e, ch, read), ch) < 1.0
    ensures Phase(Ticks(e, ch, read), ch) + k' as real == Phase(e, ch) + k as real
    decreases Phase(e, ch).Floor
  {
    if Phase(e, ch) < 1.0 {
      k' := k;
    } else {
      var d := WithPhase(e, ch, Phase(e, ch) - 1.0);
      TickBrings(c, d, ch, read, k);
      AdvanceFrame(d, ch, read);
      var next := Advance(d, ch, read);
      k' := TicksBring(c, next, ch, read, k + 1);
      TicksExtend(next, ch, read);
      BroughtJoins(c, k, k + 1, k', next.fetched, Ticks(next, ch, read).fetched);
    }
  }

  lemma {:induction false} TicksKeepEnables(e: Exec, ch: nat, read: Reader)
    requires ExecOk(e) && ch < CHANNELS
    ensures Ticks(e, ch, read).core.dmaCon == e.core.dmaCon
    decreases Phase(e, ch).Floor
  {
    if Phase(e, ch) >= 1.0 {
      var d := WithPhase(e, ch, Phase(e, ch) - 1.0);
      AdvanceFrame(d, ch, read);
      TicksKeepEnables(Advance(d, ch, read), ch, read);
    }
  }

  /** Mixing one channel leaves the others as they are. */
  lemma MixChannelFrame(f: Frame, from: nat, read: Reader)
    requires ExecOk(f.exec) && from < CHANNELS
    ensures var r := MixChannel(f, from, read).exec.core;
            && r.dmaCon == f.exec.core.dmaCon
            && forall o :: 0 <= o < CHANNELS && o != from ==> r.channels[o] == f.exec.core.channels[o]
  {
    TicksFrame(Started(f.exec, from), from, read);
    TicksKeepEnables(Started(f.exec, from), from, read);
  }

  lemma {:induction false} MixLeavesEarlier(f: Frame, from: nat, read: Reader, ch: nat)
    requires ExecOk(f.exec) && ch < from <= CHANNELS
    ensures MixFrom(f, from, read).exec.core.channels[ch] == f.exec.core.channels[ch]
    decreases CHANNELS - from
  {
    if from < CHANNELS {
      MixChannelFrame(f, from, read);
      MixLeavesEarlier(MixChannel(f, from, read), from + 1, read, ch);
    }
  }

  /** One channel's own part of a frame. */
  lemma OwnPartBrings(c: Channel, f: Frame, ch: nat, read: Reader, k: nat, n: nat) returns (k': nat)
    requires ExecOk(f.exec) && ch < CHANNELS && Enabled(f.exec.core.dmaCon, ch)
    requires Moved(c, f.exec.core.channels[ch], k) && Paced(c, f.exec.core.channels[ch], k, n)
    ensures var r := MixChannel(f, ch, read).exec;
            && Moved(c, r.core.channels[ch], k') && Paced(c, r.core.channels[ch], k', n + 1)
            && Brought(c, k, k', r.fetched)
  {
    var d := f.exec.core.channels[ch];
    StepPositive(d.period);
    var started := Started(f.exec, ch);
    assert Moved(c, started.core.channels[ch], k);
    k' := TicksBring(c, started, ch, read, k);
    TicksFrame(started, ch, read);
    var played := Ticks(started, ch, read).core.channels[ch];
    assert Moved(c, Glided(played), k');
  }

  lemma {:induction false} MixBrings(c: Channel, f: Frame, from: nat, ch: nat, read: Reader, k: nat, n: nat)
    returns (k': nat)
    requires ExecOk(f.exec) && from <= ch < CHANNELS && Enabled(f.exec.core.dmaCon, ch)
    requires Moved(c, f.exec.core.channels[ch], k) && Paced(c, f.exec.core.channels[ch], k, n)
    ensures var r := MixFrom(f, from, read).exec;
            && Moved(c, r.core.channels[ch], k') && Paced(c, r.core.channels[ch], k', n + 1)
            && Brought(c, k, k', r.fetched)
    decreases ch - from
  {
    MixChannelFrame(f, from, read);
    var next := MixChannel(f, from, read);
    if from < ch {
      k' := MixBrings(c, next, from + 1, ch, read, k, n);
    } else {
      k' := OwnPartBrings(c, f, ch, read, k, n);
      MixExtends(next, ch + 1, read);
      MixLeavesEarlier(next, ch + 1, read, ch);
    }
  }

  lemma {:induction false} MixKeepsEnables(f: Frame, from: nat, read: Reader)
    requires ExecOk(f.exec) && from <= CHANNELS
    ensures MixFrom(f, from, read).exec.core.dmaCon == f.exec.core.dmaCon
    decreases CHANNELS - from
  {
    if from < CHANNELS {
      MixChannelFrame(f, from, read);
      MixKeepsEnables(MixChannel(f, from, read), from + 1, read);
    }
  }

  // ---------------------------------------------------------------- frames

  /** Everything the frames read, frame after frame. */
  function AllRead(p: Core, readers: seq<Reader>): seq<nat>
    requires CoreOk(p)
  {
    if readers == [] then []
    else AllRead(p, readers[..|readers| - 1]) + LastFrame(p, readers).exec.fetched
  }

  lemma FrameBrings(c: Channel, q: Core, ch: nat, read: Reader, k: nat, n: nat) returns (k': nat)
    requires CoreOk(q) && ch < CHANNELS && Enabled(q.dmaCon, ch)
    requires Moved(c, q.channels[ch], k) && Paced(c, q.channels[ch], k, n)
    ensures var r := RenderFrame(q, read).exec;
            && r.core.dmaCon == q.dmaCon
            && Moved(c, r.core.channels[ch], k') && Paced(c, r.core.channels[ch], k', n + 1)
            && Brought(c, k, k', r.fetched)
  {
    assert FrameStart(q).exec.core.channels == q.channels;
    k' := MixBrings(c, FrameStart(q), 0, ch, read, k, n);
    MixKeepsEnables(FrameStart(q), 0, read);
  }

  lemma BroughtAll(c: Channel, k: nat, k': nat, before: seq<nat>, fetched: seq<nat>)
    requires Brought(c, 0, k, before) && Brought(c, k, k', fetched)
    ensures Brought(c, 0, k', before + fetched)
  {
  }

  /** Every word the phases account for is read in one of the frames. */
  lemma {:induction false} FramesReach(p: Core, readers: seq<Reader>, ch: nat) returns (k: nat)
    requires CoreOk(p) && PhasesOk(p) && ch < CHANNELS && Enabled(p.dmaCon, ch)
    ensures Frames(p, readers).dmaCon == p.dmaCon
    ensures Moved(p.channels[ch], Frames(p, readers).channels[ch], k)
    ensures Paced(p.channels[ch], Frames(p, readers).channels[ch], k, |readers|)
    ensures Brought(p.channels[ch], 0, k, AllRead(p, readers))
    decreases |readers|
  {
    if readers == [] {
      k := 0;
    } else {
      var last := |readers| - 1;
      var c, q := p.channels[ch], Frames(p, readers[..last]);
      var k0 := FramesReach(p, readers[..last], ch);
      k := FrameBrings(c, q, ch, readers[last], k0, last);
      BroughtAll(c, k0, k, AllRead(p, readers[..last]), LastFrame(p, readers).exec.fetched);
    }
  }

  /** At period 1 or 2 the 32 frames read the word after the window, whatever the samples. */
  lemma FastChannelOutruns(p: Core, readers: seq<Reader>, ch: nat)
    requires Regular(p) && ch < CHANNELS && Enabled(p.dmaCon, ch) && |readers| == SWEEP_FRAMES
    requires p.channels[ch].period == 1 || p.channels[ch].period == 2
    ensures Upcoming(Raw(p.channels[ch]), WINDOW_WORDS) in AllRead(p, readers)
  {
    var k := FramesReach(p, readers, ch);
    SweepOverflows(p.channels[ch], Frames(p, readers).channels[ch], k);
    assert Fetches(p.channels[ch].onLowByte, 0) == 0;
  }

  // ---------------------------------------------------------------- a core that shows it

  /** Channel 0 just primed at address 0 with 2000 words and period 2, the others off. */
  const FAST_CHANNEL: Channel := Channel(0, 2000, 2, 64, 0, 2000, 0, 0, true, 0.0, false, 0, 0, 0.0)
  const FAST_CORE: Core :=
    Core([FAST_CHANNEL, RESET_CHANNEL, RESET_CHANNEL, RESET_CHANNEL], {9, 0}, {}, {}, {}, Nearest, 1.0, 1.0,
         [false, false, false, false], [1.0, 1.0, 1.0, 1.0])

  lemma FastCoreRegular()
    ensures Regular(FAST_CORE) && Enabled(FAST_CORE.dmaCon, 0)
    ensures NoWrap(FetchStateOf(FAST_CORE, 0)) && FAST_CORE.channels[0].lenLatched > 0
  {
  }

  lemma FastPlan()
    ensures PlanFrom(FAST_CORE, 0) == [Range(0, 1024)]
  {
    assert PlanFrom(FAST_CORE, 4) == [] && PlanFrom(FAST_CORE, 3) == [] && PlanFrom(FAST_CORE, 2) == [];
    assert PlanFrom(FAST_CORE, 1) == [];
    assert ChannelPlan(FetchStateOf(FAST_CORE, 0)) == [Range(0, 1024)];
  }

  lemma FastWord()
    ensures Upcoming(Raw(FAST_CHANNEL), WINDOW_WORDS) == 1024
  {
  }

  /** A read outside the sweep: whatever the samples, one of the 32 frames of this core reads
      address 1024, which the sweep before them does not cover. */
  lemma FastCoreReadsUnasked(readers: seq<Reader>)
    requires |readers| == SWEEP_FRAMES
    ensures CoreOk(FAST_CORE) && 1024 in AllRead(FAST_CORE, readers)
    ensures !Covered(1024, PlanFrom(FAST_CORE, 0))
  {
    FastCoreRegular();
    FastChannelOutruns(FAST_CORE, readers, 0);
    FastWord();
    FastPlan();
  }
}
