/** The lookahead over whole frames: between two sweeps the four channels together read no
    page that the first sweep did not ask for. */
module LookaheadFrames {
  import opened Words
  import opened PaulaCore
  import opened Lookahead
  import opened PaulaTimeline
  import opened PaulaInvariant
  import opened PageCacheSafety
  import opened PageCacheTheorems
  import opened PageCacheDrain
  import PageCache
  import Sweep

  const SWEEP_FRAMES: nat := 32

  // ---------------------------------------------------------------- following the cursors

  /** d stands where c stands after k of its ticks. */
  ghost predicate Moved(c: Channel, d: Channel, k: nat) {
    Shifted(Raw(c), Raw(d), Fetches(c.onLowByte, k)) && d.onLowByte == (c.onLowByte == (k % 2 == 0))
  }

  predicate IsWordByte(a: nat, c: Channel, i: nat) {
    a == Upcoming(Raw(c), i) || a == (Upcoming(Raw(c), i) + 1) % U32
  }

  /** The address belongs to a word c fetches in its next k ticks. */
  ghost predicate FromChannel(a: nat, c: Channel, k: nat) {
    exists i: nat :: i < Fetches(c.onLowByte, k) && IsWordByte(a, c, i)
  }

  ghost predicate FromAny(p: Core, ks: seq<nat>, a: nat)
    requires CoreOk(p) && |ks| == CHANNELS
  {
    exists ch :: 0 <= ch < CHANNELS && Enabled(p.dmaCon, ch) && FromChannel(a, p.channels[ch], ks[ch])
  }

  ghost predicate AllFrom(p: Core, ks: seq<nat>, fetched: seq<nat>)
    requires CoreOk(p) && |ks| == CHANNELS
  {
    forall b :: 0 <= b < |fetched| ==> FromAny(p, ks, fetched[b])
  }

  /** Since core p, channel ch has taken ks[ch] ticks, and every fetched word was upcoming. */
  ghost predicate Tracked(p: Core, e: Exec, ks: seq<nat>) {
    && CoreOk(p) && ExecOk(e) && |ks| == CHANNELS
    && e.core.dmaCon == p.dmaCon
    && (forall ch :: 0 <= ch < CHANNELS && Enabled(p.dmaCon, ch) ==>
          Moved(p.channels[ch], e.core.channels[ch], ks[ch]))
    && AllFrom(p, ks, e.fetched)
  }

  lemma MoreTicks(p: Core, ks: seq<nat>, ch: nat, k: nat, fetched: seq<nat>)
    requires CoreOk(p) && |ks| == CHANNELS && ch < CHANNELS && ks[ch] <= k && AllFrom(p, ks, fetched)
    ensures AllFrom(p, ks[ch := k], fetched)
  {
    forall b | 0 <= b < |fetched|
      ensures FromAny(p, ks[ch := k], fetched[b])
    {
      var a := fetched[b];
      var from :| 0 <= from < CHANNELS && Enabled(p.dmaCon, from) && FromChannel(a, p.channels[from], ks[from]);
      var i: nat :| i < Fetches(p.channels[from].onLowByte, ks[from]) && IsWordByte(a, p.channels[from], i);
      assert i < Fetches(p.channels[from].onLowByte, ks[ch := k][from]);
      assert FromChannel(a, p.channels[from], ks[ch := k][from]);
    }
  }

  lemma MovedOnce(c: Channel, d: Channel, d': Channel, k: nat)
    requires Moved(c, d, k) && d'.onLowByte == !d.onLowByte
    requires Shifted(Raw(d), Raw(d'), if d.onLowByte then 1 else 0)
    ensures Moved(c, d', k + 1)
  {
    if d.onLowByte {
      ShiftedOnce(Raw(c), Raw(d), Raw(d'), Fetches(c.onLowByte, k));
    } else {
      ShiftedTwice(Raw(c), Raw(d), Raw(d'), Fetches(c.onLowByte, k));
    }
    TickCounts(c.onLowByte, d.onLowByte, k);
  }

  /** Ticks alternate between fetching a word and playing its second byte. */
  lemma TickCounts(onLowByte: bool, now: bool, k: nat)
    requires now == (onLowByte == (k % 2 == 0))
    ensures Fetches(onLowByte, k + 1) == Fetches(onLowByte, k) + if now then 1 else 0
    ensures !now == (onLowByte == ((k + 1) % 2 == 0))
  {
  }

  lemma TickMoves(c: Channel, d: Exec, ch: nat, read: Reader, k: nat)
    requires ExecOk(d) && ch < CHANNELS && Enabled(d.core.dmaCon, ch) && Moved(c, d.core.channels[ch], k)
    ensures Moved(c, Advance(d, ch, read).core.channels[ch], k + 1)
  {
    FetchStep(d, ch, read);
    MovedOnce(c, d.core.channels[ch], Advance(d, ch, read).core.channels[ch], k);
  }

  /** A tick fetches at most the next word of its channel. */
  lemma TickFetches(p: Core, e: Exec, ch: nat, read: Reader, ks: seq<nat>, b: nat)
    requires Tracked(p, e, ks) && ch < CHANNELS && Enabled(p.dmaCon, ch)
    requires |e.fetched| <= b < |Advance(e, ch, read).fetched|
    ensures FromAny(p, ks[ch := ks[ch] + 1], Advance(e, ch, read).fetched[b])
  {
    var c, n := p.channels[ch], Fetches(p.channels[ch].onLowByte, ks[ch]);
    var r, w := Advance(e, ch, read), Upcoming(Raw(e.core.channels[ch]), 0);
    FetchStep(e, ch, read);
    assert w == Upcoming(Raw(c), n + 0);
    assert r.fetched == e.fetched + [w, (w + 1) % U32];
    NextWord(c, n, ks[ch], r.fetched[b]);
    assert FromChannel(r.fetched[b], c, ks[ch := ks[ch] + 1][ch]);
  }

  lemma NextWord(c: Channel, n: nat, k: nat, a: nat)
    requires n == Fetches(c.onLowByte, k) && n < Fetches(c.onLowByte, k + 1) && IsWordByte(a, c, n)
    ensures FromChannel(a, c, k + 1)
  {
  }

  lemma AdvanceFrame(e: Exec, ch: nat, read: Reader)
    requires ExecOk(e) && ch < CHANNELS
    ensures var r := Advance(e, ch, read);
            && r.core.dmaCon == e.core.dmaCon
            && (forall o :: 0 <= o < CHANNELS && o != ch ==> r.core.channels[o] == e.core.channels[o])
            && |e.fetched| <= |r.fetched| && r.fetched[..|e.fetched|] == e.fetched
            && (!Enabled(e.core.dmaCon, ch) ==> r.fetched == e.fetched)
            && r.core.channels[ch].phase == e.core.channels[ch].phase
            && r.core.channels[ch].period == e.core.channels[ch].period
  {
  }

  lemma TickTracked(p: Core, e: Exec, ch: nat, read: Reader, ks: seq<nat>)
    requires Tracked(p, e, ks) && ch < CHANNELS
    ensures Tracked(p, Advance(e, ch, read), ks[ch := ks[ch] + 1])
  {
    var r, ks' := Advance(e, ch, read), ks[ch := ks[ch] + 1];
    AdvanceFrame(e, ch, read);
    MoreTicks(p, ks, ch, ks[ch] + 1, e.fetched);
    forall b | 0 <= b < |r.fetched|
      ensures FromAny(p, ks', r.fetched[b])
    {
      if b < |e.fetched| {
        assert r.fetched[b] == e.fetched[b];
      } else {
        TickFetches(p, e, ch, read, ks, b);
      }
    }
    if Enabled(p.dmaCon, ch) {
      TickMoves(p.channels[ch], e, ch, read, ks[ch]);
    }
  }

  /** The cursor does not see phase or gain. */
  lemma TrackedIgnoresSound(p: Core, e: Exec, ch: nat, c: Channel, ks: seq<nat>)
    requires Tracked(p, e, ks) && ch < CHANNELS && ChannelOk(c)
    requires Raw(c) == Raw(e.core.channels[ch]) && c.onLowByte == e.core.channels[ch].onLowByte
    ensures Tracked(p, With(e, ch, c), ks)
  {
  }

  // ---------------------------------------------------------------- pace

  function Total(step: real, n: nat): real {
    if n == 0 then 0.0 else Total(step, n - 1) + step
  }

  /** Phase and whole ticks add up to the frames' phase steps. */
  predicate Paced(c: Channel, d: Channel, k: nat, n: nat) {
    && d.period == c.period && 0.0 <= d.phase < 1.0
    && d.phase + k as real == c.phase + Total(PhaseStep(c.period), n)
  }

  lemma {:induction false} TicksTracked(p: Core, e: Exec, ch: nat, read: Reader, ks: seq<nat>) returns (k: nat)
    requires Tracked(p, e, ks) && ch < CHANNELS && Phase(e, ch) >= 0.0
    ensures ks[ch] <= k && Tracked(p, Ticks(e, ch, read), ks[ch := k])
    ensures 0.0 <= Phase(Ticks(e, ch, read), ch) < 1.0
    ensures Phase(Ticks(e, ch, read), ch) + k as real == Phase(e, ch) + ks[ch] as real
    decreases Phase(e, ch).Floor
  {
    if Phase(e, ch) < 1.0 {
      k := ks[ch];
      assert ks[ch := k] == ks;
    } else {
      var d := WithPhase(e, ch, Phase(e, ch) - 1.0);
      TrackedIgnoresSound(p, e, ch, e.core.channels[ch].(phase := Phase(e, ch) - 1.0), ks);
      TickTracked(p, d, ch, read, ks);
      AdvanceFrame(d, ch, read);
      k := TicksTracked(p, Advance(d, ch, read), ch, read, ks[ch := ks[ch] + 1]);
      assert ks[ch := ks[ch] + 1][ch := k] == ks[ch := k];
    }
  }

  lemma {:induction false} TicksFrame(e: Exec, ch: nat, read: Reader)
    requires ExecOk(e) && ch < CHANNELS
    ensures var r := Ticks(e, ch, read);
            && r.core.channels[ch].period == e.core.channels[ch].period
            && forall o :: 0 <= o < CHANNELS && o != ch ==> r.core.channels[o] == e.core.channels[o]
    decreases Phase(e, ch).Floor
  {
    if Phase(e, ch) >= 1.0 {
      var d := WithPhase(e, ch, Phase(e, ch) - 1.0);
      AdvanceFrame(d, ch, read);
      TicksFrame(Advance(d, ch, read), ch, read);
    }
  }

  /** One channel's share of a frame. */
  lemma ChannelTracked(p: Core, f: Frame, ch: nat, read: Reader, ks: seq<nat>, n: nat) returns (k: nat)
    requires Tracked(p, f.exec, ks) && ch < CHANNELS
    requires Paced(p.channels[ch], f.exec.core.channels[ch], ks[ch], n)
    ensures Tracked(p, MixChannel(f, ch, read).exec, ks[ch := k])
    ensures Paced(p.channels[ch], MixChannel(f, ch, read).exec.core.channels[ch], k, n + 1)
    ensures forall o :: 0 <= o < CHANNELS && o != ch ==>
              MixChannel(f, ch, read).exec.core.channels[o] == f.exec.core.channels[o]
  {
    var c := f.exec.core.channels[ch];
    StepPositive(c.period);
    TrackedIgnoresSound(p, f.exec, ch, c.(phase := c.phase + PhaseStep(c.period)), ks);
    k := TicksTracked(p, Started(f.exec, ch), ch, read, ks);
    TicksFrame(Started(f.exec, ch), ch, read);
    var played := Ticks(Started(f.exec, ch), ch, read);
    GlideTracked(p, f, ch, played, ks[ch := k]);
  }

  lemma GlideTracked(p: Core, f: Frame, ch: nat, played: Exec, ks: seq<nat>)
    requires Tracked(p, played, ks) && ch < CHANNELS
    ensures Tracked(p, Blend(f, Gliding(played, ch), played.core.channels[ch], ch).exec, ks)
  {
    TrackedIgnoresSound(p, played, ch, Glided(played.core.channels[ch]), ks);
  }

  ghost predicate AllPaced(p: Core, q: Core, ks: seq<nat>, from: nat, n: nat)
    requires CoreOk(p) && CoreOk(q) && |ks| == CHANNELS
  {
    forall ch :: 0 <= ch < CHANNELS ==>
      Paced(p.channels[ch], q.channels[ch], ks[ch], if ch < from then n + 1 else n)
  }

  lemma {:induction false} MixTracked(p: Core, f: Frame, ch: nat, read: Reader, ks: seq<nat>, n: nat)
    returns (ks': seq<nat>)
    requires ch <= CHANNELS && Tracked(p, f.exec, ks) && AllPaced(p, f.exec.core, ks, ch, n)
    ensures Tracked(p, MixFrom(f, ch, read).exec, ks')
    ensures AllPaced(p, MixFrom(f, ch, read).exec.core, ks', CHANNELS, n)
    decreases CHANNELS - ch
  {
    if ch == CHANNELS {
      ks' := ks;
    } else {
      var k := ChannelTracked(p, f, ch, read, ks, n);
      ks' := MixTracked(p, MixChannel(f, ch, read), ch + 1, read, ks[ch := k], n);
    }
  }

  // ---------------------------------------------------------------- frames

  /** The core after rendering one frame per reader. */
  function Frames(p: Core, readers: seq<Reader>): (q: Core)
    requires CoreOk(p)
    ensures CoreOk(q)
  {
    if readers == [] then p
    else RenderFrame(Frames(p, readers[..|readers| - 1]), readers[|readers| - 1]).exec.core
  }

  function LastFrame(p: Core, readers: seq<Reader>): (f: Frame)
    requires CoreOk(p) && readers != []
    ensures ExecOk(f.exec) && f.exec.core == Frames(p, readers)
  {
    RenderFrame(Frames(p, readers[..|readers| - 1]), readers[|readers| - 1])
  }

  lemma FrameTracked(p: Core, q: Core, read: Reader, ks: seq<nat>, n: nat) returns (ks': seq<nat>)
    requires CoreOk(q) && Tracked(p, Exec(q, [], 0), ks) && AllPaced(p, q, ks, 0, n)
    ensures Tracked(p, RenderFrame(q, read).exec, ks') && AllPaced(p, RenderFrame(q, read).exec.core, ks', 0, n + 1)
  {
    assert FrameStart(q).exec.core.channels == q.channels;
    ks' := MixTracked(p, FrameStart(q), 0, read, ks, n);
  }

  lemma NothingYet(p: Core)
    requires CoreOk(p) && PhasesOk(p)
    ensures Tracked(p, Exec(p, [], 0), [0, 0, 0, 0]) && AllPaced(p, p, [0, 0, 0, 0], 0, 0)
  {
  }

  lemma NextFrame(p: Core, e: Exec, ks: seq<nat>)
    requires Tracked(p, e, ks)
    ensures Tracked(p, Exec(e.core, [], 0), ks)
  {
  }

  /** However many frames are rendered, whatever the samples: where every cursor stands, what
      was fetched in the last frame, and how many ticks the phases account for. */
  lemma {:induction false} FramesTracked(p: Core, readers: seq<Reader>) returns (ks: seq<nat>)
    requires CoreOk(p) && PhasesOk(p)
    ensures Tracked(p, Exec(Frames(p, readers), [], 0), ks) && AllPaced(p, Frames(p, readers), ks, 0, |readers|)
    ensures readers != [] ==> Tracked(p, LastFrame(p, readers).exec, ks)
    decreases |readers|
  {
    if readers == [] {
      ks := [0, 0, 0, 0];
      NothingYet(p);
    } else {
      var last := |readers| - 1;
      var q := Frames(p, readers[..last]);
      ks := FramesTracked(p, readers[..last]);
      ks := FrameTracked(p, q, readers[last], ks, last);
      NextFrame(p, LastFrame(p, readers).exec, ks);
    }
  }

  lemma FramesKeepPhases(p: Core, readers: seq<Reader>)
    requires CoreOk(p) && PhasesOk(p)
    ensures PhasesOk(Frames(p, readers))
  {
    var ks := FramesTracked(p, readers);
  }

  // ---------------------------------------------------------------- how far 32 frames reach

  lemma {:induction false} TotalMonotone(low: real, high: real, n: nat)
    requires low <= high
    ensures Total(low, n) <= Total(high, n)
  {
    if n > 0 {
      TotalMonotone(low, high, n - 1);
    }
  }

  /** From period 3 up a channel steps fewer than 24.64 samples a frame. */
  lemma SlowStep(period: nat)
    requires period >= 3
    ensures PhaseStep(period) <= 24.64
  {
    var d := period as real;
    var q := CLOCK_HZ / d;
    assert q * d == CLOCK_HZ;
    assert q >= 0.0 && q * (d - 3.0) >= 0.0;
    assert q * d == q * (d - 3.0) + q * 3.0;
  }

  lemma FastStep(period: nat)
    requires period == 1 || period == 2
    ensures PhaseStep(period) >= 36.9
  {
  }

  lemma SweepTotals()
    ensures Total(24.64, SWEEP_FRAMES) <= 789.0 && Total(36.9, SWEEP_FRAMES) >= 1180.0
  {
    TotalIs(24.64, SWEEP_FRAMES);
    TotalIs(36.9, SWEEP_FRAMES);
  }

  lemma {:induction false} TotalIs(step: real, n: nat)
    ensures Total(step, n) == step * n as real
  {
    if n > 0 {
      TotalIs(step, n - 1);
      var m := (n - 1) as real;
      assert n as real == m + 1.0;
      assert step * (m + 1.0) == step * m + step;
    }
  }

  lemma {:induction false} TotalGrows(step: real, n: nat, m: nat)
    requires step >= 0.0 && n <= m
    ensures Total(step, n) <= Total(step, m)
    decreases m
  {
    if n < m {
      TotalGrows(step, n, m - 1);
    }
  }

  /** A sweep's worth of frames fetches at most 512 words on a channel of period 3 or more. */
  lemma SweepFits(c: Channel, d: Channel, k: nat, n: nat)
    requires Paced(c, d, k, n) && n <= SWEEP_FRAMES && c.period >= 3 && c.phase < 1.0
    ensures Fetches(c.onLowByte, k) <= WINDOW_WORDS
  {
    SlowStep(c.period);
    StepPositive(c.period);
    TotalGrows(PhaseStep(c.period), n, SWEEP_FRAMES);
    TotalMonotone(PhaseStep(c.period), 24.64, SWEEP_FRAMES);
    SweepTotals();
    assert k as real <= 790.0;
  }

  lemma SweepOverflows(c: Channel, d: Channel, k: nat)
    requires Paced(c, d, k, SWEEP_FRAMES) && (c.period == 1 || c.period == 2) && c.phase >= 0.0
    ensures Fetches(c.onLowByte, k) > WINDOW_WORDS
  {
    FastStep(c.period);
    TotalMonotone(36.9, PhaseStep(c.period), SWEEP_FRAMES);
    SweepTotals();
    assert k as real >= 1179.0;
  }

  /** Exactly: the 32 frames between two sweeps stay within the window of 512 words if and only
      if the period is 3 or more. */
  lemma SweepFitsIff(c: Channel, d: Channel, k: nat)
    requires Paced(c, d, k, SWEEP_FRAMES) && 0.0 <= c.phase < 1.0 && c.period > 0
    ensures Fetches(c.onLowByte, k) <= WINDOW_WORDS <==> c.period >= 3
  {
    if c.period >= 3 {
      SweepFits(c, d, k, SWEEP_FRAMES);
    } else {
      SweepOverflows(c, d, k);
    }
  }

  // ---------------------------------------------------------------- every read was asked for

  /** The channels play looped samples at period 3 or more, away from the address limit. */
  ghost predicate Sweepable(p: Core)
    requires CoreOk(p)
  {
    forall ch :: 0 <= ch < CHANNELS && Enabled(p.dmaCon, ch) ==>
      NoWrap(FetchStateOf(p, ch)) && p.channels[ch].lenLatched > 0 && p.channels[ch].period >= 3
  }

  lemma FetchedIsWord(p: Core, e: Exec, ks: seq<nat>, b: nat) returns (ch: nat, i: nat)
    requires Tracked(p, e, ks) && b < |e.fetched|
    ensures ch < CHANNELS && Enabled(p.dmaCon, ch)
    ensures i < Fetches(p.channels[ch].onLowByte, ks[ch]) && IsWordByte(e.fetched[b], p.channels[ch], i)
  {
    assert FromAny(p, ks, e.fetched[b]);
    ch :| 0 <= ch < CHANNELS && Enabled(p.dmaCon, ch) && FromChannel(e.fetched[b], p.channels[ch], ks[ch]);
    i :| i < Fetches(p.channels[ch].onLowByte, ks[ch]) && IsWordByte(e.fetched[b], p.channels[ch], i);
  }

  /** What any of the 32 frames reads is in the sweep's plan. */
  lemma FrameReadIsPlanned(p: Core, readers: seq<Reader>, b: nat) returns (ch: nat)
    requires Regular(p) && Sweepable(p) && 0 < |readers| <= SWEEP_FRAMES
    requires b < |LastFrame(p, readers).exec.fetched|
    ensures ch < CHANNELS && Covered(LastFrame(p, readers).exec.fetched[b], ChannelPlan(FetchStateOf(p, ch)))
  {
    var ks := FramesTracked(p, readers);
    var i;
    ch, i := FetchedIsWord(p, LastFrame(p, readers).exec, ks, b);
    WordIsPlanned(p, Frames(p, readers), ks, |readers|, ch, i);
  }

  lemma WordIsPlanned(p: Core, q: Core, ks: seq<nat>, n: nat, ch: nat, i: nat)
    requires Regular(p) && Sweepable(p) && CoreOk(q) && |ks| == CHANNELS && AllPaced(p, q, ks, 0, n)
    requires n <= SWEEP_FRAMES && ch < CHANNELS && Enabled(p.dmaCon, ch)
    requires i < Fetches(p.channels[ch].onLowByte, ks[ch])
    ensures WordCovered(p, ch, i)
  {
    assert Paced(p.channels[ch], q.channels[ch], ks[ch], n);
    SweepFits(p.channels[ch], q.channels[ch], ks[ch], n);
    WindowCoveredIff(p, ch);
  }

  /** The sweep outlasts its countdown: in each of the 32 frames it is good for, with all four
      channels playing and whatever the samples, every chip RAM address read lies in a page
      that is asked for or ready at the moment of the read, if no stale load held the page when
      the sweep began and no bus write came since, in every interleaving with the worker. */
  lemma SweepOutlastsCountdown(p: Core, s: PageCache.State, sweep: seq<PageCache.Action>,
                               after: seq<PageCache.Action>, readers: seq<Reader>, b: nat)
    requires Regular(p) && Sweepable(p) && 0 < |readers| <= SWEEP_FRAMES
    requires b < |LastFrame(p, readers).exec.fetched|
    requires Safe(s) && Sweep.Sweeps(s, sweep, PlanFrom(p, 0)) && WriterFree(after)
    ensures var a := LastFrame(p, readers).exec.fetched[b];
            a < CHIP_LIMIT && !Doomed(s, PageOf(a)) ==> Wanted(Run(Run(s, sweep), after), PageOf(a))
  {
    var a := LastFrame(p, readers).exec.fetched[b];
    var ch := FrameReadIsPlanned(p, readers, b);
    if a < CHIP_LIMIT && !Doomed(s, PageOf(a)) {
      Sweep.SweptAddressStaysWanted(p, s, sweep, after, ch, a);
    }
  }
}
