/** How often the lookahead sweeps, and that this is often enough: over runs of any length every
    chip RAM address a frame reads lies in a page that is asked for or ready. */
module Cadence {
  import opened Words
  import opened PaulaCore
  import opened Transaction
  import opened PageCache
  import opened PageCacheSafety
  import opened PageCacheTheorems
  import opened PageCacheDrain
  import opened Recovery
  import opened CacheFrames
  import opened CachedRuns
  import opened LookaheadFrames
  import PaulaInvariant
  import Lookahead
  import Sweep
  import SweepFrames
  import MirrorFrames

  // ---------------------------------------------------------------- the countdown

  /** A frame misses that does not follow a frame that missed. */
  ghost predicate WaitBegins(v: Live, e: Event)
    requires LiveOk(v)
  {
    Fails(v, e) && !v.waiting
  }

  ghost predicate FramesOnly(v: Live, events: seq<Event>)
    requires LiveOk(v)
    decreases |events|
  {
    events == []
    || (events[0].FrameDue? && !WaitBegins(v, events[0]) && FramesOnly(LiveStep(v, events[0]), events[1..]))
  }

  lemma CountdownStep(v: Live, e: Event)
    requires LiveOk(v)
    ensures var c := LiveStep(v, e).countdown;
            && (e.FrameDue? ==>
                  c == if WaitBegins(v, e) then 0 else if v.countdown == 0 then 31 else v.countdown - 1)
            && LiveStep(v, e).waiting ==
                 (if e.FrameDue? then Fails(v, e) else if e.Resync? then false else v.waiting)
            && (e.RegisterWrite? || e.MixerRequest? ==> c == v.countdown)
            && (e.Resync? ==> c == 0)
  {
  }

  /** n frames after the countdown stood at c. */
  function CountedDown(c: nat, n: nat): nat {
    (c + 31 * n) % 32
  }

  lemma CountsDown(c: nat, n: nat)
    requires c < 32 && n > 0
    ensures CountedDown(if c == 0 then 31 else c - 1, n - 1) == CountedDown(c, n)
  {
    if c > 0 {
      ThirtyTwoLess(c + 31 * n);
    } else {
      assert 31 + 31 * (n - 1) == 31 * n;
    }
  }

  lemma ThirtyTwoLess(x: nat)
    requires x >= 32
    ensures (x - 32) % 32 == x % 32
  {
  }

  lemma CountedFrom(c: nat)
    requires c < 32
    ensures CountedDown(c, 0) == c && (if c == 0 then 31 else c - 1) < 32
  {
  }

  lemma DueAfter(n: nat)
    ensures CountedDown(0, n) == 0 <==> n % 32 == 0
  {
  }

  lemma {:induction false} CountdownRuns(v: Live, events: seq<Event>)
    requires LiveOk(v) && v.countdown < 32 && FramesOnly(v, events)
    ensures LiveEnd(v, events).countdown == CountedDown(v.countdown, |events|)
    decreases |events|
  {
    CountedFrom(v.countdown);
    if events != [] {
      CountdownStep(v, events[0]);
      CountsDown(v.countdown, |events|);
      CountdownRuns(LiveStep(v, events[0]), events[1..]);
    }
  }

  /** From a sweep on, one is due again after every 32nd frame and after no other, as long as no
      frame begins to wait for the cache; one that does makes it due at once (CountdownStep). */
  lemma SweepCadence(v: Live, events: seq<Event>)
    requires LiveOk(v) && v.countdown == 0 && FramesOnly(v, events)
    ensures LiveEnd(v, events).countdown == 0 <==> |events| % 32 == 0
  {
    CountdownRuns(v, events);
    DueAfter(|events|);
  }

  // ---------------------------------------------------------------- channels that stay in range

  /** The block and the loop lie below the address limit, at a period the sweep keeps up with. */
  predicate Settled(c: Channel) {
    && c.curPtr + 2 * c.wordsLeft <= U32 && c.locLatched + 2 * c.lenLatched <= U32
    && c.lenLatched > 0 && c.period >= 3
  }

  ghost predicate AllSettled(p: Core)
    requires CoreOk(p)
  {
    forall ch :: 0 <= ch < CHANNELS && Enabled(p.dmaCon, ch) ==> Settled(p.channels[ch])
  }

  lemma SettledIsSweepable(p: Core)
    requires CoreOk(p) && AllSettled(p)
    ensures Sweepable(p)
  {
  }

  lemma TickKeepsSettled(e: Exec, ch: nat, read: Reader)
    requires ExecOk(e) && ch < CHANNELS && AllSettled(e.core)
    ensures AllSettled(Advance(e, ch, read).core)
  {
    var c, r := e.core.channels[ch], Advance(e, ch, read);
    AdvanceFrame(e, ch, read);
    if Enabled(e.core.dmaCon, ch) {
      FetchKeepsSettled(c, read(|e.fetched|, FetchPtr(c)), read(|e.fetched| + 1, (FetchPtr(c) + 1) % U32));
      assert Settled(r.core.channels[ch]);
    }
  }

  lemma FetchKeepsSettled(c: Channel, l: Byte, h: Byte)
    requires Settled(c)
    ensures Settled(Fetch(c, l, h)) && Settled(SecondByte(c))
  {
  }

  lemma PhaseKeepsSettled(e: Exec, ch: nat, phase: real)
    requires ExecOk(e) && ch < CHANNELS && AllSettled(e.core)
    ensures AllSettled(WithPhase(e, ch, phase).core)
  {
  }

  lemma {:induction false} TicksKeepSettled(e: Exec, ch: nat, read: Reader)
    requires ExecOk(e) && ch < CHANNELS && AllSettled(e.core)
    ensures AllSettled(Ticks(e, ch, read).core)
    decreases Phase(e, ch).Floor
  {
    if Phase(e, ch) >= 1.0 {
      var d := WithPhase(e, ch, Phase(e, ch) - 1.0);
      PhaseKeepsSettled(e, ch, Phase(e, ch) - 1.0);
      TickKeepsSettled(d, ch, read);
      TicksKeepSettled(Advance(d, ch, read), ch, read);
    }
  }

  lemma MixOneKeepsSettled(f: Frame, ch: nat, read: Reader)
    requires ExecOk(f.exec) && ch < CHANNELS && AllSettled(f.exec.core)
    ensures AllSettled(MixChannel(f, ch, read).exec.core)
  {
    PhaseKeepsSettled(f.exec, ch, Phase(f.exec, ch) + PhaseStep(f.exec.core.channels[ch].period));
    TicksKeepSettled(Started(f.exec, ch), ch, read);
    var played := Ticks(Started(f.exec, ch), ch, read);
    assert MixChannel(f, ch, read).exec.core.channels
           == played.core.channels[ch := Glided(played.core.channels[ch])];
  }

  lemma {:induction false} MixKeepsSettled(f: Frame, ch: nat, read: Reader)
    requires ExecOk(f.exec) && ch <= CHANNELS && AllSettled(f.exec.core)
    ensures AllSettled(MixFrom(f, ch, read).exec.core)
    decreases CHANNELS - ch
  {
    if ch < CHANNELS {
      MixOneKeepsSettled(f, ch, read);
      MixKeepsSettled(MixChannel(f, ch, read), ch + 1, read);
    }
  }

  lemma FrameKeepsSettled(p: Core, read: Reader)
    requires CoreOk(p) && AllSettled(p)
    ensures AllSettled(RenderFrame(p, read).exec.core)
  {
    assert FrameStart(p).exec.core.channels == p.channels && FrameStart(p).exec.core.dmaCon == p.dmaCon;
    MixKeepsSettled(FrameStart(p), 0, read);
  }

  // ---------------------------------------------------------------- frames with their sweeps

  /** One pass of the renderer: the sweep if it is due, the frame's reads, and what the worker
      does until the next. */
  datatype Pass = Pass(sweep: seq<Action>, accesses: seq<Action>, between: seq<Action>)

  ghost predicate SweepsIfDue(w: World, t: Pass)
    requires WorldOk(w)
  {
    if w.live.countdown == 0 then Sweep.Sweeps(w.cache, t.sweep, Lookahead.PlanFrom(w.live.core, 0))
    else t.sweep == []
  }

  ghost function Swept(w: World, t: Pass): (r: World)
    requires WorldOk(w)
    ensures WorldOk(r)
  {
    After(w, CacheMoves(t.sweep))
  }

  ghost function Passed(w: World, t: Pass): (r: World)
    requires WorldOk(w)
    ensures WorldOk(r)
  {
    After(After(Swept(w, t), FrameRead(t.accesses)), CacheMoves(t.between))
  }

  ghost predicate Passes(w: World, t: Pass)
    requires WorldOk(w)
  {
    && SweepsIfDue(w, t) && FrameThroughCache(w.live.core, Swept(w, t).cache, t.accesses)
    && WorkerOnly(t.between)
  }

  ghost predicate AllPass(w: World, passes: seq<Pass>)
    requires WorldOk(w)
    decreases |passes|
  {
    passes == [] || (Passes(w, passes[0]) && AllPass(Passed(w, passes[0]), passes[1..]))
  }

  /** The last sweep: core and cache when it began, its run, the cache's run since and what the
      committed frames since were answered. */
  datatype Mark = Mark(core: Core, cache: State, sweep: seq<Action>, since: seq<Action>, readers: seq<Reader>)

  ghost predicate MarkOk(m: Mark) {
    && PaulaInvariant.Regular(m.core) && AllSettled(m.core) && Safe(m.cache) && NoStaleLoad(m.cache)
    && Sweep.Sweeps(m.cache, m.sweep, Lookahead.PlanFrom(m.core, 0)) && WriterFree(m.since)
  }

  /** The world stands where the last sweep has led it. */
  ghost predicate Marked(w: World, m: Mark)
    requires WorldOk(w)
  {
    && MarkOk(m) && w.cache == Run(Run(m.cache, m.sweep), m.since) && w.live.core == Frames(m.core, m.readers)
  }

  /** And no more frames have been rendered since than the countdown has counted. */
  ghost predicate InTime(w: World, m: Mark)
    requires WorldOk(w)
  {
    w.live.countdown == 0 || (Marked(w, m) && |m.readers| + w.live.countdown <= SWEEP_FRAMES)
  }

  ghost predicate Steady(w: World) {
    && WorldOk(w) && PaulaInvariant.Regular(w.live.core) && AllSettled(w.live.core)
    && w.cache.writer == Quiet && w.cache.renderer == Idle && NoStaleLoad(w.cache)
  }

  /** At every moment of the frame's reads, every chip RAM address it reads lies in a page that
      is asked for or ready. */
  ghost predicate ReadsAskedFor(p: Core, s: State, accesses: seq<Action>)
    requires CoreOk(p) && InRange(s)
  {
    var fetched := RenderFrame(p, Replies(AfterReads(s, accesses).history, |s.history|)).exec.fetched;
    forall j :: 0 <= j <= |accesses| ==> AllAskedFor(AfterReads(s, accesses[..j]), fetched)
  }

  lemma SweptMarked(w: World, t: Pass, m: Mark) returns (m1: Mark)
    requires Steady(w) && InTime(w, m) && Passes(w, t)
    ensures Marked(Swept(w, t), m1)
    ensures |m1.readers| + (if w.live.countdown == 0 then SWEEP_FRAMES else w.live.countdown) <= SWEEP_FRAMES
  {
    if w.live.countdown == 0 {
      m1 := Mark(w.live.core, w.cache, t.sweep, [], []);
    } else {
      m1 := m;
      assert Swept(w, t).cache == w.cache;
    }
  }

  lemma SweptSteady(w: World, t: Pass)
    requires Steady(w) && SweepsIfDue(w, t)
    ensures Steady(Swept(w, t)) && Swept(w, t).live == w.live
  {
    if w.live.countdown == 0 {
      Sweep.SweepIsWriterFree(w.cache, t.sweep, Lookahead.PlanFrom(w.live.core, 0));
      WriterStaysQuiet(w.cache, t.sweep);
      NoStaleRun(w.cache, t.sweep);
    }
  }

  lemma {:induction false} NoStaleRun(s: State, actions: seq<Action>)
    requires Safe(s) && NoStaleLoad(s) && WriterFree(actions)
    ensures NoStaleLoad(Run(s, actions))
    decreases |actions|
  {
    if actions != [] {
      StepKeepsSafe(s, actions[0]);
      NoStaleStep(s, actions[0]);
      NoStaleRun(Step(s, actions[0]), actions[1..]);
    }
  }

  // ---------------------------------------------------------------- one pass

  function ReaderOf(s: State, accesses: seq<Action>): Reader
    requires InRange(s)
  {
    Replies(AfterReads(s, accesses).history, |s.history|)
  }

  lemma NextReader(p: Core, readers: seq<Reader>, read: Reader)
    requires CoreOk(p)
    ensures Frames(p, readers + [read]) == RenderFrame(Frames(p, readers), read).exec.core
    ensures LastFrame(p, readers + [read]) == RenderFrame(Frames(p, readers), read)
  {
    assert (readers + [read])[..|readers|] == readers;
  }

  lemma RunsOn(m: Mark, more: seq<Action>)
    requires MarkOk(m) && WriterFree(more)
    ensures WriterFree(m.since + more)
    ensures Run(Run(m.cache, m.sweep), m.since + more) == Run(Run(Run(m.cache, m.sweep), m.since), more)
  {
    RunSplits(Run(m.cache, m.sweep), m.since, more);
  }

  lemma BeganRuns(s: State, accesses: seq<Action>)
    requires InRange(s) && WriterFree(accesses)
    ensures WriterFree([BeginFrame] + accesses) && Run(s, [BeginFrame] + accesses) == AfterReads(s, accesses)
  {
    assert ([BeginFrame] + accesses)[1..] == accesses;
  }

  lemma MarkedReads(w: World, m: Mark, accesses: seq<Action>)
    requires WorldOk(w) && Marked(w, m) && |m.readers| < SWEEP_FRAMES
    requires FrameThroughCache(w.live.core, w.cache, accesses)
    ensures ReadsAskedFor(w.live.core, w.cache, accesses)
  {
    var read := ReaderOf(w.cache, accesses);
    var readers, fetched := m.readers + [read], RenderFrame(w.live.core, read).exec.fetched;
    NextReader(m.core, m.readers, read);
    SettledIsSweepable(m.core);
    assert fetched == LastFrame(m.core, readers).exec.fetched;
    forall j | 0 <= j <= |accesses|
      ensures AllAskedFor(AfterReads(w.cache, accesses[..j]), fetched)
    {
      MarkedMoment(w.cache, m, accesses[..j], readers);
    }
  }

  ghost predicate AllAskedFor(s: State, fetched: seq<nat>)
    requires InRange(s)
  {
    forall b :: 0 <= b < |fetched| && fetched[b] < CHIP_LIMIT ==> Wanted(s, PageOf(fetched[b]))
  }

  lemma MarkedMoment(s: State, m: Mark, accesses: seq<Action>, readers: seq<Reader>)
    requires MarkOk(m) && Sweepable(m.core) && InRange(s) && s == Run(Run(m.cache, m.sweep), m.since)
    requires WriterFree(accesses) && 0 < |readers| <= SWEEP_FRAMES
    ensures AllAskedFor(AfterReads(s, accesses), LastFrame(m.core, readers).exec.fetched)
  {
    var fetched := LastFrame(m.core, readers).exec.fetched;
    BeganRuns(s, accesses);
    RunsOn(m, [BeginFrame] + accesses);
    forall b | 0 <= b < |fetched| && fetched[b] < CHIP_LIMIT
      ensures Wanted(AfterReads(s, accesses), PageOf(fetched[b]))
    {
      NoneDoomed(m.cache, PageOf(fetched[b]));
      SweepOutlastsCountdown(m.core, m.cache, m.sweep, m.since + ([BeginFrame] + accesses), readers, b);
    }
  }

  lemma NoneDoomed(s: State, p: nat)
    requires InRange(s) && p < PAGE_COUNT && NoStaleLoad(s)
    ensures !Doomed(s, p)
  {
  }

  /** What a pass leaves of the mark: one frame more if it was committed. */
  function Moved(w: World, m: Mark, t: Pass): Mark
    requires InRange(w.cache)
  {
    var s1 := AfterReads(w.cache, t.accesses);
    m.(since := m.since + ([BeginFrame] + t.accesses) + t.between,
       readers := if s1.renderMiss then m.readers else m.readers + [ReaderOf(w.cache, t.accesses)])
  }

  lemma MovedMarked(w: World, m: Mark, t: Pass)
    requires WorldOk(w) && Marked(w, m) && FrameThroughCache(w.live.core, w.cache, t.accesses) && WorkerOnly(t.between)
    ensures Marked(After(After(w, FrameRead(t.accesses)), CacheMoves(t.between)), Moved(w, m, t))
  {
    BeganRuns(w.cache, t.accesses);
    RunsOn(m, [BeginFrame] + t.accesses);
    var m1 := m.(since := m.since + ([BeginFrame] + t.accesses));
    RunsOn(m1, t.between);
    NextReader(m.core, m.readers, ReaderOf(w.cache, t.accesses));
  }

  /** A frame counts down, unless it begins to wait. */
  lemma RenderedCounts(v: Live, s: State, accesses: seq<Action>)
    requires LiveOk(v) && InRange(s)
    ensures var r, n := Rendered(v, s, accesses), if v.countdown == 0 then 31 else v.countdown - 1;
            && (r.countdown == n || r.countdown == 0)
            && r.core == if AfterReads(s, accesses).renderMiss then v.core
                         else RenderFrame(v.core, ReaderOf(s, accesses)).exec.core
  {
  }

  lemma PassSteady(w: World, t: Pass)
    requires Steady(w) && FrameThroughCache(w.live.core, w.cache, t.accesses) && WorkerOnly(t.between)
    ensures Steady(After(After(w, FrameRead(t.accesses)), CacheMoves(t.between)))
  {
    var s1 := AfterReads(w.cache, t.accesses);
    BeganRuns(w.cache, t.accesses);
    WriterStaysQuiet(w.cache, [BeginFrame] + t.accesses);
    NoStaleRun(w.cache, [BeginFrame] + t.accesses);
    RunKeepsSafe(w.cache, [BeginFrame] + t.accesses);
    WriterStaysQuiet(s1, t.between);
    NoStaleRun(s1, t.between);
    IdleStays(s1, t.between);
    RenderedCounts(w.live, w.cache, t.accesses);
    PaulaInvariant.FrameKeepsRegular(w.live.core, ReaderOf(w.cache, t.accesses));
    FrameKeepsSettled(w.live.core, ReaderOf(w.cache, t.accesses));
  }

  lemma PassInTime(w: World, t: Pass, m: Mark) returns (m': Mark)
    requires Steady(w) && InTime(w, m) && Passes(w, t)
    ensures ReadsAskedFor(w.live.core, Swept(w, t).cache, t.accesses)
    ensures Steady(Passed(w, t)) && InTime(Passed(w, t), m')
  {
    var m1 := SweptMarked(w, t, m);
    var w1 := Swept(w, t);
    SweptSteady(w, t);
    MarkedReads(w1, m1, t.accesses);
    MovedMarked(w1, m1, t);
    PassSteady(w1, t);
    RenderedCounts(w1.live, w1.cache, t.accesses);
    m' := Moved(w1, m1, t);
  }

  ghost predicate EveryReadAskedFor(w: World, passes: seq<Pass>)
    requires WorldOk(w)
    decreases |passes|
  {
    passes == []
    || (ReadsAskedFor(w.live.core, Swept(w, passes[0]).cache, passes[0].accesses)
        && EveryReadAskedFor(Passed(w, passes[0]), passes[1..]))
  }

  lemma {:induction false} PassesInTime(w: World, passes: seq<Pass>, m: Mark)
    requires Steady(w) && InTime(w, m) && AllPass(w, passes)
    ensures EveryReadAskedFor(w, passes)
    decreases |passes|
  {
    if passes != [] {
      var m' := PassInTime(w, passes[0], m);
      PassesInTime(Passed(w, passes[0]), passes[1..], m');
    }
  }

  /** The sweeps are often enough: over any number of frames, committed or rolled back, each
      preceded by a sweep when the countdown says so and by none otherwise, with the worker
      interleaved anywhere and no bus or register write, every chip RAM address any of them
      reads lies in a page asked for or ready throughout the frame's reads. */
  lemma {:induction false} SweepsAreOftenEnough(w: World, passes: seq<Pass>)
    requires Steady(w) && w.live.countdown == 0 && AllPass(w, passes)
    ensures EveryReadAskedFor(w, passes)
  {
    PassesInTime(w, passes, Mark(w.live.core, w.cache, [], [], []));
  }

  /** Such runs of any length exist from every steady world at rest. */
  lemma {:induction false} PassesHappen(w: World, n: nat) returns (passes: seq<Pass>)
    requires Steady(w) && w.cache.worker == Resting
    ensures |passes| == n && AllPass(w, passes)
    decreases n
  {
    passes := [];
    if n > 0 {
      var first := PassHappens(w);
      var rest := PassesHappen(Passed(w, first), n - 1);
      passes := [first] + rest;
    }
  }

  lemma SweepHappens(w: World) returns (sweep: seq<Action>)
    requires Steady(w) && w.cache.worker == Resting
    ensures var t := Pass(sweep, [], []);
            && SweepsIfDue(w, t) && Steady(Swept(w, t)) && Swept(w, t).live == w.live
            && Swept(w, t).cache.worker == Resting
  {
    sweep := [];
    if w.live.countdown == 0 {
      sweep := Sweep.SweepRuns(w.cache, Lookahead.PlanFrom(w.live.core, 0));
      SweepFrames.PlannedAtRest(w.cache, Lookahead.PlanFrom(w.live.core, 0));
    }
    SweptSteady(w, Pass(sweep, [], []));
  }

  lemma ReadsHappen(w: World) returns (accesses: seq<Action>)
    requires Steady(w) && w.cache.worker == Resting
    ensures FrameThroughCache(w.live.core, w.cache, accesses)
    ensures AfterReads(w.cache, accesses).worker == Resting
  {
    accesses := MirrorFrames.ReadsAttempt(w.live.core, w.cache);
    MirrorFrames.ReadsLogged(w.cache.(renderMiss := false), MirrorFrames.FrameReads(w.live.core, w.cache));
  }

  lemma PassHappens(w: World) returns (t: Pass)
    requires Steady(w) && w.cache.worker == Resting
    ensures Passes(w, t) && Steady(Passed(w, t)) && Passed(w, t).cache.worker == Resting
  {
    var sweep := SweepHappens(w);
    var w1 := Swept(w, Pass(sweep, [], []));
    var accesses := ReadsHappen(w1);
    t := Pass(sweep, accesses, []);
    PassSteady(w1, t);
  }
}
