/** A sweep that the worker has drained: none of the next 32 frames misses. */
module SweepFrames {
  import opened Words
  import opened PaulaCore
  import opened Transaction
  import opened PaulaInvariant
  import opened PageCache
  import opened PageCacheSafety
  import opened PageCacheTheorems
  import opened PageCacheDrain
  import opened Recovery
  import opened Sweep
  import Lookahead
  import LookaheadFrames
  import Mirror

  /** The cache after each frame's reads, one after another. */
  function AfterFrames(s: State, frames: seq<seq<Action>>): (s': State)
    requires InRange(s)
    ensures InRange(s')
  {
    if frames == [] then s else Run(AfterFrames(s, frames[..|frames| - 1]), frames[|frames| - 1])
  }

  /** What the cache answered in each frame. */
  function ReadersOf(s: State, frames: seq<seq<Action>>): (r: seq<Reader>)
    requires InRange(s)
    ensures |r| == |frames|
  {
    if frames == [] then []
    else
      var before := frames[..|frames| - 1];
      ReadersOf(s, before) + [Replies(AfterFrames(s, frames).history, |AfterFrames(s, before).history|)]
  }

  /** The runs are the reads of consecutive frames of core p through the cache, with worker
      steps anywhere and no bus write. */
  ghost predicate PlaysFrames(p: Core, s: State, frames: seq<seq<Action>>)
    requires CoreOk(p) && InRange(s)
  {
    AllWriterFree(frames) && AttemptsFrames(p, s, frames)
  }

  predicate AllWriterFree(frames: seq<seq<Action>>) {
    forall i :: 0 <= i < |frames| ==> WriterFree(frames[i])
  }

  ghost predicate AttemptsFrames(p: Core, s: State, frames: seq<seq<Action>>)
    requires CoreOk(p) && InRange(s)
  {
    frames == []
    || (var before := frames[..|frames| - 1];
        && AttemptsFrames(p, s, before) && AfterFrames(s, frames).renderer == Idle
        && Attempts(LookaheadFrames.Frames(p, ReadersOf(s, before)),
                    AfterFrames(s, frames).history, |AfterFrames(s, before).history|))
  }

  /** The frames' runs in a row are one run. */
  lemma {:induction false} FramesRun(s: State, frames: seq<seq<Action>>) returns (actions: seq<Action>)
    requires InRange(s) && AllWriterFree(frames)
    ensures WriterFree(actions) && Run(s, actions) == AfterFrames(s, frames)
    decreases |frames|
  {
    if frames == [] {
      actions := [];
    } else {
      var last := |frames| - 1;
      actions := FramesRun(s, frames[..last]);
      RunSplits(s, actions, frames[last]);
      actions := actions + frames[last];
    }
  }

  lemma StepGrowsHistory(s: State, a: Action)
    requires InRange(s)
    ensures s.history <= Step(s, a).history
  {
  }

  lemma {:induction false} HistoryGrows(s: State, actions: seq<Action>)
    requires InRange(s)
    ensures s.history <= Run(s, actions).history
    decreases |actions|
  {
    if actions != [] {
      StepGrowsHistory(s, actions[0]);
      HistoryGrows(Step(s, actions[0]), actions[1..]);
    }
  }

  /** The frame the last run belongs to is the next one of the core. */
  lemma LastFrameIs(p: Core, s: State, frames: seq<seq<Action>>)
    requires CoreOk(p) && InRange(s) && frames != [] && PlaysFrames(p, s, frames)
    ensures var before := frames[..|frames| - 1];
            LookaheadFrames.LastFrame(p, ReadersOf(s, frames))
            == RenderFrame(LookaheadFrames.Frames(p, ReadersOf(s, before)),
                           Replies(AfterFrames(s, frames).history, |AfterFrames(s, before).history|))
  {
    var before, readers := frames[..|frames| - 1], ReadersOf(s, frames);
    assert readers[..|readers| - 1] == ReadersOf(s, before);
  }

  /** After a sweep and a drain every page that a frame reads is ready. */
  lemma DrainedPageIsReady(p: Core, s0: State, sweep: seq<Action>, drain: seq<Action>, readers: seq<Reader>, b: nat)
    requires Regular(p) && LookaheadFrames.Sweepable(p) && 0 < |readers| <= LookaheadFrames.SWEEP_FRAMES
    requires b < |LookaheadFrames.LastFrame(p, readers).exec.fetched|
    requires Safe(s0) && NoStaleLoad(s0) && Sweeps(s0, sweep, Lookahead.PlanFrom(p, 0))
    requires WorkerOnly(drain) && Drained(Run(Run(s0, sweep), drain))
    ensures var a := LookaheadFrames.LastFrame(p, readers).exec.fetched[b];
            a < CHIP_LIMIT ==> Run(Run(s0, sweep), drain).meta[PageOf(a)].st == Ready
  {
    var a := LookaheadFrames.LastFrame(p, readers).exec.fetched[b];
    if a < CHIP_LIMIT {
      assert !Doomed(s0, PageOf(a));
      LookaheadFrames.SweepOutlastsCountdown(p, s0, sweep, [], readers, b);
      RunKeepsSafe(s0, sweep);
      SweepIsWriterFree(s0, sweep, Lookahead.PlanFrom(p, 0));
      DrainMakesReady(Run(s0, sweep), drain, PageOf(a));
    }
  }

  /** Reads that only touch pages ready at the start all hit, with chip RAM's bytes. */
  lemma ReadyReadsHit(s: State, actions: seq<Action>, n: nat)
    requires Safe(s) && s.renderer == Idle && s.writer == Quiet && WriterFree(actions)
    requires |s.history| <= n <= |Run(s, actions).history| && OfReadyPages(s, Run(s, actions).history, n)
    ensures NoMiss(Run(s, actions).history, n) && AllHits(RamOf(s), Run(s, actions).history, n)
  {
    var h := Run(s, actions).history;
    forall k | n <= k < |h|
      ensures !h[k].Miss? && AnswerAt(h, k) == RamReader(RamOf(s))(k - n, AddressOf(h[k]))
    {
      ReadsAnswerFromRam(s, actions, k);
    }
  }

  lemma ReadyAddresses(s: State, h: seq<ReadRecord>, n: nat, fetched: seq<nat>)
    requires InRange(s) && n <= |h| && fetched == Addresses(h, n)
    requires forall b :: 0 <= b < |fetched| && fetched[b] < CHIP_LIMIT ==> s.meta[PageOf(fetched[b])].st == Ready
    ensures OfReadyPages(s, h, n)
  {
    forall k | n <= k < |h| && AddressOf(h[k]) < CHIP_LIMIT
      ensures s.meta[PageOf(AddressOf(h[k]))].st == Ready
    {
      assert fetched[k - n] == AddressOf(h[k]);
    }
  }

  lemma LastReads(p: Core, s: State, frames: seq<seq<Action>>)
    requires CoreOk(p) && InRange(s) && frames != [] && PlaysFrames(p, s, frames)
    ensures var h, n := AfterFrames(s, frames).history, |AfterFrames(s, frames[..|frames| - 1]).history|;
            n <= |h| && LookaheadFrames.LastFrame(p, ReadersOf(s, frames)).exec.fetched == Addresses(h, n)
  {
    LastFrameIs(p, s, frames);
  }

  lemma FrameOfReadyPages(p: Core, s0: State, sweep: seq<Action>, drain: seq<Action>, frames: seq<seq<Action>>)
    requires Regular(p) && LookaheadFrames.Sweepable(p)
    requires Safe(s0) && NoStaleLoad(s0) && Sweeps(s0, sweep, Lookahead.PlanFrom(p, 0))
    requires WorkerOnly(drain) && Drained(Run(Run(s0, sweep), drain))
    requires 0 < |frames| <= LookaheadFrames.SWEEP_FRAMES
    requires PlaysFrames(p, Run(Run(s0, sweep), drain), frames)
    ensures var s := Run(Run(s0, sweep), drain);
            var h, n := AfterFrames(s, frames).history, |AfterFrames(s, frames[..|frames| - 1]).history|;
            n <= |h| && OfReadyPages(s, h, n)
  {
    var s := Run(Run(s0, sweep), drain);
    var readers := ReadersOf(s, frames);
    LastReads(p, s, frames);
    var fetched := LookaheadFrames.LastFrame(p, readers).exec.fetched;
    forall b | 0 <= b < |fetched| && fetched[b] < CHIP_LIMIT
      ensures s.meta[PageOf(fetched[b])].st == Ready
    {
      DrainedPageIsReady(p, s0, sweep, drain, readers, b);
    }
    ReadyAddresses(s, AfterFrames(s, frames).history, |AfterFrames(s, frames[..|frames| - 1]).history|, fetched);
  }

  /** A frame that only touches ready pages has no miss and is the ideal frame. */
  lemma ReadyFrameIsIdeal(p: Core, s: State, frames: seq<seq<Action>>, q: Core, n: nat)
    requires CoreOk(q) && Safe(s) && s.renderer == Idle && s.writer == Quiet && AllWriterFree(frames)
    requires frames != [] && n == |AfterFrames(s, frames[..|frames| - 1]).history|
    requires Attempts(q, AfterFrames(s, frames).history, n) && OfReadyPages(s, AfterFrames(s, frames).history, n)
    ensures NoMiss(AfterFrames(s, frames).history, n)
    ensures RenderFrame(q, Replies(AfterFrames(s, frames).history, n)) == RenderFrame(q, RamReader(RamOf(s)))
  {
    var actions := FramesRun(s, frames);
    var earlier := FramesRun(s, frames[..|frames| - 1]);
    HistoryGrows(s, earlier);
    ReadyReadsHit(s, actions, n);
    HitsRenderIdeal(q, RamOf(s), AfterFrames(s, frames).history, n);
  }

  /** If the worker drains the queue after a sweep and no bus write and no register write comes,
      none of the next 32 frames misses, and each is the frame of a renderer reading RAM. */
  lemma DrainedSweepNeverMisses(p: Core, s0: State, sweep: seq<Action>, drain: seq<Action>, frames: seq<seq<Action>>)
    requires Regular(p) && LookaheadFrames.Sweepable(p)
    requires Safe(s0) && s0.writer == Quiet && NoStaleLoad(s0) && Sweeps(s0, sweep, Lookahead.PlanFrom(p, 0))
    requires WorkerOnly(drain) && Drained(Run(Run(s0, sweep), drain))
    requires 0 < |frames| <= LookaheadFrames.SWEEP_FRAMES
    requires PlaysFrames(p, Run(Run(s0, sweep), drain), frames)
    ensures var s := Run(Run(s0, sweep), drain);
            var before := frames[..|frames| - 1];
            var h, n := AfterFrames(s, frames).history, |AfterFrames(s, before).history|;
            var q := LookaheadFrames.Frames(p, ReadersOf(s, before));
            && NoMiss(h, n)
            && RenderFrame(q, Replies(h, n)) == RenderFrame(q, RamReader(RamOf(s0)))
  {
    var s := Run(Run(s0, sweep), drain);
    var before := frames[..|frames| - 1];
    SweepIsWriterFree(s0, sweep, Lookahead.PlanFrom(p, 0));
    CacheUntouched(s0, sweep);
    CacheUntouched(Run(s0, sweep), drain);
    FrameOfReadyPages(p, s0, sweep, drain, frames);
    var n, q := |AfterFrames(s, before).history|, LookaheadFrames.Frames(p, ReadersOf(s, before));
    ReadyFrameIsIdeal(p, s, frames, q, n);
    SameRamSameFrame(q, s0, s);
  }

  // ---------------------------------------------------------------- such runs exist

  /** No read of any of the frames missed. */
  lemma {:induction false} AllFramesHit(p: Core, s0: State, sweep: seq<Action>, drain: seq<Action>,
                                        frames: seq<seq<Action>>)
    requires Regular(p) && LookaheadFrames.Sweepable(p)
    requires Safe(s0) && s0.writer == Quiet && NoStaleLoad(s0) && Sweeps(s0, sweep, Lookahead.PlanFrom(p, 0))
    requires WorkerOnly(drain) && Drained(Run(Run(s0, sweep), drain))
    requires |frames| <= LookaheadFrames.SWEEP_FRAMES && PlaysFrames(p, Run(Run(s0, sweep), drain), frames)
    ensures var s := Run(Run(s0, sweep), drain);
            NoMiss(AfterFrames(s, frames).history, |s.history|)
    decreases |frames|
  {
    if frames != [] {
      var s, before := Run(Run(s0, sweep), drain), frames[..|frames| - 1];
      AllFramesHit(p, s0, sweep, drain, before);
      DrainedSweepNeverMisses(p, s0, sweep, drain, frames);
      HistoryGrows(AfterFrames(s, before), frames[|frames| - 1]);
      JoinedHistory(AfterFrames(s, before).history, AfterFrames(s, frames).history, |s.history|);
    }
  }

  lemma JoinedHistory(h: seq<ReadRecord>, longer: seq<ReadRecord>, n: nat)
    requires h <= longer && NoMiss(h, n) && NoMiss(longer, |h|)
    ensures NoMiss(longer, n)
  {
    forall k | n <= k < |longer|
      ensures !longer[k].Miss?
    {
      if k < |h| {
        assert longer[k] == h[k];
      }
    }
  }

  lemma {:induction false} PlannedAtRest(s: State, plan: seq<Lookahead.Range>)
    requires Mirror.AtRest(s)
    ensures Mirror.AtRest(Lookahead.Planned(s, plan))
    decreases |plan|
  {
    if plan != [] {
      PrefetchedAtRest(s, plan[0].address, plan[0].length);
      PlannedAtRest(Mirror.Prefetched(s, plan[0].address, plan[0].length), plan[1..]);
    }
  }

  lemma PrefetchedAtRest(s: State, address: nat, length: nat)
    requires Mirror.AtRest(s)
    ensures Mirror.AtRest(Mirror.Prefetched(s, address, length))
  {
    if address < CHIP_LIMIT && length > 0 {
      Mirror.RequestsKeepRest(s, PageOf(address), LastPage(address, length) + 1);
    }
  }

  lemma {:induction false} FramesHappen(p: Core, s: State, n: nat) returns (frames: seq<seq<Action>>)
    requires CoreOk(p) && Mirror.AtRest(s)
    ensures |frames| == n && PlaysFrames(p, s, frames) && Mirror.AtRest(AfterFrames(s, frames))
    decreases n
  {
    if n == 0 {
      frames := [];
    } else {
      var before := FramesHappen(p, s, n - 1);
      var s1 := AfterFrames(s, before);
      var accesses := AttemptRuns(LookaheadFrames.Frames(p, ReadersOf(s, before)), s1);
      frames := before + [accesses];
      OneMoreFrame(p, s, frames, before, accesses);
    }
  }

  ghost predicate PlaysNext(p: Core, s: State, before: seq<seq<Action>>, last: seq<Action>)
    requires CoreOk(p) && InRange(s)
  {
    var s1 := AfterFrames(s, before);
    && WriterFree(last) && Run(s1, last).renderer == Idle
    && Attempts(LookaheadFrames.Frames(p, ReadersOf(s, before)), Run(s1, last).history, |s1.history|)
  }

  lemma OneMoreFrame(p: Core, s: State, frames: seq<seq<Action>>, before: seq<seq<Action>>, last: seq<Action>)
    requires CoreOk(p) && InRange(s) && frames != []
    requires before == frames[..|frames| - 1] && last == frames[|frames| - 1]
    requires PlaysFrames(p, s, before) && PlaysNext(p, s, before, last)
    ensures PlaysFrames(p, s, frames) && AfterFrames(s, frames) == Run(AfterFrames(s, before), last)
  {
    AttemptsOneMore(p, s, frames, before, last);
    OneMoreWriterFree(frames, before, last);
  }

  lemma AttemptsOneMore(p: Core, s: State, frames: seq<seq<Action>>, before: seq<seq<Action>>, last: seq<Action>)
    requires CoreOk(p) && InRange(s) && frames != []
    requires before == frames[..|frames| - 1] && last == frames[|frames| - 1]
    requires AttemptsFrames(p, s, before) && PlaysNext(p, s, before, last)
    ensures AttemptsFrames(p, s, frames) && AfterFrames(s, frames) == Run(AfterFrames(s, before), last)
  {
  }

  lemma OneMoreWriterFree(frames: seq<seq<Action>>, before: seq<seq<Action>>, last: seq<Action>)
    requires frames != [] && before == frames[..|frames| - 1] && last == frames[|frames| - 1]
    requires AllWriterFree(before) && WriterFree(last)
    ensures AllWriterFree(frames)
  {
    forall i | 0 <= i < |frames|
      ensures WriterFree(frames[i])
    {
      assert i < |before| ==> frames[i] == before[i];
    }
  }

  /** From any safe state at rest there are a sweep, a drain and 32 frames of which no read
      misses. */
  lemma SweepHappens(p: Core, s0: State)
    returns (sweep: seq<Action>, drain: seq<Action>, frames: seq<seq<Action>>)
    requires Regular(p) && LookaheadFrames.Sweepable(p) && Safe(s0) && Mirror.AtRest(s0)
    ensures Sweeps(s0, sweep, Lookahead.PlanFrom(p, 0)) && WorkerOnly(drain)
    ensures var s := Run(Run(s0, sweep), drain);
            && Drained(s) && |frames| == LookaheadFrames.SWEEP_FRAMES && PlaysFrames(p, s, frames)
            && NoMiss(AfterFrames(s, frames).history, |s.history|)
  {
    sweep := SweepRuns(s0, Lookahead.PlanFrom(p, 0));
    PlannedAtRest(s0, Lookahead.PlanFrom(p, 0));
    var s1 := Run(s0, sweep);
    RunKeepsSafe(s0, sweep);
    drain := Mirror.DrainRuns(s1);
    CacheUntouched(s1, drain);
    frames := FramesHappen(p, Run(s1, drain), LookaheadFrames.SWEEP_FRAMES);
    AllFramesHit(p, s0, sweep, drain, frames);
  }
}
