/** Frames over the interleaved page cache: what the live mirror renders through the cache is
    the speculative frame of its refinement proof, and the miss flag decides it correctly. */
module CacheFrames {
  import opened Words
  import opened PaulaCore
  import opened PaulaTimeline
  import opened Transaction
  import opened PageCache
  import opened PageCacheSafety
  import opened PageCacheDrain
  import opened Recovery

  /** Which of a frame's reads found their page ready. */
  function HitsOf(h: seq<ReadRecord>, n: nat): Hits {
    (i: nat, a: nat) => n + i < |h| && h[n + i].Hit?
  }

  /** The frame's reads as the cache answers them, from the moment the miss flag is cleared. */
  ghost predicate FrameThroughCache(p: Core, s0: State, frame: seq<Action>)
    requires CoreOk(p)
  {
    && Safe(s0) && s0.renderer == Idle && s0.writer == Quiet
    && WriterFree(frame) && NoNewFrame(frame)
    && Run(Step(s0, BeginFrame), frame).renderer == Idle
    && Attempts(p, Run(Step(s0, BeginFrame), frame).history, |s0.history|)
  }

  /** Hits answer with chip RAM, everything else with zero. */
  lemma RecordAnswers(s0: State, frame: seq<Action>, k: nat)
    requires Safe(s0) && s0.renderer == Idle && s0.writer == Quiet && WriterFree(frame)
    requires |s0.history| <= k < |Run(Step(s0, BeginFrame), frame).history|
    ensures var h, n := Run(Step(s0, BeginFrame), frame).history, |s0.history|;
            && AnswerAt(h, k) == CacheReader(RamOf(s0), HitsOf(h, n))(k - n, h[k].address)
            && (h[k].Miss? <==> h[k].address < CHIP_LIMIT && !HitsOf(h, n)(k - n, h[k].address))
  {
    var s := Step(s0, BeginFrame);
    StepKeepsSafe(s0, BeginFrame);
    ReadsAnswerFromRam(s, frame, k);
  }

  lemma MissesMatch(h: seq<ReadRecord>, n: nat, fetched: seq<nat>)
    requires n <= |h| && fetched == Addresses(h, n)
    requires forall k :: n <= k < |h| ==>
               (h[k].Miss? <==> h[k].address < CHIP_LIMIT && !HitsOf(h, n)(k - n, h[k].address))
    ensures Missed(fetched, HitsOf(h, n)) <==> SomeMiss(h, n)
  {
    assert forall i :: 0 <= i < |fetched| ==> fetched[i] == AddressOf(h[n + i]);
    if SomeMiss(h, n) {
      var k :| n <= k < |h| && h[k].Miss?;
      assert fetched[k - n] == h[k].address;
    }
    if Missed(fetched, HitsOf(h, n)) {
      var i :| 0 <= i < |fetched| && fetched[i] < CHIP_LIMIT && !HitsOf(h, n)(i, fetched[i]);
      assert h[n + i].Miss?;
    }
  }

  /** Over the real cache, with page arrivals interleaved in any way and no bus write inside
      the frame, a frame is the speculative frame of some hits and misses over the RAM of its
      beginning, and the flag left at its end is set exactly when one of its reads missed. */
  lemma FrameIsSpeculative(p: Core, s0: State, frame: seq<Action>)
    requires CoreOk(p) && FrameThroughCache(p, s0, frame)
    ensures var s1, n := Run(Step(s0, BeginFrame), frame), |s0.history|;
            var f := RenderFrame(p, CacheReader(RamOf(s0), HitsOf(s1.history, n)));
            && f == RenderFrame(p, Replies(s1.history, n))
            && (s1.renderMiss <==> Missed(f.exec.fetched, HitsOf(s1.history, n)))
  {
    var s1, n := Run(Step(s0, BeginFrame), frame), |s0.history|;
    var h := s1.history;
    forall k | n <= k < |h|
      ensures AnswerAt(h, k) == CacheReader(RamOf(s0), HitsOf(h, n))(k - n, h[k].address)
      ensures h[k].Miss? <==> h[k].address < CHIP_LIMIT && !HitsOf(h, n)(k - n, h[k].address)
    {
      RecordAnswers(s0, frame, k);
    }
    SameFrame(p, RamOf(s0), h, n);
    MissesMatch(h, n, RenderFrame(p, Replies(h, n)).exec.fetched);
    MissFlagExact(s0, frame);
  }

  lemma SameFrame(p: Core, ram: Ram, h: seq<ReadRecord>, n: nat)
    requires CoreOk(p) && Attempts(p, h, n)
    requires forall k :: n <= k < |h| ==>
               AnswerAt(h, k) == CacheReader(ram, HitsOf(h, n))(k - n, h[k].address)
    ensures RenderFrame(p, CacheReader(ram, HitsOf(h, n))) == RenderFrame(p, Replies(h, n))
  {
    var fetched := RenderFrame(p, Replies(h, n)).exec.fetched;
    forall i | 0 <= i < |fetched|
      ensures Replies(h, n)(i, fetched[i]) == CacheReader(ram, HitsOf(h, n))(i, fetched[i])
    {
      assert fetched[i] == AddressOf(h[n + i]);
      assert AnswerAt(h, n + i) == CacheReader(ram, HitsOf(h, n))(n + i - n, h[n + i].address);
    }
    FrameDependsOnItsReads(p, Replies(h, n), CacheReader(ram, HitsOf(h, n)));
  }

  /** So what the flag commits is the frame a renderer reading RAM directly would produce, and
      what it rolls back leaves nothing of such a renderer's state changed. */
  lemma FlagDecidesFrame(v: Live, s0: State, frame: seq<Action>)
    requires LiveOk(v) && FrameThroughCache(v.core, s0, frame)
    ensures var s1 := Run(Step(s0, BeginFrame), frame);
            var next := LiveFrame(v, RamOf(s0), HitsOf(s1.history, |s0.history|));
            View(next) == if s1.renderMiss then View(v) else IdealFrame(View(v), RamOf(s0))
  {
    var s1 := Run(Step(s0, BeginFrame), frame);
    var hit := HitsOf(s1.history, |s0.history|);
    FrameIsSpeculative(v.core, s0, frame);
    if s1.renderMiss {
      RolledBackFrameIsInvisible(v, RamOf(s0), hit);
    } else {
      CommittedFrameIsIdeal(v, RamOf(s0), hit);
    }
  }
}
