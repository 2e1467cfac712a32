/** Exactly when a retry commits: when every page its frame needs had been asked for, and was
    not held by a stale load, before the queue was drained. */
module RecoveryExact {
  import opened Words
  import opened PaulaCore
  import opened PaulaTimeline
  import opened Transaction
  import opened PageCache
  import opened PageCacheSafety
  import opened PageCacheDrain
  import opened Recovery

  ghost predicate ReadyIn(base: State, a: nat)
    requires InRange(base)
  {
    a < CHIP_LIMIT && base.meta[PageOf(a)].st == Ready
  }

  /** Nothing has become ready since base, and hits since then were of pages ready in base. */
  ghost predicate FromReady(base: State, s: State, n: nat)
    requires InRange(base) && InRange(s)
  {
    && n <= |s.history|
    && (forall p :: 0 <= p < PAGE_COUNT && s.meta[p].st == Ready ==> base.meta[p].st == Ready)
    && (forall k :: n <= k < |s.history| && s.history[k].Hit? ==> ReadyIn(base, s.history[k].address))
    && (s.renderer.LoadShadow? ==> ReadyIn(base, s.renderer.address))
    && (Warming(s.renderer) ==> ReadyIn(base, s.renderer.caller.address))
  }

  lemma RendererReadiesNothing(s: State, p: nat)
    requires InRange(s) && p < PAGE_COUNT && RendererNext(s).meta[p].st == Ready
    ensures s.meta[p].st == Ready
  {
  }

  /** A new hit is recorded only by the load of a checked byte. */
  lemma HitIsLoaded(s: State)
    requires InRange(s) && |RendererNext(s).history| == |s.history| + 1
    ensures RendererNext(s).history[|s.history|].Hit? ==>
              s.renderer.LoadShadow? && RendererNext(s).history[|s.history|].address == s.renderer.address
  {
  }

  /** A read past its check is of a page that was ready at the check. */
  lemma CheckedWasReady(s: State)
    requires InRange(s)
    ensures var r, r' := s.renderer, RendererNext(s).renderer;
            && (r'.LoadShadow? ==>
                  if r.CheckPage? then r'.address == r.address && ReadyIn(s, r.address)
                  else Warming(r) && r'.address == r.caller.address)
            && (Warming(r') ==>
                  if r.CheckPage? then r'.caller.address == r.address && ReadyIn(s, r.address)
                  else Warming(r) && r'.caller == r.caller)
  {
  }

  lemma FromReadyByRenderer(base: State, s: State, n: nat)
    requires InRange(base) && InRange(s) && FromReady(base, s, n)
    ensures FromReady(base, RendererNext(s), n)
  {
    var s' := RendererNext(s);
    RendererRecords(s);
    CheckedWasReady(s);
    forall p | 0 <= p < PAGE_COUNT && s'.meta[p].st == Ready
      ensures base.meta[p].st == Ready
    {
      RendererReadiesNothing(s, p);
    }
    forall k | n <= k < |s'.history| && s'.history[k].Hit?
      ensures ReadyIn(base, s'.history[k].address)
    {
      if k < |s.history| {
        assert s'.history[k] == s.history[k];
      } else {
        HitIsLoaded(s);
      }
    }
  }

  lemma FromReadyStep(base: State, s: State, a: Action, n: nat)
    requires InRange(base) && InRange(s) && FromReady(base, s, n)
    requires !a.WorkerStep? && !a.BusWrite? && !a.WriterStep?
    ensures FromReady(base, Step(s, a), n)
  {
    if a.RendererStep? {
      FromReadyByRenderer(base, s, n);
    } else {
      assert Step(s, a).meta == s.meta;
    }
  }

  lemma {:induction false} FromReadyRun(base: State, s: State, actions: seq<Action>, n: nat)
    requires InRange(base) && InRange(s) && FromReady(base, s, n) && RendererAlone(actions)
    ensures FromReady(base, Run(s, actions), n)
    decreases |actions|
  {
    if actions != [] {
      FromReadyStep(base, s, actions[0], n);
      FromReadyRun(base, Step(s, actions[0]), actions[1..], n);
    }
  }

  /** With the worker and the bus still, a read of chip RAM misses exactly when its page was
      not ready at the start. */
  lemma ReadMissesIff(s: State, retry: seq<Action>, k: nat)
    requires Safe(s) && s.renderer == Idle && s.writer == Quiet && RendererAlone(retry)
    requires |s.history| <= k < |Run(s, retry).history| && Run(s, retry).history[k].address < CHIP_LIMIT
    ensures Run(s, retry).history[k].Miss? <==> s.meta[PageOf(Run(s, retry).history[k].address)].st != Ready
  {
    FromReadyRun(s, s, retry, |s.history|);
    ReadsAnswerFromRam(s, retry, k);
  }

  /** The frame's chip RAM pages are all asked for, and none is held by a stale load. */
  ghost predicate FrameWanted(p: Core, s: State)
    requires CoreOk(p) && InRange(s)
  {
    var fetched := RenderFrame(p, RamReader(RamOf(s))).exec.fetched;
    forall i :: 0 <= i < |fetched| && fetched[i] < CHIP_LIMIT ==> Wanted(s, PageOf(fetched[i]))
  }

  lemma SameReads(p: Core, s: State, h: seq<ReadRecord>, n: nat)
    requires CoreOk(p) && Shaped(s) && Attempts(p, h, n)
    ensures RenderFrame(p, RamReader(RamOf(s))).exec.fetched == Addresses(h, n)
  {
    FrameTimelineIgnoresSamples(p, RamReader(RamOf(s)), Replies(h, n));
  }

  lemma MissesDecide(p: Core, s: State, h: seq<ReadRecord>, n: nat)
    requires CoreOk(p) && InRange(s) && n <= |h|
    requires RenderFrame(p, RamReader(RamOf(s))).exec.fetched == Addresses(h, n)
    requires forall k :: n <= k < |h| ==>
               (h[k].Miss? <==> h[k].address < CHIP_LIMIT && !Wanted(s, PageOf(h[k].address)))
    ensures NoMiss(h, n) <==> FrameWanted(p, s)
  {
    var fetched := Addresses(h, n);
    assert forall i :: 0 <= i < |fetched| ==> fetched[i] == AddressOf(h[n + i]);
    assert forall k :: n <= k < |h| ==> fetched[k - n] == h[k].address;
  }

  /** With the worker still during the retry: it has no miss if and only if, when the drain
      began, every page the frame needs had been asked for and none of them was held by a stale
      load. */
  lemma LoneRetryCommitsIff(p: Core, s1: State, drain: seq<Action>, retry: seq<Action>)
    requires CoreOk(p) && Safe(s1) && s1.renderer == Idle && s1.writer == Quiet
    requires WorkerOnly(drain) && Drained(Run(s1, drain)) && RendererAlone(retry)
    requires Attempts(p, Run(Run(s1, drain), retry).history, |Run(s1, drain).history|)
    ensures NoMiss(Run(Run(s1, drain), retry).history, |Run(s1, drain).history|) <==> FrameWanted(p, s1)
  {
    var s2 := Run(s1, drain);
    var h, n := Run(s2, retry).history, |s2.history|;
    CacheUntouched(s1, drain);
    SameReads(p, s1, h, n);
    forall k | n <= k < |h|
      ensures h[k].Miss? <==> h[k].address < CHIP_LIMIT && !Wanted(s1, PageOf(h[k].address))
    {
      RecordTellsWanted(s1, drain, retry, k);
    }
    MissesDecide(p, s1, h, n);
  }

  lemma RecordTellsWanted(s1: State, drain: seq<Action>, retry: seq<Action>, k: nat)
    requires Safe(s1) && s1.renderer == Idle && s1.writer == Quiet
    requires WorkerOnly(drain) && Drained(Run(s1, drain)) && RendererAlone(retry)
    requires |Run(s1, drain).history| <= k < |Run(Run(s1, drain), retry).history|
    ensures var r := Run(Run(s1, drain), retry).history[k];
            r.Miss? <==> r.address < CHIP_LIMIT && !Wanted(s1, PageOf(r.address))
  {
    var s2 := Run(s1, drain);
    CacheUntouched(s1, drain);
    ReadsAnswerFromRam(s2, retry, k);
    var a := Run(s2, retry).history[k].address;
    if a < CHIP_LIMIT {
      ReadMissesIff(s2, retry, k);
      DrainMakesReady(s1, drain, PageOf(a));
    }
  }

  /** The retry makes the reads of one frame of core p, the worker moving anywhere. */
  ghost predicate Retries(p: Core, s2: State, retry: seq<Action>)
    requires CoreOk(p) && InRange(s2)
  {
    WriterFree(retry) && Attempts(p, Run(s2, retry).history, |s2.history|)
  }

  lemma WantedPagesReady(p: Core, s1: State, drain: seq<Action>, h: seq<ReadRecord>, n: nat)
    requires CoreOk(p) && Safe(s1) && s1.renderer == Idle && WorkerOnly(drain) && Drained(Run(s1, drain))
    requires FrameWanted(p, s1) && Attempts(p, h, n)
    ensures OfReadyPages(Run(s1, drain), h, n)
  {
    SameReads(p, s1, h, n);
    forall k | n <= k < |h| && AddressOf(h[k]) < CHIP_LIMIT
      ensures Run(s1, drain).meta[PageOf(AddressOf(h[k]))].st == Ready
    {
      assert Addresses(h, n)[k - n] == AddressOf(h[k]);
      DrainMakesReady(s1, drain, PageOf(AddressOf(h[k])));
    }
  }

  lemma WantedRetryHits(p: Core, s1: State, drain: seq<Action>, retry: seq<Action>)
    requires CoreOk(p) && Safe(s1) && s1.renderer == Idle && s1.writer == Quiet
    requires WorkerOnly(drain) && Drained(Run(s1, drain)) && FrameWanted(p, s1)
    requires Retries(p, Run(s1, drain), retry)
    ensures NoMiss(Run(Run(s1, drain), retry).history, |Run(s1, drain).history|)
  {
    var s2 := Run(s1, drain);
    CacheUntouched(s1, drain);
    WantedPagesReady(p, s1, drain, Run(s2, retry).history, |s2.history|);
    ReadyPagesHit(s2, retry);
  }

  /** One-drain recovery, exactly: every retry after a drain, however the worker interleaves, has
      no miss if and only if, when the drain began, every page the frame needs had been asked
      for and none of them was held by a stale load. */
  lemma RetryCommitsIff(p: Core, s1: State, drain: seq<Action>)
    requires CoreOk(p) && Safe(s1) && s1.renderer == Idle && s1.writer == Quiet
    requires WorkerOnly(drain) && Drained(Run(s1, drain))
    ensures var s2 := Run(s1, drain);
            (forall retry :: Retries(p, s2, retry) ==> NoMiss(Run(s2, retry).history, |s2.history|))
            <==> FrameWanted(p, s1)
  {
    var s2 := Run(s1, drain);
    CacheUntouched(s1, drain);
    if FrameWanted(p, s1) {
      forall retry | Retries(p, s2, retry)
        ensures NoMiss(Run(s2, retry).history, |s2.history|)
      {
        WantedRetryHits(p, s1, drain, retry);
      }
    } else {
      var retry := AttemptRuns(p, s2);
      assert Retries(p, s2, retry);
      LoneRetryCommitsIff(p, s1, drain, retry);
    }
  }
}
