/** Recovery of a rolled-back frame: the renderer above the interleaved page cache. */
module Recovery {
  import opened Words
  import opened PaulaCore
  import opened PaulaTimeline
  import opened Transaction
  import PageCache
  import PageCacheSafety
  import PageCacheDrain
  import Mirror

  function AddressOf(r: PageCache.ReadRecord): nat {
    r.address
  }

  function Addresses(history: seq<PageCache.ReadRecord>, n: nat): (a: seq<nat>)
    requires n <= |history|
    ensures |a| == |history| - n
    ensures forall i :: 0 <= i < |a| ==> a[i] == AddressOf(history[n + i])
  {
    if |history| == n then []
    else Addresses(history[..|history| - 1], n) + [AddressOf(history[|history| - 1])]
  }

  /** The byte paula_mirror_read_byte returned for the k-th record. */
  function AnswerAt(history: seq<PageCache.ReadRecord>, k: nat): Byte {
    if k < |history| && history[k].Hit? then history[k].result else 0
  }

  /** The callback of an attempt: its i-th read got the i-th answer since the history had n. */
  function Replies(history: seq<PageCache.ReadRecord>, n: nat): Reader {
    (i: nat, a: nat) => AnswerAt(history, n + i)
  }

  /** The attempt, as recorded by the cache, made the reads of one frame of core p. */
  ghost predicate Attempts(p: Core, history: seq<PageCache.ReadRecord>, n: nat)
    requires CoreOk(p)
  {
    n <= |history| && Addresses(history, n) == RenderFrame(p, Replies(history, n)).exec.fetched
  }

  function RamOf(s: PageCache.State): Ram
    requires PageCache.Shaped(s)
  {
    (a: nat) => if a < CHIP_LIMIT then s.ram[a] else 0
  }

  ghost predicate NoMiss(history: seq<PageCache.ReadRecord>, n: nat) {
    forall k :: n <= k < |history| ==> !history[k].Miss?
  }

  lemma {:induction false} RunKeepsRam(s: PageCache.State, actions: seq<PageCache.Action>)
    requires PageCache.InRange(s) && PageCacheDrain.WriterFree(actions)
    ensures PageCacheSafety.Run(s, actions).ram == s.ram
    decreases |actions|
  {
    if actions != [] {
      RunKeepsRam(PageCache.Step(s, actions[0]), actions[1..]);
    }
  }

  lemma {:induction false} WriterStaysQuiet(s: PageCache.State, actions: seq<PageCache.Action>)
    requires PageCache.InRange(s) && s.writer == PageCache.Quiet && PageCacheDrain.WriterFree(actions)
    ensures PageCacheSafety.Run(s, actions).writer == PageCache.Quiet
    decreases |actions|
  {
    if actions != [] {
      WriterStaysQuiet(PageCache.Step(s, actions[0]), actions[1..]);
    }
  }

  /** After an attempt and a drain, every page the attempt read is ready. */
  lemma DrainServesAttempt(s0: PageCache.State, attempt: seq<PageCache.Action>,
                           drain: seq<PageCache.Action>, k: nat)
    requires PageCacheSafety.Safe(s0) && s0.renderer == PageCache.Idle
    requires PageCacheDrain.NoStaleLoad(s0) && PageCacheDrain.WriterFree(attempt)
    requires var s1 := PageCacheSafety.Run(s0, attempt);
             && s1.renderer == PageCache.Idle && |s0.history| <= k < |s1.history|
             && PageCacheDrain.WorkerOnly(drain)
             && PageCacheDrain.Drained(PageCacheSafety.Run(s1, drain))
    ensures var s1 := PageCacheSafety.Run(s0, attempt);
            var a := s1.history[k].address;
            a < CHIP_LIMIT ==>
              PageCacheSafety.Run(s1, drain).meta[PageOf(a)].st == PageCache.Ready
  {
    var s1 := PageCacheSafety.Run(s0, attempt);
    PageCacheSafety.RunKeepsSafe(s0, attempt);
    PageCacheDrain.AttemptAsksForEveryPage(s0, attempt, k);
    if s1.history[k].address < CHIP_LIMIT {
      PageCacheDrain.DrainMakesReady(s1, drain, PageOf(s1.history[k].address));
    }
  }

  /** Every record since n is of a page ready in s, or out of range. */
  ghost predicate OfReadyPages(s: PageCache.State, history: seq<PageCache.ReadRecord>, n: nat)
    requires PageCache.Shaped(s)
  {
    forall k :: n <= k < |history| && AddressOf(history[k]) < CHIP_LIMIT ==>
      s.meta[PageOf(AddressOf(history[k]))].st == PageCache.Ready
  }

  /** Every record since n is out of range or a hit that returned chip RAM. */
  ghost predicate AllHits(ram: Ram, history: seq<PageCache.ReadRecord>, n: nat) {
    forall k :: n <= k < |history| ==>
      && !history[k].Miss?
      && AnswerAt(history, k) == RamReader(ram)(k - n, AddressOf(history[k]))
  }

  lemma ReadyPagesHit(s: PageCache.State, retry: seq<PageCache.Action>)
    requires PageCacheSafety.Safe(s) && s.renderer == PageCache.Idle && s.writer == PageCache.Quiet
    requires PageCacheDrain.WriterFree(retry)
    requires OfReadyPages(s, PageCacheSafety.Run(s, retry).history, |s.history|)
    ensures AllHits(RamOf(s), PageCacheSafety.Run(s, retry).history, |s.history|)
  {
    var h, n := PageCacheSafety.Run(s, retry).history, |s.history|;
    forall k | n <= k < |h|
      ensures !h[k].Miss? && AnswerAt(h, k) == RamReader(RamOf(s))(k - n, AddressOf(h[k]))
    {
      PageCacheDrain.ReadsAnswerFromRam(s, retry, k);
    }
  }

  /** An attempt that only hits renders the ideal frame. */
  lemma HitsRenderIdeal(p: Core, ram: Ram, history: seq<PageCache.ReadRecord>, n: nat)
    requires CoreOk(p) && Attempts(p, history, n) && AllHits(ram, history, n)
    ensures RenderFrame(p, Replies(history, n)) == RenderFrame(p, RamReader(ram))
  {
    var fetched := RenderFrame(p, Replies(history, n)).exec.fetched;
    forall i | 0 <= i < |fetched|
      ensures Replies(history, n)(i, fetched[i]) == RamReader(ram)(i, fetched[i])
    {
      assert fetched[i] == AddressOf(history[n + i]);
    }
    FrameDependsOnItsReads(p, Replies(history, n), RamReader(ram));
  }

  /** Two attempts of one frame read the same addresses in the same order. */
  lemma AttemptsReadAlike(p: Core, h: seq<PageCache.ReadRecord>, n: nat, h': seq<PageCache.ReadRecord>, n': nat)
    requires CoreOk(p) && Attempts(p, h, n) && Attempts(p, h', n')
    ensures Addresses(h, n) == Addresses(h', n')
  {
    FrameTimelineIgnoresSamples(p, Replies(h, n), Replies(h', n'));
  }

  /** A retry that reads what the attempt read finds every page ready after the drain. */
  lemma DrainServesRetry(s0: PageCache.State, attempt: seq<PageCache.Action>,
                         drain: seq<PageCache.Action>, h: seq<PageCache.ReadRecord>, n: nat)
    requires PageCacheSafety.Safe(s0) && s0.renderer == PageCache.Idle
    requires PageCacheDrain.NoStaleLoad(s0) && PageCacheDrain.WriterFree(attempt)
    requires var s1 := PageCacheSafety.Run(s0, attempt);
             && s1.renderer == PageCache.Idle && PageCacheDrain.WorkerOnly(drain)
             && PageCacheDrain.Drained(PageCacheSafety.Run(s1, drain))
             && |s0.history| <= |s1.history| && n <= |h|
             && Addresses(h, n) == Addresses(s1.history, |s0.history|)
    ensures OfReadyPages(PageCacheSafety.Run(PageCacheSafety.Run(s0, attempt), drain), h, n)
  {
    var h1, n1 := PageCacheSafety.Run(s0, attempt).history, |s0.history|;
    forall k | n <= k < |h|
      ensures AddressOf(h[k]) < CHIP_LIMIT ==>
                PageCacheSafety.Run(PageCacheSafety.Run(s0, attempt), drain)
                  .meta[PageOf(AddressOf(h[k]))].st == PageCache.Ready
    {
      assert Addresses(h, n)[k - n] == Addresses(h1, n1)[k - n];
      DrainServesAttempt(s0, attempt, drain, n1 + (k - n));
    }
  }

  /** One-drain recovery: if no stale load is in flight, then after one attempt of a frame
      and one drain of the queue, with no bus write meanwhile, the retry commits, and it is
      the frame an ideal renderer would have produced. */
  lemma OneDrainRecovery(p: Core, s0: PageCache.State, attempt: seq<PageCache.Action>,
                         drain: seq<PageCache.Action>, retry: seq<PageCache.Action>)
    requires CoreOk(p)
    requires PageCacheSafety.Safe(s0) && s0.renderer == PageCache.Idle && s0.writer == PageCache.Quiet
    requires PageCacheDrain.NoStaleLoad(s0)
    requires PageCacheDrain.WriterFree(attempt) && PageCacheDrain.WorkerOnly(drain)
    requires PageCacheDrain.WriterFree(retry)
    requires var s1 := PageCacheSafety.Run(s0, attempt);
             var s2 := PageCacheSafety.Run(s1, drain);
             && s1.renderer == PageCache.Idle && PageCacheDrain.Drained(s2)
             && Attempts(p, s1.history, |s0.history|)
             && Attempts(p, PageCacheSafety.Run(s2, retry).history, |s2.history|)
    ensures var s2 := PageCacheSafety.Run(PageCacheSafety.Run(s0, attempt), drain);
            var h := PageCacheSafety.Run(s2, retry).history;
            && NoMiss(h, |s2.history|)
            && RenderFrame(p, Replies(h, |s2.history|)) == RenderFrame(p, RamReader(RamOf(s0)))
  {
    var s1 := PageCacheSafety.Run(s0, attempt);
    var s2 := PageCacheSafety.Run(s1, drain);
    var h, n := PageCacheSafety.Run(s2, retry).history, |s2.history|;
    AttemptsReadAlike(p, h, n, s1.history, |s0.history|);
    DrainServesRetry(s0, attempt, drain, h, n);
    CacheUntouched(s0, attempt);
    CacheUntouched(s1, drain);
    ReadyPagesHit(s2, retry);
    HitsRenderIdeal(p, RamOf(s2), h, n);
    SameRamSameFrame(p, s0, s2);
  }

  lemma CacheUntouched(s: PageCache.State, actions: seq<PageCache.Action>)
    requires PageCacheSafety.Safe(s) && s.writer == PageCache.Quiet && PageCacheDrain.WriterFree(actions)
    ensures var s' := PageCacheSafety.Run(s, actions);
            PageCacheSafety.Safe(s') && s'.writer == PageCache.Quiet && s'.ram == s.ram
  {
    PageCacheSafety.RunKeepsSafe(s, actions);
    RunKeepsRam(s, actions);
    WriterStaysQuiet(s, actions);
  }

  lemma SameRamSameFrame(p: Core, s: PageCache.State, t: PageCache.State)
    requires CoreOk(p) && PageCache.Shaped(s) && PageCache.Shaped(t) && s.ram == t.ram
    ensures RenderFrame(p, RamReader(RamOf(s))) == RenderFrame(p, RamReader(RamOf(t)))
  {
    FrameDependsOnItsReads(p, RamReader(RamOf(s)), RamReader(RamOf(t)));
  }

  // ---------------------------------------------------------------- such runs exist

  /** Reading a list of addresses one after another, nobody else moving. */
  lemma {:induction false} ReadsRun(s: PageCache.State, addresses: seq<nat>) returns (actions: seq<PageCache.Action>)
    requires Mirror.AtRest(s)
    ensures PageCacheDrain.RendererAlone(actions)
    ensures var s' := PageCacheSafety.Run(s, actions);
            && Mirror.AtRest(s') && |s.history| <= |s'.history|
            && Addresses(s'.history, |s.history|) == addresses
    decreases |addresses|
  {
    if addresses == [] {
      actions := [];
    } else {
      var last := |addresses| - 1;
      actions := ReadsRun(s, addresses[..last]);
      var s1 := PageCacheSafety.Run(s, actions);
      var more := Mirror.ReadRuns(s1, addresses[last]);
      var s2 := Mirror.ReadDone(s1, addresses[last]);
      PageCacheDrain.RunSplits(s, actions, more);
      OneReadLogged(s1, addresses[last]);
      assert s2.history[..|s2.history| - 1] == s1.history;
      actions := actions + more;
    }
  }

  lemma OneReadLogged(s: PageCache.State, a: nat)
    requires Mirror.AtRest(s)
    ensures var s' := Mirror.ReadDone(s, a);
            && |s'.history| == |s.history| + 1 && s'.history[..|s.history|] == s.history
            && AddressOf(s'.history[|s.history|]) == a
            && s'.renderer == s.renderer && s'.worker == s.worker && s'.writer == s.writer
  {
  }

  /** A frame's reads make an attempt of that frame. */
  lemma AttemptRuns(p: Core, s: PageCache.State) returns (attempt: seq<PageCache.Action>)
    requires CoreOk(p) && Mirror.AtRest(s)
    ensures PageCacheDrain.RendererAlone(attempt)
    ensures var s' := PageCacheSafety.Run(s, attempt);
            Mirror.AtRest(s') && Attempts(p, s'.history, |s.history|)
  {
    var silence: Reader := (i: nat, a: nat) => 0;
    attempt := ReadsRun(s, RenderFrame(p, silence).exec.fetched);
    FrameTimelineIgnoresSamples(p, silence, Replies(PageCacheSafety.Run(s, attempt).history, |s.history|));
  }

  /** From any safe state at rest an attempt, a drain and a retry exist, and the retry
      commits the ideal frame. */
  lemma RecoveryHappens(p: Core, s: PageCache.State)
    returns (attempt: seq<PageCache.Action>, drain: seq<PageCache.Action>, retry: seq<PageCache.Action>)
    requires CoreOk(p) && PageCacheSafety.Safe(s) && Mirror.AtRest(s)
    ensures var s2 := PageCacheSafety.Run(PageCacheSafety.Run(s, attempt), drain);
            var h := PageCacheSafety.Run(s2, retry).history;
            && Attempts(p, h, |s2.history|) && NoMiss(h, |s2.history|)
            && RenderFrame(p, Replies(h, |s2.history|)) == RenderFrame(p, RamReader(RamOf(s)))
  {
    attempt := AttemptRuns(p, s);
    var s1 := PageCacheSafety.Run(s, attempt);
    PageCacheSafety.RunKeepsSafe(s, attempt);
    drain := Mirror.DrainRuns(s1);
    var s2 := PageCacheSafety.Run(s1, drain);
    WriterStaysQuiet(s1, drain);
    retry := AttemptRuns(p, s2);
    OneDrainRecovery(p, s, attempt, drain, retry);
  }
}
