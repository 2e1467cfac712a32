/** What a renderer that missed can count on: which of the pages it asked for are ready
    once the worker has drained the queue. */
module PageCacheDrain {
  import opened Words
  import opened PageCache
  import opened PageCacheSafety
  import opened PageCacheTheorems

  /** No bus write lands or is being invalidated. */
  predicate WriterFree(actions: seq<Action>) {
    forall i :: 0 <= i < |actions| ==> !actions[i].BusWrite? && !actions[i].WriterStep?
  }

  predicate WorkerOnly(actions: seq<Action>) {
    forall i :: 0 <= i < |actions| ==> actions[i] == WorkerStep
  }

  /** Only the renderer moves. */
  predicate RendererAlone(actions: seq<Action>) {
    WriterFree(actions) && forall i :: 0 <= i < |actions| ==> !actions[i].WorkerStep?
  }

  /** The worker is not holding a page that was invalidated since it was claimed. */
  ghost predicate NoStaleLoad(s: State)
    requires InRange(s)
  {
    && (InLoad(s.worker) ==> s.worker.gen == s.meta[s.worker.page].gen)
    && !s.worker.Unreserve? && !s.worker.Discard?
  }

  /** Page p has been asked for and its request will not be thrown away. */
  ghost predicate Wanted(s: State, p: nat)
    requires InRange(s) && p < PAGE_COUNT
  {
    s.meta[p].st != Missing && !Doomed(s, p)
  }

  predicate Drained(s: State) {
    s.head == s.tail && s.worker == Resting && s.renderer == Idle
  }

  lemma WantedByWorker(s: State, p: nat)
    requires InRange(s) && WorkerOwns(s) && p < PAGE_COUNT && Wanted(s, p)
    ensures Wanted(WorkerNext(s), p)
  {
  }

  lemma WantedByRenderer(s: State, p: nat)
    requires InRange(s) && WorkerOwns(s) && p < PAGE_COUNT && Wanted(s, p)
    ensures Wanted(RendererNext(s), p)
  {
  }

  lemma WantedStep(s: State, a: Action, p: nat)
    requires Safe(s) && p < PAGE_COUNT && Wanted(s, p)
    requires !a.BusWrite? && !a.WriterStep?
    ensures Wanted(Step(s, a), p)
  {
    if a.WorkerStep? {
      WantedByWorker(s, p);
    } else if a.RendererStep? {
      WantedByRenderer(s, p);
    }
  }

  lemma {:induction false} WantedRun(s: State, actions: seq<Action>, p: nat)
    requires Safe(s) && p < PAGE_COUNT && Wanted(s, p) && WriterFree(actions)
    ensures Wanted(Run(s, actions), p)
    decreases |actions|
  {
    if actions != [] {
      WantedStep(s, actions[0], p);
      StepKeepsSafe(s, actions[0]);
      WantedRun(Step(s, actions[0]), actions[1..], p);
    }
  }

  /** With the renderer idle nobody asks for a missing page again. */
  lemma {:induction false} MissingStays(s: State, actions: seq<Action>, p: nat)
    requires Safe(s) && p < PAGE_COUNT && s.renderer == Idle && WorkerOnly(actions)
    requires s.meta[p].st == Missing
    ensures Run(s, actions).meta[p].st == Missing
    decreases |actions|
  {
    if actions != [] {
      StepKeepsSafe(s, actions[0]);
      MissingStays(Step(s, actions[0]), actions[1..], p);
    }
  }

  lemma DrainedPageIsSettled(s: State, p: nat)
    requires Safe(s) && Drained(s) && p < PAGE_COUNT
    ensures s.meta[p].st == Ready || s.meta[p].st == Missing
  {
    assert Queue(s) == [];
    assert p !in Queue(s);
  }

  lemma {:induction false} RunSplits(s: State, first: seq<Action>, rest: seq<Action>)
    requires InRange(s)
    ensures Run(s, first + rest) == Run(Run(s, first), rest)
    decreases |first|
  {
    if first == [] {
      assert first + rest == rest;
    } else {
      assert (first + rest)[0] == first[0] && (first + rest)[1..] == first[1..] + rest;
      RunSplits(Step(s, first[0]), first[1..], rest);
    }
  }

  /** Draining makes a page ready exactly when it had been asked for and the worker was
      not holding a stale load of it. */
  lemma DrainMakesReady(s: State, drain: seq<Action>, p: nat)
    requires Safe(s) && s.renderer == Idle && p < PAGE_COUNT
    requires WorkerOnly(drain) && Drained(Run(s, drain))
    ensures Run(s, drain).meta[p].st == Ready <==> Wanted(s, p)
  {
    RunKeepsSafe(s, drain);
    DrainedPageIsSettled(Run(s, drain), p);
    if Wanted(s, p) {
      WantedRun(s, drain, p);
    } else if s.meta[p].st == Missing {
      MissingStays(s, drain, p);
    } else {
      StaleLoadNeverPublished(s, drain, p);
      DrainDiscards(s, drain, p);
    }
  }

  /** A load thrown away during a drain leaves its page missing to the end. */
  lemma DrainDiscards(s: State, drain: seq<Action>, p: nat)
    requires Safe(s) && s.renderer == Idle && p < PAGE_COUNT && WorkerOnly(drain)
    requires exists k :: DiscardedAt(s, drain, k, p)
    ensures Run(s, drain).meta[p].st == Missing
  {
    var k: nat :| DiscardedAt(s, drain, k, p);
    RunKeepsSafe(s, drain[..k]);
    assert drain == drain[..k] + drain[k..];
    RunSplits(s, drain[..k], drain[k..]);
    IdleStays(s, drain[..k]);
    MissingStays(Run(s, drain[..k]), drain[k..], p);
  }

  lemma {:induction false} IdleStays(s: State, actions: seq<Action>)
    requires Safe(s) && s.renderer == Idle && WorkerOnly(actions)
    ensures Run(s, actions).renderer == Idle
    decreases |actions|
  {
    if actions != [] {
      StepKeepsSafe(s, actions[0]);
      IdleStays(Step(s, actions[0]), actions[1..]);
    }
  }

  // ---------------------------------------------------------------- a frame's reads

  /** A read that missed and whose request_page has not returned. */
  predicate Requesting(r: Renderer) {
    (r.LoadMeta? || r.TryQueue? || r.StoreSlot? || r.AdvanceHead?) && r.caller.FromMiss?
  }

  ghost predicate MissPageAsked(r: Renderer) {
    Requesting(r) ==> r.page == PageOf(r.caller.address)
  }

  ghost predicate WantedIfCached(s: State, a: nat)
    requires InRange(s)
  {
    a < CHIP_LIMIT ==> Wanted(s, PageOf(a))
  }

  /** Every read finished since the history had n entries, and the one in progress past
      its check, has left its page wanted. */
  ghost predicate AskedSince(s: State, n: nat)
    requires InRange(s)
  {
    && NoStaleLoad(s) && MissPageAsked(s.renderer)
    && (forall k :: n <= k < |s.history| ==> WantedIfCached(s, s.history[k].address))
    && (Warming(s.renderer) ==> WantedIfCached(s, s.renderer.caller.address))
    && (s.renderer.LoadShadow? ==> WantedIfCached(s, s.renderer.address))
  }

  lemma NoStaleStep(s: State, a: Action)
    requires Safe(s) && NoStaleLoad(s) && !a.BusWrite? && !a.WriterStep?
    ensures NoStaleLoad(Step(s, a))
  {
    if a.WorkerStep? {
      NoStaleByWorker(s);
    } else if a.RendererStep? {
      NoStaleByRenderer(s);
    } else {
      assert Step(s, a).meta == s.meta && Step(s, a).worker == s.worker;
    }
  }

  lemma NoStaleByWorker(s: State)
    requires InRange(s) && WorkerOwns(s) && NoStaleLoad(s)
    ensures NoStaleLoad(WorkerNext(s))
  {
  }

  lemma NoStaleByRenderer(s: State)
    requires InRange(s) && WorkerOwns(s) && NoStaleLoad(s)
    ensures NoStaleLoad(RendererNext(s))
  {
  }

  /** What the renderer's own step adds to the wanted pages. */
  lemma RendererAsks(s: State, n: nat)
    requires InRange(s) && RendererOwns(s) && AskedSince(s, n) && NoStaleLoad(RendererNext(s))
    requires forall p :: 0 <= p < PAGE_COUNT && Wanted(s, p) ==> Wanted(RendererNext(s), p)
    ensures AskedSince(RendererNext(s), n)
  {
    var s' := RendererNext(s);
    RendererRecords(s);
    RendererMoves(s, n);
    forall k | n <= k < |s'.history|
      ensures WantedIfCached(s', s'.history[k].address)
    {
      if k < |s.history| {
        assert s'.history[k] == s.history[k];
        assert WantedIfCached(s, s.history[k].address);
      } else {
        RecordedWasAsked(s, n);
      }
    }
  }

  /** A step adds at most one record to the history. */
  lemma RendererRecords(s: State)
    requires InRange(s)
    ensures var h, h' := s.history, RendererNext(s).history;
            |h| <= |h'| <= |h| + 1 && h'[..|h|] == h
  {
  }

  /** A record is added for the read whose page the renderer has just asked for. */
  lemma RecordedWasAsked(s: State, n: nat)
    requires InRange(s) && RendererOwns(s) && AskedSince(s, n) && |RendererNext(s).history| == |s.history| + 1
    requires forall p :: 0 <= p < PAGE_COUNT && Wanted(s, p) ==> Wanted(RendererNext(s), p)
    requires NoStaleLoad(RendererNext(s))
    ensures WantedIfCached(RendererNext(s), RendererNext(s).history[|s.history|].address)
  {
  }

  lemma RendererMoves(s: State, n: nat)
    requires InRange(s) && RendererOwns(s) && AskedSince(s, n)
    requires forall p :: 0 <= p < PAGE_COUNT && Wanted(s, p) ==> Wanted(RendererNext(s), p)
    ensures var s' := RendererNext(s);
            && MissPageAsked(s'.renderer)
            && (Warming(s'.renderer) ==> WantedIfCached(s', s'.renderer.caller.address))
            && (s'.renderer.LoadShadow? ==> WantedIfCached(s', s'.renderer.address))
  {
  }

  lemma AskedStep(s: State, a: Action, n: nat)
    requires Safe(s) && AskedSince(s, n) && !a.BusWrite? && !a.WriterStep?
    ensures AskedSince(Step(s, a), n)
  {
    var s' := Step(s, a);
    NoStaleStep(s, a);
    forall p | 0 <= p < PAGE_COUNT && Wanted(s, p)
      ensures Wanted(s', p)
    {
      WantedStep(s, a, p);
    }
    if a.RendererStep? {
      RendererAsks(s, n);
    } else {
      OthersAsk(s, a, n);
    }
  }

  /** The worker adds no record, and a call that starts is not yet past its check. */
  lemma OthersAsk(s: State, a: Action, n: nat)
    requires InRange(s) && AskedSince(s, n) && !a.RendererStep? && !a.BusWrite? && !a.WriterStep?
    requires NoStaleLoad(Step(s, a))
    requires forall p :: 0 <= p < PAGE_COUNT && Wanted(s, p) ==> Wanted(Step(s, a), p)
    ensures AskedSince(Step(s, a), n)
  {
    var s' := Step(s, a);
    if a.WorkerStep? {
      assert s'.history == s.history && s'.renderer == s.renderer;
    }
  }

  lemma {:induction false} AskedRun(s: State, actions: seq<Action>, n: nat)
    requires Safe(s) && AskedSince(s, n) && WriterFree(actions)
    ensures AskedSince(Run(s, actions), n)
    decreases |actions|
  {
    if actions != [] {
      AskedStep(s, actions[0], n);
      StepKeepsSafe(s, actions[0]);
      AskedRun(Step(s, actions[0]), actions[1..], n);
    }
  }

  /** After one attempt, interleaved with the worker in any way, every page the attempt
      read is wanted, provided no stale load was in flight when it began. */
  lemma AttemptAsksForEveryPage(s: State, attempt: seq<Action>, k: nat)
    requires Safe(s) && s.renderer == Idle && NoStaleLoad(s) && WriterFree(attempt)
    requires |s.history| <= k < |Run(s, attempt).history|
    ensures WantedIfCached(Run(s, attempt), Run(s, attempt).history[k].address)
  {
    AskedRun(s, attempt, |s.history|);
  }

  /** What a read finished since `base` says about `base`, while no write interferes: a
      hit returned chip RAM, a miss was of a page not ready in `base`. */
  ghost predicate AnsweredFrom(base: State, r: ReadRecord)
    requires InRange(base)
  {
    match r
    case OutOfRange(a) => a >= CHIP_LIMIT
    case Miss(a) => a < CHIP_LIMIT && base.meta[PageOf(a)].st != Ready
    case Hit(a, result, _) => a < CHIP_LIMIT && result == base.ram[a]
  }

  ghost predicate Undisturbed(base: State, s: State, n: nat)
    requires InRange(base) && InRange(s)
  {
    && s.ram == base.ram && s.writer == Quiet
    && (forall p :: 0 <= p < PAGE_COUNT && base.meta[p].st == Ready ==> s.meta[p].st == Ready)
    && n <= |s.history|
    && (forall k :: n <= k < |s.history| ==> AnsweredFrom(base, s.history[k]))
    && (Requesting(s.renderer) ==> base.meta[PageOf(s.renderer.caller.address)].st != Ready)
    && (Warming(s.renderer) ==> CheckedIn(base, s.renderer.caller.address, s.renderer.caller.check))
    && (s.renderer.LoadShadow? ==> CheckedIn(base, s.renderer.address, s.renderer.check))
  }

  ghost predicate CheckedIn(base: State, a: nat, c: Check)
    requires InRange(base) && a < CHIP_LIMIT
  {
    !c.writePending && c.ram == base.ram[a]
  }

  lemma UndisturbedByWorker(base: State, s: State, n: nat)
    requires InRange(base) && InRange(s) && WorkerOwns(s) && Undisturbed(base, s, n)
    ensures Undisturbed(base, WorkerNext(s), n)
  {
  }

  lemma UndisturbedByRenderer(base: State, s: State, n: nat)
    requires InRange(base) && InRange(s) && ReadHeld(s) && Undisturbed(base, s, n)
    ensures Undisturbed(base, RendererNext(s), n)
  {
    var s' := RendererNext(s);
    RendererRecords(s);
    UndisturbedMoves(base, s, n);
    forall k | n <= k < |s'.history|
      ensures AnsweredFrom(base, s'.history[k])
    {
      if k < |s.history| {
        assert s'.history[k] == s.history[k];
        assert AnsweredFrom(base, s.history[k]);
      } else {
        RecordedAnswer(base, s, n);
      }
    }
  }

  lemma RecordedAnswer(base: State, s: State, n: nat)
    requires InRange(base) && InRange(s) && ReadHeld(s) && Undisturbed(base, s, n)
    requires |RendererNext(s).history| == |s.history| + 1
    ensures AnsweredFrom(base, RendererNext(s).history[|s.history|])
  {
  }

  lemma RendererKeepsReady(s: State, p: nat)
    requires InRange(s) && p < PAGE_COUNT && s.meta[p].st == Ready
    ensures RendererNext(s).meta[p].st == Ready
  {
  }

  /** Where a renderer step leads a read: from its check, or on from where it was. */
  lemma ReadMoves(s: State)
    requires InRange(s)
    ensures var r, r' := s.renderer, RendererNext(s).renderer;
            && (Requesting(r') ==>
                  if r.CheckPage? then r'.caller.address == r.address && s.meta[PageOf(r.address)].st != Ready
                  else Requesting(r) && r'.caller.address == r.caller.address)
            && (Warming(r') ==>
                  if r.CheckPage? then r'.caller.address == r.address && CheckedNow(s, r.address, r'.caller.check)
                  else Warming(r) && r'.caller == r.caller)
  {
  }

  lemma LoadMoves(s: State)
    requires InRange(s)
    ensures var r, r' := s.renderer, RendererNext(s).renderer;
            r'.LoadShadow? ==>
              if r.CheckPage? then r'.address == r.address && CheckedNow(s, r.address, r'.check)
              else Warming(r) && r'.address == r.caller.address && r'.check == r.caller.check
  {
  }

  ghost predicate CheckedNow(s: State, a: nat, c: Check)
    requires InRange(s) && a < CHIP_LIMIT
  {
    c.ram == s.ram[a] && (s.writer == Quiet ==> !c.writePending)
  }

  lemma UndisturbedMoves(base: State, s: State, n: nat)
    requires InRange(base) && InRange(s) && Undisturbed(base, s, n)
    ensures var s' := RendererNext(s);
            && s'.ram == base.ram && s'.writer == Quiet
            && (forall p :: 0 <= p < PAGE_COUNT && base.meta[p].st == Ready ==> s'.meta[p].st == Ready)
            && (Requesting(s'.renderer) ==> base.meta[PageOf(s'.renderer.caller.address)].st != Ready)
            && (Warming(s'.renderer) ==> CheckedIn(base, s'.renderer.caller.address, s'.renderer.caller.check))
            && (s'.renderer.LoadShadow? ==> CheckedIn(base, s'.renderer.address, s'.renderer.check))
  {
    var s' := RendererNext(s);
    assert s'.ram == s.ram && s'.writer == s.writer;
    ReadMoves(s);
    LoadMoves(s);
    forall p | 0 <= p < PAGE_COUNT && base.meta[p].st == Ready
      ensures s'.meta[p].st == Ready
    {
      RendererKeepsReady(s, p);
    }
  }

  lemma UndisturbedStep(base: State, s: State, a: Action, n: nat)
    requires InRange(base) && Safe(s) && Undisturbed(base, s, n)
    requires !a.BusWrite? && !a.WriterStep?
    ensures Undisturbed(base, Step(s, a), n)
  {
    if a.WorkerStep? {
      UndisturbedByWorker(base, s, n);
    } else if a.RendererStep? {
      UndisturbedByRenderer(base, s, n);
    }
  }

  lemma {:induction false} UndisturbedRun(base: State, s: State, actions: seq<Action>, n: nat)
    requires InRange(base) && Safe(s) && Undisturbed(base, s, n) && WriterFree(actions)
    ensures Undisturbed(base, Run(s, actions), n)
    decreases |actions|
  {
    if actions != [] {
      UndisturbedStep(base, s, actions[0], n);
      StepKeepsSafe(s, actions[0]);
      UndisturbedRun(base, Step(s, actions[0]), actions[1..], n);
    }
  }

  /** While no write interferes, every read answers with chip RAM or was of a page that was
      not ready when the attempt began; in particular a read of a ready page never misses. */
  lemma ReadsAnswerFromRam(s: State, attempt: seq<Action>, k: nat)
    requires Safe(s) && s.renderer == Idle && s.writer == Quiet && WriterFree(attempt)
    requires |s.history| <= k < |Run(s, attempt).history|
    ensures AnsweredFrom(s, Run(s, attempt).history[k])
  {
    UndisturbedRun(s, s, attempt, |s.history|);
  }

  // ---------------------------------------------------------------- the miss flag

  predicate NoNewFrame(actions: seq<Action>) {
    forall i :: 0 <= i < |actions| ==> !actions[i].BeginFrame?
  }

  ghost predicate SomeMiss(history: seq<ReadRecord>, n: nat) {
    exists k :: n <= k < |history| && history[k].Miss?
  }

  ghost predicate FlagExact(s: State, n: nat) {
    n <= |s.history| && (s.renderMiss <==> SomeMiss(s.history, n) || Requesting(s.renderer))
  }

  lemma FlagStep(s: State, a: Action, n: nat)
    requires InRange(s) && FlagExact(s, n) && !a.BeginFrame?
    ensures FlagExact(Step(s, a), n)
  {
    FlagMoves(s, a);
    MissRecorded(s.history, Step(s, a).history, n);
  }

  predicate MissBegins(s: State, a: Action)
    requires InRange(s)
  {
    a.RendererStep? && s.renderer.CheckPage? && s.meta[PageOf(s.renderer.address)].st != Ready
  }

  predicate MissEnds(s: State, s': State) {
    |s'.history| > |s.history| && s'.history[|s.history|].Miss?
  }

  /** The flag goes up when a miss begins, and the miss is recorded when its request returns. */
  lemma FlagMoves(s: State, a: Action)
    requires InRange(s) && !a.BeginFrame?
    ensures var s' := Step(s, a);
            && |s.history| <= |s'.history| <= |s.history| + 1 && s'.history[..|s.history|] == s.history
            && (s'.renderMiss <==> s.renderMiss || MissBegins(s, a))
            && (Requesting(s'.renderer) <==> (Requesting(s.renderer) && !MissEnds(s, s')) || MissBegins(s, a))
            && (MissEnds(s, s') ==> Requesting(s.renderer))
  {
  }

  lemma MissRecorded(h: seq<ReadRecord>, h': seq<ReadRecord>, n: nat)
    requires n <= |h| <= |h'| <= |h| + 1 && h'[..|h|] == h
    ensures SomeMiss(h', n) <==> SomeMiss(h, n) || (|h'| > |h| && h'[|h|].Miss?)
  {
    if SomeMiss(h, n) {
      var k :| n <= k < |h| && h[k].Miss?;
      assert h'[k] == h[k];
    }
    if SomeMiss(h', n) {
      var k :| n <= k < |h'| && h'[k].Miss?;
      assert k < |h| ==> h[k] == h'[k];
    }
  }

  lemma {:induction false} FlagRun(s: State, actions: seq<Action>, n: nat)
    requires InRange(s) && FlagExact(s, n) && NoNewFrame(actions)
    ensures FlagExact(Run(s, actions), n)
    decreases |actions|
  {
    if actions != [] {
      FlagStep(s, actions[0], n);
      FlagRun(Step(s, actions[0]), actions[1..], n);
    }
  }

  /** At the end of a frame the miss flag is set exactly when one of the frame's reads
      was answered with a synthetic zero. */
  lemma MissFlagExact(s: State, frame: seq<Action>)
    requires InRange(s) && s.renderer == Idle && NoNewFrame(frame)
    ensures var s' := Run(Step(s, BeginFrame), frame);
            s'.renderer == Idle ==>
              (s'.renderMiss <==> SomeMiss(s'.history, |s.history|))
  {
    FlagRun(Step(s, BeginFrame), frame, |s.history|);
  }

  // ---------------------------------------------------------------- why NoStaleLoad is needed

  lemma RunExtends(s: State, actions: seq<Action>, a: Action)
    requires InRange(s)
    ensures Run(s, actions + [a]) == Step(Run(s, actions), a)
  {
    RunSplits(s, actions, [a]);
    assert Run(Run(s, actions), [a]) == Run(Step(Run(s, actions), a), [a][1..]);
  }

  /** A read of page 0 from rest: it misses and queues the page. */
  lemma MissReached(s0: State) returns (setup: seq<Action>, s: State)
    requires Initial(s0)
    ensures s == Run(s0, setup) && InRange(s)
    ensures s.renderer == Idle && s.writer == Quiet && s.worker == Resting
    ensures s.head == 1 && s.tail == 0 && s.requests[0] == 0 && s.meta[0] == Meta(0, Queued)
  {
    setup, s := Then(s0, [], StartRead(0));
    setup, s := Then(s0, setup, RendererStep);
    setup, s := Then(s0, setup, RendererStep);
    setup, s := Then(s0, setup, RendererStep);
    assert s.renderer == StoreSlot(0, FromMiss(0));
    setup, s := Then(s0, setup, RendererStep);
    setup, s := Then(s0, setup, RendererStep);
  }

  /** The worker then claims the page and is about to read its first byte. */
  lemma ClaimReached(s0: State) returns (setup: seq<Action>, s: State)
    requires Initial(s0)
    ensures s == Run(s0, setup) && InRange(s)
    ensures s.renderer == Idle && s.writer == Quiet && s.worker == ReadBus(0, 0, 0) && s.meta[0] == Meta(0, Loading)
  {
    setup, s := MissReached(s0);
    setup, s := Then(s0, setup, WorkerStep);
    setup, s := Then(s0, setup, WorkerStep);
    assert s.worker == LoadWord(0);
    setup, s := Then(s0, setup, WorkerStep);
    setup, s := Then(s0, setup, WorkerStep);
  }

  /** Miss, claim, then a bus write into the page: the load in flight is now stale. */
  lemma StaleLoadReached(s0: State) returns (setup: seq<Action>)
    requires Initial(s0)
    ensures var s := Run(s0, setup);
            && s.renderer == Idle && s.writer == Quiet && s.worker == ReadBus(0, 0, 0)
            && s.meta[0] == Meta(1, Loading)
  {
    var s;
    setup, s := ClaimReached(s0);
    setup, s := Then(s0, setup, BusWrite(0, [0]));
    assert s.writer == LoadForInvalidate(0, 0);
    setup, s := Then(s0, setup, WriterStep);
    setup, s := Then(s0, setup, WriterStep);
  }

  lemma Then(s0: State, actions: seq<Action>, a: Action) returns (longer: seq<Action>, s: State)
    requires InRange(s0)
    ensures longer == actions + [a] && s == Run(s0, longer) == Step(Run(s0, actions), a)
  {
    RunExtends(s0, actions, a);
    longer, s := actions + [a], Run(s0, actions + [a]);
  }

  /** An attempt that finds its page loading only notes the miss. */
  lemma StaleAttempt(s: State) returns (attempt: seq<Action>, s': State)
    requires InRange(s) && s.renderer == Idle && s.meta[0].st == Loading
    ensures WriterFree(attempt) && s' == Run(s, attempt)
    ensures s' == s.(renderMiss := true, history := s.history + [Miss(0)])
  {
    attempt, s' := Then(s, [], StartRead(0));
    attempt, s' := Then(s, attempt, RendererStep);
    attempt, s' := Then(s, attempt, RendererStep);
  }

  /** One attempt and one drain are not always enough: with a stale load in flight the
      attempt finds its page loading, asks for nothing, and the load is thrown away. */
  lemma StaleLoadDefeatsOneDrain(s0: State) returns (setup: seq<Action>, attempt: seq<Action>)
    requires Initial(s0)
    ensures WriterFree(attempt)
    ensures var s1 := Run(s0, setup);
            var s2 := Run(s1, attempt);
            && s1.renderer == Idle && s1.writer == Quiet && !NoStaleLoad(s1)
            && s2.renderer == Idle && s2.history == s1.history + [Miss(0)]
            && forall drain :: WorkerOnly(drain) && Drained(Run(s2, drain)) ==>
                 Run(s2, drain).meta[0].st != Ready
  {
    setup := StaleLoadReached(s0);
    var s1 := Run(s0, setup);
    InitialSafe(s0);
    RunKeepsSafe(s0, setup);
    var s2;
    attempt, s2 := StaleAttempt(s1);
    assert Doomed(s2, 0);
    RunKeepsSafe(s1, attempt);
    forall drain | WorkerOnly(drain) && Drained(Run(s2, drain))
      ensures Run(s2, drain).meta[0].st != Ready
    {
      DrainMakesReady(s2, drain, 0);
    }
  }
}
