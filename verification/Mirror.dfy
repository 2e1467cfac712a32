/** The page cache as the C code holds it: arrays updated in place. Each method is one C
    function running without interference; its contract is a function of the old state, and
    each of those functions is one uninterrupted run of the interleaved machine. */
module Mirror {
  import opened Words
  import opened PageCache
  import opened PageCacheSafety
  import opened PageCacheTheorems
  import opened PageCacheDrain
  import Ring

  // ---------------------------------------------------------------- uninterrupted calls

  /** All three agents are between calls. */
  ghost predicate AtRest(s: State) {
    InRange(s) && s.renderer == Idle && s.worker == Resting && s.writer == Quiet
  }

  function Requested(s: State, p: nat): (s': State)
    requires Shaped(s) && p < PAGE_COUNT
    ensures Shaped(s')
  {
    if s.meta[p].st != Missing then s
    else s.(meta := s.meta[p := s.meta[p].(st := Queued)],
            requests := s.requests[s.head % Ring.CAPACITY := p],
            head := Ring.Next(s.head))
  }

  function RequestedUpTo(s: State, p: nat, end: nat): (s': State)
    requires Shaped(s) && p <= end <= PAGE_COUNT
    ensures Shaped(s')
    decreases end - p
  {
    if p == end then s else RequestedUpTo(Requested(s, p), p + 1, end)
  }

  function Prefetched(s: State, address: nat, length: nat): (s': State)
    requires Shaped(s)
    ensures Shaped(s')
  {
    if address >= CHIP_LIMIT || length == 0 then s
    else RequestedUpTo(s, PageOf(address), LastPage(address, length) + 1)
  }

  function ReadValue(s: State, a: nat): Byte
    requires Shaped(s)
  {
    if a < CHIP_LIMIT && s.meta[PageOf(a)].st == Ready then s.shadow[a] else 0
  }

  function ReadDone(s: State, a: nat): (s': State)
    requires Shaped(s)
    ensures Shaped(s')
  {
    var p := PageOf(a);
    if a >= CHIP_LIMIT then
      s.(history := s.history + [OutOfRange(a)])
    else if s.meta[p].st != Ready then
      Requested(s.(renderMiss := true), p).(history := s.history + [Miss(a)])
    else
      Warmed(s, a).(history := s.history + [Hit(a, s.shadow[a], Check(s.shadow[a], s.ram[a], false))])
  }

  /** The next page is asked for just before the current one ends. */
  function Warmed(s: State, a: nat): (s': State)
    requires Shaped(s) && a < CHIP_LIMIT
    ensures Shaped(s')
  {
    var p := PageOf(a);
    if a % PAGE_SIZE >= PAGE_SIZE - 64 && p + 1 < PAGE_COUNT then Requested(s, p + 1) else s
  }

  /** Bytes [from, to) of page p copied from RAM. */
  function Copied(shadow: seq<Byte>, ram: seq<Byte>, p: nat, from: nat, to: nat): (r: seq<Byte>)
    requires |shadow| == |ram| == CHIP_LIMIT && p < PAGE_COUNT && from <= to <= PAGE_SIZE
    ensures |r| == CHIP_LIMIT
  {
    var base := p * PAGE_SIZE;
    shadow[..base + from] + ram[base + from..base + to] + shadow[base + to..]
  }

  function Serviced(s: State): (s': State)
    requires Shaped(s)
    ensures Shaped(s')
  {
    if s.head == s.tail then s
    else
      var p := s.requests[s.tail % Ring.CAPACITY];
      if s.meta[p].st != Queued then s.(tail := Ring.Next(s.tail))
      else s.(shadow := Copied(s.shadow, s.ram, p, 0, PAGE_SIZE),
              meta := s.meta[p := s.meta[p].(st := Ready)],
              tail := Ring.Next(s.tail),
              pagesReady := s.pagesReady + 1)
  }

  function InvalidatedPage(s: State, p: nat): (s': State)
    requires Shaped(s) && p < PAGE_COUNT
    ensures Shaped(s')
  {
    if s.meta[p].st == Missing then s
    else s.(meta := s.meta[p := Invalidated(s.meta[p])],
            pagesReady := s.pagesReady - if s.meta[p].st == Ready then 1 else 0)
  }

  function InvalidatedUpTo(s: State, p: nat, end: nat): (s': State)
    requires Shaped(s) && p <= end <= PAGE_COUNT
    ensures Shaped(s')
    decreases end - p
  {
    if p == end then s else InvalidatedUpTo(InvalidatedPage(s, p), p + 1, end)
  }

  function Invalidation(s: State, address: nat, width: nat): (s': State)
    requires Shaped(s)
    ensures Shaped(s')
  {
    if address >= CHIP_LIMIT || width == 0 then s
    else InvalidatedUpTo(s, PageOf(address), LastPage(address, width) + 1)
  }

  // ---------------------------------------------------------------- they are runs

  lemma {:induction false} Append(s: State, first: seq<Action>, rest: seq<Action>, mid: State, end: State)
    requires InRange(s) && Run(s, first) == mid && Run(mid, rest) == end
    ensures Run(s, first + rest) == end
  {
    RunSplits(s, first, rest);
  }

  lemma OneStep(s: State, a: Action)
    requires InRange(s)
    ensures Run(s, [a]) == Step(s, a)
  {
    assert Run(s, [a]) == Run(Step(s, a), [a][1..]);
  }

  predicate RendererOnly(actions: seq<Action>) {
    forall i :: 0 <= i < |actions| ==> actions[i] == RendererStep
  }

  /** request_page, from its load to its return, with nobody else moving. */
  lemma RequestRuns(s: State, p: nat, c: Caller) returns (actions: seq<Action>)
    requires InRange(s) && s.renderer == LoadMeta(p, c)
    ensures RendererOnly(actions)
    ensures Run(s, actions) == Return(Requested(s, p), c)
  {
    OneStep(s, RendererStep);
    actions := [RendererStep];
    if s.meta[p].st == Missing {
      var s' := Step(s, RendererStep);
      actions, s' := Then(s, actions, RendererStep);
      actions, s' := Then(s, actions, RendererStep);
      actions, s' := Then(s, actions, RendererStep);
    }
  }

  /** request_page and its return, for a page the read itself or its neighbour needs. */
  lemma RequestStepRuns(s: State, s1: State) returns (actions: seq<Action>)
    requires InRange(s) && s1 == Step(s, RendererStep) && s1.renderer.LoadMeta?
    ensures RendererOnly(actions)
    ensures Run(s, actions) == Return(Requested(s1, s1.renderer.page), s1.renderer.caller)
  {
    OneStep(s, RendererStep);
    var more := RequestRuns(s1, s1.renderer.page, s1.renderer.caller);
    Append(s, [RendererStep], more, s1, Return(Requested(s1, s1.renderer.page), s1.renderer.caller));
    actions := [RendererStep] + more;
  }

  lemma MissRuns(s: State, a: nat) returns (actions: seq<Action>)
    requires InRange(s) && s.renderer == CheckPage(a) && s.meta[PageOf(a)].st != Ready
    ensures RendererOnly(actions)
    ensures Run(s, actions) == ReadDone(s, a).(renderer := Idle)
  {
    actions := RequestStepRuns(s, s.(renderMiss := true, renderer := LoadMeta(PageOf(a), FromMiss(a))));
  }

  /** A hit up to the load of its byte, with the request for the next page if that is near. */
  lemma WarmRuns(s: State, a: nat) returns (actions: seq<Action>)
    requires InRange(s) && s.renderer == CheckPage(a) && s.writer == Quiet
    requires s.meta[PageOf(a)].st == Ready
    ensures RendererOnly(actions)
    ensures Run(s, actions) == Warmed(s, a).(renderer := LoadShadow(a, Check(s.shadow[a], s.ram[a], false)))
  {
    var s1 := Step(s, RendererStep);
    if s1.renderer.LoadMeta? {
      actions := RequestStepRuns(s, s1);
    } else {
      OneStep(s, RendererStep);
      actions := [RendererStep];
    }
  }

  lemma HitRuns(s: State, a: nat) returns (actions: seq<Action>)
    requires InRange(s) && s.renderer == CheckPage(a) && s.writer == Quiet
    requires s.meta[PageOf(a)].st == Ready
    ensures RendererOnly(actions)
    ensures Run(s, actions) == ReadDone(s, a).(renderer := Idle)
  {
    actions := WarmRuns(s, a);
    var s1 := Run(s, actions);
    LoadStep(s1);
    actions, s1 := Then(s, actions, RendererStep);
  }

  lemma LoadStep(s: State)
    requires InRange(s) && s.renderer.LoadShadow?
    ensures var a := s.renderer.address;
            Step(s, RendererStep) ==
            s.(renderer := Idle, history := s.history + [Hit(a, s.shadow[a], s.renderer.check)])
  {
  }

  lemma ReadRuns(s: State, a: nat) returns (actions: seq<Action>)
    requires AtRest(s)
    ensures RendererAlone(actions) && NoNewFrame(actions)
    ensures Run(s, actions) == ReadDone(s, a)
  {
    OneStep(s, StartRead(a));
    actions := [StartRead(a)];
    if a < CHIP_LIMIT {
      var s1 := Step(s, StartRead(a));
      var more;
      if s.meta[PageOf(a)].st == Ready {
        more := HitRuns(s1, a);
      } else {
        more := MissRuns(s1, a);
      }
      Append(s, actions, more, s1, ReadDone(s1, a).(renderer := Idle));
      actions := actions + more;
    }
  }

  lemma {:induction false} RequestsRun(s: State, next: nat, last: nat) returns (actions: seq<Action>)
    requires InRange(s) && next <= last < PAGE_COUNT
    requires s.renderer == LoadMeta(next, FromPrefetch(next + 1, last))
    ensures RendererOnly(actions)
    ensures Run(s, actions) == RequestedUpTo(s, next, last + 1).(renderer := Idle)
    decreases last - next
  {
    actions := RequestRuns(s, next, s.renderer.caller);
    var s1 := Return(Requested(s, next), s.renderer.caller);
    assert Run(s, actions) == s1;
    if next < last {
      var more := RequestsRun(s1, next + 1, last);
      Append(s, actions, more, s1, RequestedUpTo(s1, next + 1, last + 1).(renderer := Idle));
      actions := actions + more;
      RequestsIgnoreRenderer(Requested(s, next), next + 1, last + 1, s1.renderer);
    }
  }

  lemma {:induction false} RequestsIgnoreRenderer(s: State, p: nat, end: nat, r: Renderer)
    requires Shaped(s) && p <= end <= PAGE_COUNT
    ensures RequestedUpTo(s.(renderer := r), p, end) == RequestedUpTo(s, p, end).(renderer := r)
    decreases end - p
  {
    if p < end {
      assert Requested(s.(renderer := r), p) == Requested(s, p).(renderer := r);
      RequestsIgnoreRenderer(Requested(s, p), p + 1, end, r);
    }
  }

  /** The renderer's steps of one prefetch call, after its first. */
  lemma PrefetchSteps(s: State, address: nat, length: nat) returns (calls: seq<Action>)
    requires InRange(s) && s.renderer == Idle
    ensures RendererOnly(calls)
    ensures Run(Step(s, StartPrefetch(address, length)), calls) == Prefetched(s, address, length)
    ensures InRange(Prefetched(s, address, length)) && Prefetched(s, address, length).renderer == Idle
  {
    calls := [];
    if address < CHIP_LIMIT && length > 0 {
      var first, last := PageOf(address), LastPage(address, length);
      var s1 := Step(s, StartPrefetch(address, length));
      calls := RequestsRun(s1, first, last);
      RequestsIgnoreRenderer(s, first, last + 1, s1.renderer);
      RequestsKeepRest(s, first, last + 1);
    }
  }

  lemma PrefetchRuns(s: State, address: nat, length: nat) returns (actions: seq<Action>)
    requires InRange(s) && s.renderer == Idle
    ensures WriterFree(actions) && NoNewFrame(actions)
    ensures Run(s, actions) == Prefetched(s, address, length)
  {
    var start := StartPrefetch(address, length);
    var calls := PrefetchSteps(s, address, length);
    OneStep(s, start);
    Append(s, [start], calls, Step(s, start), Prefetched(s, address, length));
    actions := [start] + calls;
  }

  lemma {:induction false} RequestsKeepRest(s: State, p: nat, end: nat)
    requires Shaped(s) && p <= end <= PAGE_COUNT
    ensures var r := RequestedUpTo(s, p, end);
            r.renderer == s.renderer && r.worker == s.worker && r.writer == s.writer
    decreases end - p
  {
    if p < end {
      RequestsKeepRest(Requested(s, p), p + 1, end);
    }
  }

  /** Exactly what a prefetch asks for: the missing pages that hold a byte of the range inside
      chip RAM, each kept at its generation. */
  lemma PrefetchAsks(s: State, address: nat, length: nat, q: nat)
    requires Shaped(s) && q < PAGE_COUNT
    ensures Prefetched(s, address, length).meta[q] ==
            if s.meta[q].st == Missing && address < CHIP_LIMIT && length > 0
               && address / 256 <= q && q * 256 < address + length
            then Meta(s.meta[q].gen, Queued) else s.meta[q]
  {
    if address < CHIP_LIMIT && length > 0 {
      RequestsAsk(s, PageOf(address), LastPage(address, length) + 1, q);
    }
  }

  lemma {:induction false} RequestsAsk(s: State, p: nat, end: nat, q: nat)
    requires Shaped(s) && p <= end <= PAGE_COUNT && q < PAGE_COUNT
    ensures RequestedUpTo(s, p, end).meta[q] ==
            if s.meta[q].st == Missing && p <= q < end then Meta(s.meta[q].gen, Queued) else s.meta[q]
    decreases end - p
  {
    if p < end {
      RequestsAsk(Requested(s, p), p + 1, end, q);
    }
  }

  /** Exactly what a read asks for: its own page if that is not ready, and the next page when a
      ready one is read within 64 bytes of its end. */
  lemma ReadAsks(s: State, a: nat, q: nat)
    requires Shaped(s) && q < PAGE_COUNT
    ensures ReadDone(s, a).meta[q] ==
            if s.meta[q].st == Missing && a < CHIP_LIMIT
               && (q == a / 256 || (s.meta[a / 256].st == Ready && a % 256 >= 192 && q == a / 256 + 1))
            then Meta(s.meta[q].gen, Queued) else s.meta[q]
  {
  }

  /** Exactly what an invalidation does: every page that holds a byte of the range and is not
      missing gets the next generation and, if it was ready, becomes missing. */
  lemma InvalidatesExactly(s: State, address: nat, width: nat, q: nat)
    requires Shaped(s) && q < PAGE_COUNT
    ensures var m := s.meta[q];
            Invalidation(s, address, width).meta[q] ==
            if m.st != Missing && address < CHIP_LIMIT && width > 0
               && address / 256 <= q && q * 256 < address + width
            then Meta(m.gen + 1, if m.st == Ready then Missing else m.st) else m
  {
    if address < CHIP_LIMIT && width > 0 {
      InvalidatesUpTo(s, PageOf(address), LastPage(address, width) + 1, q);
    }
  }

  lemma {:induction false} InvalidatesUpTo(s: State, p: nat, end: nat, q: nat)
    requires Shaped(s) && p <= end <= PAGE_COUNT && q < PAGE_COUNT
    ensures var m := s.meta[q];
            InvalidatedUpTo(s, p, end).meta[q] ==
            if m.st != Missing && p <= q < end
            then Meta(m.gen + 1, if m.st == Ready then Missing else m.st) else m
    decreases end - p
  {
    if p < end {
      InvalidatesUpTo(InvalidatedPage(s, p), p + 1, end, q);
    }
  }

  lemma CopiedStep(shadow: seq<Byte>, ram: seq<Byte>, p: nat, i: nat)
    requires |shadow| == |ram| == CHIP_LIMIT && p < PAGE_COUNT && i < PAGE_SIZE
    ensures var a := p * PAGE_SIZE + i;
            Copied(shadow[a := ram[a]], ram, p, i + 1, PAGE_SIZE) == Copied(shadow, ram, p, i, PAGE_SIZE)
  {
  }

  lemma CopiedNext(shadow: seq<Byte>, ram: seq<Byte>, p: nat, i: nat)
    requires |shadow| == |ram| == CHIP_LIMIT && p < PAGE_COUNT && i < PAGE_SIZE
    ensures var a := p * PAGE_SIZE + i;
            Copied(shadow, ram, p, 0, i)[a := ram[a]] == Copied(shadow, ram, p, 0, i + 1)
  {
  }

  /** The 256-byte copy, one bus read and one shadow store at a time. */
  lemma {:induction false} CopyRuns(s: State, i: nat) returns (actions: seq<Action>)
    requires InRange(s) && s.worker.ReadBus? && s.worker.i == i
    ensures WorkerOnly(actions)
    ensures Run(s, actions) == CopyEnd(s, i)
    decreases PAGE_SIZE - i
  {
    OneStep(s, WorkerStep);
    var s1;
    actions, s1 := Then(s, [WorkerStep], WorkerStep);
    CopiedStep(s.shadow, s.ram, s.worker.page, i);
    if i + 1 < PAGE_SIZE {
      var more := CopyRuns(s1, i + 1);
      Append(s, actions, more, s1, CopyEnd(s1, i + 1));
      actions := actions + more;
    }
  }

  function CopyEnd(s: State, i: nat): State
    requires InRange(s) && s.worker.ReadBus? && i < PAGE_SIZE
  {
    s.(shadow := Copied(s.shadow, s.ram, s.worker.page, i, PAGE_SIZE),
       worker := ReleaseSlot(s.worker.page, s.worker.gen))
  }

  /** Taking the oldest request, up to the claim of its page. */
  lemma ClaimRuns(s: State) returns (actions: seq<Action>)
    requires AtRest(s) && s.head != s.tail
    ensures WorkerOnly(actions)
    ensures var p := s.requests[s.tail % Ring.CAPACITY];
            Run(s, actions) ==
            if s.meta[p].st != Queued then s.(worker := Skip(p))
            else s.(meta := s.meta[p := s.meta[p].(st := Loading)], worker := ReadBus(p, 0, s.meta[p].gen))
  {
    OneStep(s, WorkerStep);
    var s1;
    actions, s1 := Then(s, [WorkerStep], WorkerStep);
    actions, s1 := Then(s, actions, WorkerStep);
    if s1.worker.Claim? {
      actions, s1 := Then(s, actions, WorkerStep);
    }
  }

  /** Releasing the slot, reserving the count and publishing. */
  lemma PublishRuns(s: State) returns (actions: seq<Action>)
    requires InRange(s) && s.worker.ReleaseSlot?
    requires s.meta[s.worker.page] == Meta(s.worker.gen, Loading)
    ensures WorkerOnly(actions)
    ensures Run(s, actions) ==
            s.(tail := Ring.Next(s.tail), pagesReady := s.pagesReady + 1,
               meta := s.meta[s.worker.page := Meta(s.worker.gen, Ready)], worker := Resting)
  {
    OneStep(s, WorkerStep);
    var s1;
    actions, s1 := Then(s, [WorkerStep], WorkerStep);
    actions, s1 := Then(s, actions, WorkerStep);
  }

  lemma ServiceRuns(s: State) returns (actions: seq<Action>)
    requires AtRest(s)
    ensures WorkerOnly(actions)
    ensures Run(s, actions) == Serviced(s)
  {
    actions := [];
    if s.head != s.tail {
      actions := ClaimRuns(s);
      var s1 := Run(s, actions);
      if s1.worker.Skip? {
        actions, s1 := Then(s, actions, WorkerStep);
      } else {
        var copy := CopyRuns(s1, 0);
        var publish := PublishRuns(CopyEnd(s1, 0));
        Append(s1, copy, publish, CopyEnd(s1, 0), Serviced(s));
        Append(s, actions, copy + publish, s1, Serviced(s));
        actions := actions + (copy + publish);
      }
    }
  }

  predicate WriterOnly(actions: seq<Action>) {
    forall i :: 0 <= i < |actions| ==> actions[i] == WriterStep
  }

  lemma InvalidatePageRuns(s: State, p: nat, last: nat) returns (actions: seq<Action>)
    requires InRange(s) && p <= last < PAGE_COUNT && s.writer == LoadForInvalidate(p, last)
    ensures WriterOnly(actions)
    ensures Run(s, actions) == InvalidatedPage(s, p).(writer := NextInvalidate(p, last))
  {
    OneStep(s, WriterStep);
    actions := [WriterStep];
    var s1 := Step(s, WriterStep);
    if s.meta[p].st != Missing {
      actions, s1 := Then(s, actions, WriterStep);
      if s1.writer.Decrement? {
        actions, s1 := Then(s, actions, WriterStep);
      }
    }
  }

  lemma {:induction false} InvalidationRuns(s: State, p: nat, last: nat) returns (actions: seq<Action>)
    requires InRange(s) && p <= last < PAGE_COUNT && s.writer == LoadForInvalidate(p, last)
    ensures WriterOnly(actions)
    ensures Run(s, actions) == InvalidatedUpTo(s, p, last + 1).(writer := Quiet)
    decreases last - p
  {
    actions := InvalidatePageRuns(s, p, last);
    var s1 := InvalidatedPage(s, p).(writer := NextInvalidate(p, last));
    InvalidationIgnoresWriter(InvalidatedPage(s, p), p + 1, last + 1, s1.writer);
    if p < last {
      var more := InvalidationRuns(s1, p + 1, last);
      Append(s, actions, more, s1, InvalidatedUpTo(s1, p + 1, last + 1).(writer := Quiet));
      actions := actions + more;
    }
  }

  lemma {:induction false} InvalidationIgnoresWriter(s: State, p: nat, end: nat, b: Writer)
    requires Shaped(s) && p <= end <= PAGE_COUNT
    ensures InvalidatedUpTo(s.(writer := b), p, end) == InvalidatedUpTo(s, p, end).(writer := b)
    decreases end - p
  {
    if p < end {
      assert InvalidatedPage(s.(writer := b), p) == InvalidatedPage(s, p).(writer := b);
      InvalidationIgnoresWriter(InvalidatedPage(s, p), p + 1, end, b);
    }
  }

  lemma BusWriteRuns(s: State, address: nat, bytes: seq<Byte>) returns (actions: seq<Action>)
    requires AtRest(s)
    ensures Run(s, actions) ==
            Invalidation(s.(ram := Written(s.ram, address, bytes)), address, |bytes|).(writer := Quiet)
  {
    if address < CHIP_LIMIT && |bytes| > 0 {
      actions := LandedRuns(s, address, bytes);
    } else {
      OneStep(s, BusWrite(address, bytes));
      actions := [BusWrite(address, bytes)];
      assert Written(s.ram, address, bytes) == s.ram;
    }
  }

  lemma LandedRuns(s: State, address: nat, bytes: seq<Byte>) returns (actions: seq<Action>)
    requires AtRest(s) && address < CHIP_LIMIT && |bytes| > 0
    ensures var landed := s.(ram := Written(s.ram, address, bytes));
            Run(s, actions) ==
            InvalidatedUpTo(landed, PageOf(address), LastPage(address, |bytes|) + 1).(writer := Quiet)
  {
    var first, last := PageOf(address), LastPage(address, |bytes|);
    var landed := s.(ram := Written(s.ram, address, bytes));
    var s1 := landed.(writer := LoadForInvalidate(first, last));
    OneStep(s, BusWrite(address, bytes));
    var more := InvalidationRuns(s1, first, last);
    InvalidationIgnoresWriter(landed, first, last + 1, s1.writer);
    Append(s, [BusWrite(address, bytes)], more, s1, InvalidatedUpTo(s1, first, last + 1).(writer := Quiet));
    actions := [BusWrite(address, bytes)] + more;
  }

  // ---------------------------------------------------------------- what a call achieves

  /** Prefetching leaves every page it covers asked for, loading or ready. */
  lemma {:induction false} RequestsCover(s: State, p: nat, end: nat, q: nat)
    requires Shaped(s) && p <= end <= PAGE_COUNT && q < PAGE_COUNT
    requires p <= q < end || s.meta[q].st != Missing
    ensures RequestedUpTo(s, p, end).meta[q].st != Missing
    decreases end - p
  {
    if p < end {
      RequestsCover(Requested(s, p), p + 1, end, q);
    }
  }

  /** Servicing a request publishes its page with chip RAM's bytes and frees its slot. */
  lemma ServicePublishes(s: State)
    requires Safe(s) && AtRest(s) && s.head != s.tail
    ensures var p, s' := Queue(s)[0], Serviced(s);
            && p < PAGE_COUNT && s.meta[p].st == Queued && s'.meta[p].st == Ready
            && (forall a: nat :: a < CHIP_LIMIT && PageOf(a) == p ==> s'.shadow[a] == s.ram[a])
            && Safe(s') && AtRest(s') && Queue(s') == Queue(s)[1..]
  {
    var p := s.requests[s.tail % Ring.CAPACITY];
    assert Queue(s)[0] == p && p in Queue(s);
    assert HasSlot(s.meta[p].st, s.renderer, s.worker, p);
    Ring.PopRemovesFirst(s.requests, s.head, s.tail);
    var actions := ServiceRuns(s);
    RunKeepsSafe(s, actions);
  }

  /** Servicing until the queue is empty is a run of the worker alone, and it ends. */
  lemma {:induction false} DrainRuns(s: State) returns (drain: seq<Action>)
    requires Safe(s) && AtRest(s)
    ensures WorkerOnly(drain) && Safe(Run(s, drain)) && Drained(Run(s, drain))
    decreases |Queue(s)|
  {
    drain := [];
    if s.head != s.tail {
      drain := ServiceRuns(s);
      ServicePublishes(s);
      var rest := DrainRuns(Serviced(s));
      Append(s, drain, rest, Serviced(s), Run(Serviced(s), rest));
      drain := drain + rest;
    }
  }

  lemma ReadKeepsSafe(s: State, a: nat)
    requires Safe(s) && AtRest(s)
    ensures Safe(ReadDone(s, a))
  {
    var actions := ReadRuns(s, a);
    RunKeepsSafe(s, actions);
  }

  lemma PrefetchKeepsSafe(s: State, address: nat, length: nat)
    requires Safe(s) && AtRest(s)
    ensures Safe(Prefetched(s, address, length))
  {
    var actions := PrefetchRuns(s, address, length);
    RunKeepsSafe(s, actions);
  }

  lemma ServiceKeepsSafe(s: State)
    requires Safe(s) && AtRest(s)
    ensures Safe(Serviced(s))
  {
    var actions := ServiceRuns(s);
    RunKeepsSafe(s, actions);
  }

  lemma BusWriteKeepsCacheSafe(s: State, address: nat, bytes: seq<Byte>)
    requires Safe(s) && AtRest(s)
    ensures var s' := Invalidation(s.(ram := Written(s.ram, address, bytes)), address, |bytes|);
            Safe(s') && s'.writer == Quiet
  {
    var actions := BusWriteRuns(s, address, bytes);
    RunKeepsSafe(s, actions);
    var s1 := s.(ram := Written(s.ram, address, bytes));
    InvalidationKeepsWriter(s1, address, |bytes|);
    assert Invalidation(s1, address, |bytes|) == Invalidation(s1, address, |bytes|).(writer := Quiet);
  }

  lemma InvalidationKeepsWriter(s: State, address: nat, width: nat)
    requires Shaped(s)
    ensures Invalidation(s, address, width).writer == s.writer
  {
    if address < CHIP_LIMIT && width > 0 {
      InvalidationIgnoresWriter(s, PageOf(address), LastPage(address, width) + 1, s.writer);
    }
  }

  lemma ByteWriteKeepsCacheSafe(s: State, address: nat, value: Byte)
    requires Safe(s) && AtRest(s) && address < CHIP_LIMIT
    ensures var s' := Invalidation(s.(ram := Written(s.ram, address, [value])), address, 1);
            Safe(s') && s'.writer == Quiet
  {
    BusWriteKeepsCacheSafe(s, address, [value]);
  }

  // ---------------------------------------------------------------- the arrays

  class ChipMirror {
    const ram: array<Byte>
    const shadow: array<Byte>
    const meta: array<Meta>
    const requests: array<nat>
    var head: nat
    var tail: nat
    var pagesReady: int
    var renderMiss: bool
    ghost var history: seq<ReadRecord>

    ghost function Abs(): State
      reads this, ram, shadow, meta, requests
    {
      State(ram[..], shadow[..], meta[..], requests[..], head, tail, pagesReady, renderMiss,
            history, Idle, Resting, Quiet)
    }

    ghost predicate Valid()
      reads this, ram, shadow, meta, requests
    {
      && ram != shadow && Safe(Abs())
    }

    /** paula_mirror_enable over the chip RAM found on the bus. */
    constructor (ram: array<Byte>)
      requires ram.Length == CHIP_LIMIT
      ensures Valid() && Initial(Abs()) && this.ram == ram
      ensures fresh(shadow) && fresh(meta) && fresh(requests)
    {
      this.ram := ram;
      shadow := new Byte[CHIP_LIMIT];
      meta := new Meta[PAGE_COUNT](_ => Meta(0, Missing));
      requests := new nat[Ring.CAPACITY](_ => 0);
      head, tail, pagesReady, renderMiss, history := 0, 0, 0, false, [];
      new;
      InitialSafe(Abs());
    }

    method BeginRender()
      requires Valid()
      modifies this`renderMiss
      ensures Valid() && Abs() == old(Abs()).(renderMiss := false)
    {
      StepKeepsSafe(Abs(), BeginFrame);
      renderMiss := false;
    }

    method RequestPage(p: nat)
      requires Shaped(Abs())
      modifies this`head, meta, requests
      ensures Abs() == if p < PAGE_COUNT then Requested(old(Abs()), p) else old(Abs())
    {
      if p >= PAGE_COUNT {
        return;
      }
      var seen := meta[p];
      if seen.st != Missing {
        return;
      }
      meta[p] := seen.(st := Queued);
      requests[head % Ring.CAPACITY] := p;
      head := Ring.Next(head);
    }

    method ReadByte(address: nat) returns (value: Byte)
      requires Valid()
      modifies this`head, this`renderMiss, this`history, meta, requests
      ensures Valid() && Abs() == ReadDone(old(Abs()), address)
      ensures value == ReadValue(old(Abs()), address)
    {
      ReadKeepsSafe(Abs(), address);
      value := LookUp(address);
    }

    method LookUp(address: nat) returns (value: Byte)
      requires Shaped(Abs())
      modifies this`head, this`renderMiss, this`history, meta, requests
      ensures Abs() == ReadDone(old(Abs()), address) && value == ReadValue(old(Abs()), address)
    {
      if address >= CHIP_LIMIT {
        history := history + [OutOfRange(address)];
        return 0;
      }
      var p := PageOf(address);
      if meta[p].st != Ready {
        renderMiss := true;
        RequestPage(p);
        history := history + [Miss(address)];
        return 0;
      }
      if address % PAGE_SIZE >= PAGE_SIZE - 64 && p + 1 < PAGE_COUNT {
        RequestPage(p + 1);
      }
      value := shadow[address];
      history := history + [Hit(address, value, Check(value, ram[address], false))];
    }

    method Prefetch(address: nat, length: nat)
      requires Valid()
      modifies this`head, meta, requests
      ensures Valid() && Abs() == Prefetched(old(Abs()), address, length)
    {
      PrefetchKeepsSafe(Abs(), address, length);
      if address >= CHIP_LIMIT || length == 0 {
        return;
      }
      var clipped := if length > CHIP_LIMIT - address then CHIP_LIMIT - address else length;
      var page, last := PageOf(address), PageOf(address + clipped - 1);
      assert last == LastPage(address, length);
      while page <= last
        invariant page <= last + 1
        invariant Shaped(Abs())
        invariant RequestedUpTo(Abs(), page, last + 1) == Prefetched(old(Abs()), address, length)
      {
        RequestPage(page);
        page := page + 1;
      }
    }

    method Invalidate(address: nat, width: nat)
      requires Shaped(Abs())
      modifies this`pagesReady, meta
      ensures Abs() == Invalidation(old(Abs()), address % U24, width)
    {
      var a := address % U24;
      if a >= CHIP_LIMIT || width == 0 {
        return;
      }
      var page, last := PageOf(a), PageOf(a + width - 1);
      if last >= PAGE_COUNT {
        last := PAGE_COUNT - 1;
      }
      while page <= last
        invariant page <= last + 1
        invariant Shaped(Abs())
        invariant InvalidatedUpTo(Abs(), page, last + 1) == Invalidation(old(Abs()), a, width)
      {
        InvalidatePage(page);
        page := page + 1;
      }
    }

    method InvalidatePage(p: nat)
      requires Shaped(Abs()) && p < PAGE_COUNT
      modifies this`pagesReady, meta
      ensures Abs() == InvalidatedPage(old(Abs()), p)
    {
      var seen := meta[p];
      if seen.st != Missing {
        meta[p] := Invalidated(seen);
        if seen.st == Ready {
          pagesReady := pagesReady - 1;
        }
      }
    }

    /** A bus write into chip RAM, then its invalidation. */
    method BusWriteByte(address: nat, value: Byte)
      requires Valid() && address < CHIP_LIMIT
      modifies this`pagesReady, ram, meta
      ensures Valid()
      ensures Abs() == Invalidation(old(Abs()).(ram := Written(old(ram[..]), address, [value])), address, 1)
    {
      ByteWriteKeepsCacheSafe(Abs(), address, value);
      LandByte(address, value);
    }

    method LandByte(address: nat, value: Byte)
      requires Shaped(Abs()) && ram != shadow && address < CHIP_LIMIT
      modifies this`pagesReady, ram, meta
      ensures Abs() == Invalidation(old(Abs()).(ram := Written(old(ram[..]), address, [value])), address, 1)
    {
      StoreByte(address, value);
      Invalidate(address, 1);
    }

    method StoreByte(address: nat, value: Byte)
      requires Shaped(Abs()) && ram != shadow && address < CHIP_LIMIT
      modifies ram
      ensures Abs() == old(Abs()).(ram := Written(old(ram[..]), address, [value]))
    {
      ram[address] := value;
      assert ram[..] == Written(old(ram[..]), address, [value]);
    }

    method CopyPage(p: nat)
      requires Shaped(Abs()) && ram != shadow && p < PAGE_COUNT
      modifies shadow
      ensures shadow[..] == Copied(old(shadow[..]), ram[..], p, 0, PAGE_SIZE)
    {
      var base := p * PAGE_SIZE;
      for i := 0 to PAGE_SIZE
        invariant shadow[..] == Copied(old(shadow[..]), ram[..], p, 0, i)
      {
        CopiedNext(old(shadow[..]), ram[..], p, i);
        shadow[base + i] := ram[base + i];
      }
    }

    method Service()
      requires Valid()
      modifies this`tail, this`pagesReady, shadow, meta
      ensures Valid() && Abs() == Serviced(old(Abs()))
    {
      ServiceKeepsSafe(Abs());
      if head == tail {
        return;
      }
      var p := requests[tail % Ring.CAPACITY];
      var seen := meta[p];
      if seen.st != Queued {
        tail := Ring.Next(tail);
        assert Abs() == Serviced(old(Abs()));
        return;
      }
      meta[p] := seen.(st := Loading);
      CopyPage(p);
      tail := Ring.Next(tail);
      pagesReady := pagesReady + 1;
      meta[p] := seen.(st := Ready);
      assert meta[..] == old(meta[..])[p := seen.(st := Ready)];
      assert Abs() == Serviced(old(Abs()));
    }
  }
}
