/** What every interleaving of the page cache keeps. */
module PageCacheSafety {
  import opened Words
  import opened PageCache
  import Ring

  // ---------------------------------------------------------------- the request queue

  ghost function Queue(s: State): seq<nat>
    requires Shaped(s)
  {
    Ring.Live(s.requests, s.head, s.tail)
  }

  ghost predicate NoDuplicates(q: seq<nat>) {
    forall i, j :: 0 <= i < j < |q| ==> q[i] != q[j]
  }

  /** In-flight window one: the renderer has marked p queued but not yet published its slot. */
  predicate Publishing(r: Renderer, p: nat) {
    (r.StoreSlot? || r.AdvanceHead?) && r.page == p
  }

  /** The worker is between claiming p and releasing its slot. */
  predicate Filling(w: Worker, p: nat) {
    (w.ReadBus? || w.StoreShadow? || w.ReleaseSlot?) && w.page == p
  }

  /** In-flight window two: the worker has given p's slot back but not yet settled its state. */
  predicate Settling(w: Worker, p: nat) {
    (w.Reserve? || w.Publish? || w.Unreserve? || w.Discard?) && w.page == p
  }

  predicate HasSlot(st: PageState, r: Renderer, w: Worker, p: nat) {
    (st == Queued || st == Loading) && !Publishing(r, p) && !Settling(w, p)
  }

  ghost predicate QueueOwned(s: State)
    requires Shaped(s)
  {
    && Ring.Pending(s.head, s.tail) <= PAGE_COUNT
    && NoDuplicates(Queue(s))
    && (forall p :: 0 <= p < PAGE_COUNT ==>
          (p in Queue(s) <==> HasSlot(s.meta[p].st, s.renderer, s.worker, p)))
  }

  ghost predicate RendererOwns(s: State)
    requires InRange(s)
  {
    && (s.renderer.StoreSlot? || s.renderer.AdvanceHead? ==> s.meta[s.renderer.page].st == Queued)
    && (s.renderer.AdvanceHead? ==> s.requests[s.head % Ring.CAPACITY] == s.renderer.page)
  }

  ghost predicate AtFront(s: State, p: nat)
    requires Shaped(s)
  {
    |Queue(s)| > 0 && Queue(s)[0] == p
  }

  ghost predicate WorkerOwns(s: State)
    requires InRange(s)
  {
    && (s.worker.TakeSlot? ==> |Queue(s)| > 0)
    && (s.worker.LoadWord? || s.worker.Claim? ==>
          AtFront(s, s.worker.page) && s.meta[s.worker.page].st == Queued)
    && (s.worker.Claim? ==> s.worker.seen.st == Queued)
    && !s.worker.Skip?
    && (s.worker.ReadBus? || s.worker.StoreShadow? || s.worker.ReleaseSlot? ==>
          AtFront(s, s.worker.page) && s.meta[s.worker.page].st == Loading)
    && (s.worker.Reserve? || s.worker.Publish? || s.worker.Unreserve? || s.worker.Discard? ==>
          s.meta[s.worker.page].st == Loading)
    && (s.worker.Unreserve? || s.worker.Discard? ==> s.worker.seen.st == Loading)
  }

  /** Only the worker's own page is ever loading. */
  ghost predicate LoadingOwned(s: State)
    requires InRange(s)
  {
    forall p :: 0 <= p < PAGE_COUNT && s.meta[p].st == Loading ==>
      Filling(s.worker, p) || Settling(s.worker, p)
  }

  ghost predicate Owned(s: State) {
    InRange(s) && QueueOwned(s) && RendererOwns(s) && WorkerOwns(s) && LoadingOwned(s)
  }

  lemma {:induction false} DistinctFit(q: seq<nat>, n: nat)
    requires NoDuplicates(q)
    requires forall i :: 0 <= i < |q| ==> q[i] < n
    ensures |q| <= n
    decreases n
  {
    if |q| > 0 {
      assert q[0] < n;
      if i :| 0 <= i < |q| && q[i] == n - 1 {
        DistinctFit(q[..i] + q[i + 1..], n - 1);
      } else {
        DistinctFit(q, n - 1);
      }
    }
  }

  /** A page outside the queue always finds a spare slot. */
  lemma RoomForOneMore(q: seq<nat>, p: nat)
    requires NoDuplicates(q) && p < PAGE_COUNT && p !in q
    requires forall i :: 0 <= i < |q| ==> q[i] < PAGE_COUNT
    ensures |q| < PAGE_COUNT
  {
    DistinctFit(q + [p], PAGE_COUNT);
  }

  ghost predicate SameSlots(s: State, s': State)
    requires Shaped(s) && Shaped(s')
  {
    && s'.requests == s.requests && s'.head == s.head && s'.tail == s.tail
    && forall p :: 0 <= p < PAGE_COUNT ==>
         HasSlot(s'.meta[p].st, s'.renderer, s'.worker, p) == HasSlot(s.meta[p].st, s.renderer, s.worker, p)
  }

  lemma QueueFramed(s: State, s': State)
    requires Shaped(s) && QueueOwned(s) && Shaped(s') && SameSlots(s, s')
    ensures QueueOwned(s') && Queue(s') == Queue(s)
  {
  }

  /** Storing a slot and publishing it puts a held page at the end of the queue. */
  lemma SlotPublished(s: State)
    requires Owned(s)
    requires s.renderer.StoreSlot? || s.renderer.AdvanceHead?
    ensures QueueOwned(RendererNext(s))
    ensures Queue(RendererNext(s)) ==
            if s.renderer.StoreSlot? then Queue(s) else Queue(s) + [s.renderer.page]
  {
    var s', p := RendererNext(s), s.renderer.page;
    assert p !in Queue(s);
    RoomForOneMore(Queue(s), p);
    if s.renderer.StoreSlot? {
      Ring.StoreKeepsLive(s.requests, s.head, s.tail, p);
    } else {
      Ring.PublishAppends(s.requests, s.head, s.tail);
    }
  }

  /** Releasing a slot takes exactly the worker's own page off the queue. */
  lemma SlotReleased(s: State)
    requires Owned(s) && s.worker.ReleaseSlot?
    ensures QueueOwned(WorkerNext(s))
    ensures Queue(WorkerNext(s)) == Queue(s)[1..]
  {
    var s', p := WorkerNext(s), s.worker.page;
    Ring.PopRemovesFirst(s.requests, s.head, s.tail);
    assert Queue(s) == [p] + Queue(s');
  }

  lemma RendererKeepsQueue(s: State)
    requires Owned(s)
    ensures QueueOwned(RendererNext(s))
    ensures Queue(RendererNext(s)) ==
            if s.renderer.AdvanceHead? then Queue(s) + [s.renderer.page] else Queue(s)
  {
    if s.renderer.StoreSlot? || s.renderer.AdvanceHead? {
      SlotPublished(s);
    } else {
      QueueFramed(s, RendererNext(s));
    }
  }

  lemma RendererKeepsRendererOwns(s: State)
    requires InRange(s) && RendererOwns(s)
    ensures RendererOwns(RendererNext(s))
  {
  }

  /** The renderer only turns missing pages into queued ones. */
  lemma RendererQueuesMissing(s: State, p: nat)
    requires InRange(s) && p < PAGE_COUNT
    ensures RendererNext(s).meta[p] == s.meta[p] || s.meta[p].st == Missing
    ensures RendererNext(s).meta[p].st == Loading ==> s.meta[p].st == Loading
  {
  }

  lemma RendererKeepsWorkerOwns(s: State)
    requires Owned(s)
    ensures WorkerOwns(RendererNext(s)) && LoadingOwned(RendererNext(s))
  {
    RendererKeepsQueue(s);
    var s' := RendererNext(s);
    forall p | 0 <= p < PAGE_COUNT
      ensures s'.meta[p] == s.meta[p] || s.meta[p].st == Missing
      ensures s'.meta[p].st == Loading ==> s.meta[p].st == Loading
    {
      RendererQueuesMissing(s, p);
    }
    assert s'.worker == s.worker;
  }

  lemma RendererKeepsOwned(s: State)
    requires Owned(s)
    ensures Owned(RendererNext(s))
  {
    RendererKeepsQueue(s);
    RendererKeepsRendererOwns(s);
    RendererKeepsWorkerOwns(s);
  }

  lemma WorkerKeepsQueue(s: State)
    requires Owned(s)
    ensures QueueOwned(WorkerNext(s))
    ensures Queue(WorkerNext(s)) == if s.worker.ReleaseSlot? then Queue(s)[1..] else Queue(s)
  {
    if s.worker.ReleaseSlot? {
      SlotReleased(s);
    } else {
      WorkerKeepsSlots(s);
      QueueFramed(s, WorkerNext(s));
    }
  }

  lemma WorkerKeepsSlots(s: State)
    requires InRange(s) && WorkerOwns(s) && !s.worker.ReleaseSlot?
    ensures SameSlots(s, WorkerNext(s))
  {
    if s.worker.Claim? {
      ClaimKeepsSlots(s);
    } else if s.worker.Publish? || s.worker.Unreserve? || s.worker.Discard? {
      SettlingKeepsSlots(s);
    } else {
      LoadingKeepsSlots(s);
    }
  }

  lemma ClaimKeepsSlots(s: State)
    requires InRange(s) && WorkerOwns(s) && s.worker.Claim?
    ensures SameSlots(s, WorkerNext(s))
  {
  }

  lemma SettlingKeepsSlots(s: State)
    requires InRange(s) && WorkerOwns(s) && (s.worker.Publish? || s.worker.Unreserve? || s.worker.Discard?)
    ensures SameSlots(s, WorkerNext(s))
  {
  }

  lemma LoadingKeepsSlots(s: State)
    requires InRange(s) && WorkerOwns(s) && !s.worker.Claim? && !s.worker.ReleaseSlot?
    requires !s.worker.Publish? && !s.worker.Unreserve? && !s.worker.Discard?
    ensures SameSlots(s, WorkerNext(s))
  {
    assert WorkerNext(s).meta == s.meta;
  }

  /** The request the worker takes is the oldest one, and it is still queued. */
  lemma TakenSlotIsQueued(s: State)
    requires Owned(s) && s.worker.TakeSlot?
    ensures var p := s.requests[s.tail % Ring.CAPACITY];
            p < PAGE_COUNT && AtFront(s, p) && s.meta[p].st == Queued
  {
    var p := s.requests[s.tail % Ring.CAPACITY];
    assert Queue(s)[0] == p && p in Queue(s);
  }

  lemma WorkerKeepsWorkerOwns(s: State)
    requires Owned(s)
    ensures WorkerOwns(WorkerNext(s))
  {
    if s.worker.Resting? || s.worker.TakeSlot? || s.worker.LoadWord? || s.worker.Claim? || s.worker.Skip? {
      ClaimingOwns(s);
    } else {
      LoadingOwns(s);
    }
  }

  lemma ClaimingOwns(s: State)
    requires Owned(s)
    requires s.worker.Resting? || s.worker.TakeSlot? || s.worker.LoadWord? || s.worker.Claim? || s.worker.Skip?
    ensures WorkerOwns(WorkerNext(s))
  {
    WorkerKeepsQueue(s);
    if s.worker.TakeSlot? {
      TakenSlotIsQueued(s);
    }
  }

  lemma LoadingOwns(s: State)
    requires Owned(s)
    requires !s.worker.Resting? && !s.worker.TakeSlot? && !s.worker.LoadWord? && !s.worker.Claim?
    ensures WorkerOwns(WorkerNext(s))
  {
    WorkerKeepsQueue(s);
  }

  lemma WorkerKeepsOwned(s: State)
    requires Owned(s)
    ensures Owned(WorkerNext(s))
  {
    WorkerKeepsWorkerOwns(s);
    WorkerKeepsQueue(s);
    WorkerKeepsRendererOwns(s);
    WorkerKeepsLoading(s);
  }

  /** The page the renderer is publishing has no slot yet, so the worker is not at it. */
  lemma WorkerKeepsRendererOwns(s: State)
    requires Owned(s)
    ensures RendererOwns(WorkerNext(s))
  {
    if s.worker.Claim? {
      assert HasSlot(s.meta[s.worker.page].st, s.renderer, s.worker, s.worker.page);
    }
  }

  lemma WorkerKeepsLoading(s: State)
    requires InRange(s) && WorkerOwns(s) && LoadingOwned(s)
    ensures LoadingOwned(WorkerNext(s))
  {
  }

  lemma WriterKeepsOwned(s: State)
    requires Owned(s)
    ensures Owned(WriterNext(s))
  {
    QueueFramed(s, WriterNext(s));
  }

  // ---------------------------------------------------------------- coherence

  ghost predicate Matches(shadow: seq<Byte>, ram: seq<Byte>, p: nat, upto: nat)
    requires |shadow| == |ram| == CHIP_LIMIT && p < PAGE_COUNT && upto <= PAGE_SIZE
  {
    forall a :: p * PAGE_SIZE <= a < p * PAGE_SIZE + upto ==> shadow[a] == ram[a]
  }

  /** The first upto bytes of page p mirror chip RAM, unless a landed write to p still
      has its invalidation to come. */
  ghost predicate Mirrors(b: Writer, shadow: seq<Byte>, ram: seq<Byte>, p: nat, upto: nat)
    requires |shadow| == |ram| == CHIP_LIMIT && p < PAGE_COUNT && upto <= PAGE_SIZE
  {
    WritePending(b, p) || Matches(shadow, ram, p, upto)
  }

  ghost predicate Coherent(s: State)
    requires InRange(s)
  {
    forall p :: 0 <= p < PAGE_COUNT && s.meta[p].st == Ready ==>
      Mirrors(s.writer, s.shadow, s.ram, p, PAGE_SIZE)
  }

  /** How many bytes of its page the worker has stored so far. */
  function Loaded(w: Worker): (n: nat)
    requires WorkerInRange(w)
    ensures n <= PAGE_SIZE
  {
    if w.ReadBus? || w.StoreShadow? then w.i else PAGE_SIZE
  }

  /** The worker has claimed a page and has not yet tried to publish it. */
  predicate InLoad(w: Worker) {
    w.ReadBus? || w.StoreShadow? || w.ReleaseSlot? || w.Reserve? || w.Publish?
  }

  /** A half-loaded page whose generation is unchanged mirrors chip RAM so far. */
  ghost predicate LoadFaithful(s: State)
    requires InRange(s)
  {
    InLoad(s.worker) ==>
      var p := s.worker.page;
      && s.worker.gen <= s.meta[p].gen
      && (s.meta[p].gen == s.worker.gen ==>
            && Mirrors(s.writer, s.shadow, s.ram, p, Loaded(s.worker))
            && (s.worker.StoreShadow? ==>
                  WritePending(s.writer, p) || s.worker.value == s.ram[p * PAGE_SIZE + s.worker.i]))
  }

  // ---------------------------------------------------------------- reads

  predicate Faithful(c: Check) {
    c.writePending || c.published == c.ram
  }

  /** A byte the renderer has found ready and not yet loaded cannot change under it. */
  ghost predicate Held(s: State, a: nat, c: Check)
    requires InRange(s) && a < CHIP_LIMIT
  {
    && s.shadow[a] == c.published
    && (s.meta[PageOf(a)].st == Ready || s.meta[PageOf(a)].st == Missing)
    && Faithful(c)
  }

  predicate Warming(r: Renderer) {
    (r.LoadMeta? || r.TryQueue? || r.StoreSlot? || r.AdvanceHead?) && r.caller.FromHit?
  }

  ghost predicate ReadHeld(s: State)
    requires InRange(s)
  {
    && (s.renderer.LoadShadow? ==> Held(s, s.renderer.address, s.renderer.check))
    && (Warming(s.renderer) ==>
          && s.renderer.page == PageOf(s.renderer.caller.address) + 1
          && Held(s, s.renderer.caller.address, s.renderer.caller.check))
  }

  predicate Linearized(r: ReadRecord) {
    r.Hit? ==> r.result == r.check.published && Faithful(r.check)
  }

  ghost predicate HistoryLinearized(s: State) {
    forall k :: 0 <= k < |s.history| ==> Linearized(s.history[k])
  }

  // ---------------------------------------------------------------- the ready count

  function ReadyPages(meta: seq<Meta>): set<nat> {
    set p: nat | p < |meta| && meta[p].st == Ready
  }

  function InFlight(w: Worker, b: Writer): nat {
    (if w.Publish? || w.Unreserve? then 1 else 0) + (if b.Decrement? then 1 else 0)
  }

  ghost predicate Counted(s: State) {
    s.pagesReady == |ReadyPages(s.meta)| + InFlight(s.worker, s.writer)
  }

  ghost predicate Safe(s: State) {
    && Owned(s) && Coherent(s) && LoadFaithful(s)
    && ReadHeld(s) && HistoryLinearized(s) && Counted(s)
  }

  // ---------------------------------------------------------------- one step keeps it

  lemma ReadyPagesUpdated(meta: seq<Meta>, p: nat, m: Meta)
    requires p < |meta|
    ensures |ReadyPages(meta[p := m])| ==
            |ReadyPages(meta)| - (if meta[p].st == Ready then 1 else 0) + (if m.st == Ready then 1 else 0)
  {
    var rest := ReadyPages(meta) - {p};
    assert ReadyPages(meta) == if meta[p].st == Ready then rest + {p} else rest;
    assert ReadyPages(meta[p := m]) == if m.st == Ready then rest + {p} else rest;
  }

  lemma RendererKeepsCount(s: State)
    requires InRange(s) && Counted(s)
    ensures Counted(RendererNext(s))
  {
    if s.renderer.TryQueue? {
      ReadyPagesUpdated(s.meta, s.renderer.page, s.renderer.seen.(st := Queued));
    }
  }

  /** Coherence only depends on which pages are ready. */
  lemma CoherentFramed(s: State, s': State)
    requires InRange(s) && InRange(s') && Coherent(s)
    requires s'.writer == s.writer && s'.shadow == s.shadow && s'.ram == s.ram
    requires forall p :: 0 <= p < PAGE_COUNT && s'.meta[p].st == Ready ==> s.meta[p].st == Ready
    ensures Coherent(s')
  {
  }

  lemma RendererKeepsCoherence(s: State)
    requires InRange(s) && Coherent(s)
    ensures Coherent(RendererNext(s))
  {
    CoherentFramed(s, RendererNext(s));
  }

  lemma RendererKeepsLoad(s: State)
    requires InRange(s) && LoadFaithful(s)
    ensures LoadFaithful(RendererNext(s))
  {
  }

  lemma RendererKeepsHeld(s: State)
    requires InRange(s) && Coherent(s) && ReadHeld(s)
    ensures ReadHeld(RendererNext(s))
  {
    if s.renderer.CheckPage? {
      var a := s.renderer.address;
      assert PageOf(a) * PAGE_SIZE <= a < PageOf(a) * PAGE_SIZE + PAGE_SIZE;
    }
  }

  /** At most one record is added, and by a load only of what was held. */
  lemma RendererLogs(s: State)
    requires InRange(s) && ReadHeld(s)
    ensures var h, h' := s.history, RendererNext(s).history;
            h' == h || (h' == h + [h'[|h|]] && Linearized(h'[|h|]))
  {
  }

  lemma RendererKeepsReads(s: State)
    requires InRange(s) && Coherent(s) && ReadHeld(s) && HistoryLinearized(s)
    ensures ReadHeld(RendererNext(s)) && HistoryLinearized(RendererNext(s))
  {
    RendererKeepsHeld(s);
    RendererLogs(s);
  }

  lemma WorkerKeepsCount(s: State)
    requires InRange(s) && WorkerOwns(s) && Counted(s)
    ensures Counted(WorkerNext(s))
  {
    if s.worker.Claim? || s.worker.Publish? || s.worker.Discard? {
      ReadyPagesUpdated(s.meta, s.worker.page, WorkerNext(s).meta[s.worker.page]);
    }
  }

  lemma WorkerKeepsCoherence(s: State)
    requires InRange(s) && WorkerOwns(s) && Coherent(s) && LoadFaithful(s)
    ensures Coherent(WorkerNext(s))
  {
  }

  lemma ByteStored(s: State)
    requires InRange(s) && LoadFaithful(s) && s.worker.StoreShadow?
    ensures LoadFaithful(WorkerNext(s))
  {
  }

  lemma WorkerKeepsLoad(s: State)
    requires InRange(s) && LoadFaithful(s)
    ensures LoadFaithful(WorkerNext(s))
  {
    if s.worker.StoreShadow? {
      ByteStored(s);
    }
  }

  lemma WorkerKeepsReads(s: State)
    requires InRange(s) && WorkerOwns(s) && ReadHeld(s)
    ensures ReadHeld(WorkerNext(s))
  {
  }

  lemma WriterKeepsCount(s: State)
    requires InRange(s) && Counted(s)
    ensures Counted(WriterNext(s))
  {
    if s.writer.Invalidate? {
      ReadyPagesUpdated(s.meta, s.writer.page, WriterNext(s).meta[s.writer.page]);
    }
  }

  /** The writer makes no page ready, and a page it is done with is not ready. */
  lemma WriterUnreadies(s: State, p: nat)
    requires InRange(s) && p < PAGE_COUNT
    ensures WriterNext(s).meta[p].st == Ready ==>
              s.meta[p].st == Ready && (WritePending(s.writer, p) ==> WritePending(WriterNext(s).writer, p))
    ensures WriterNext(s).shadow == s.shadow && WriterNext(s).ram == s.ram
  {
  }

  lemma WriterKeepsCoherence(s: State)
    requires InRange(s) && Coherent(s)
    ensures Coherent(WriterNext(s))
  {
    var s' := WriterNext(s);
    forall p | 0 <= p < PAGE_COUNT && s'.meta[p].st == Ready
      ensures Mirrors(s'.writer, s'.shadow, s'.ram, p, PAGE_SIZE)
    {
      WriterUnreadies(s, p);
      assert Mirrors(s.writer, s.shadow, s.ram, p, PAGE_SIZE);
    }
  }

  /** Invalidating the page being loaded moves its generation past the worker's. */
  lemma WriterKeepsLoad(s: State)
    requires InRange(s) && WorkerOwns(s) && LoadFaithful(s)
    ensures LoadFaithful(WriterNext(s))
  {
  }

  lemma WriterKeepsReads(s: State)
    requires InRange(s) && ReadHeld(s)
    ensures ReadHeld(WriterNext(s))
  {
  }

  // ---------------------------------------------------------------- whole runs

  function Run(s: State, actions: seq<Action>): (s': State)
    requires InRange(s)
    ensures InRange(s')
    decreases |actions|
  {
    if actions == [] then s else Run(Step(s, actions[0]), actions[1..])
  }

  /** A new bus write lands on an idle writer: every page it touches becomes pending. */
  lemma BusWriteKeepsSafe(s: State, address: nat, bytes: seq<Byte>)
    requires Safe(s)
    ensures Safe(Step(s, BusWrite(address, bytes)))
  {
    var s' := Step(s, BusWrite(address, bytes));
    if s.writer == Quiet && address < CHIP_LIMIT && |bytes| > 0 {
      QueueFramed(s, s');
      forall p | 0 <= p < PAGE_COUNT && !WritePending(s'.writer, p)
        ensures Matches(s.ram, s'.ram, p, PAGE_SIZE)
      {
      }
      assert Coherent(s');
      assert LoadFaithful(s');
    }
  }

  lemma StepKeepsSafe(s: State, a: Action)
    requires Safe(s)
    ensures Safe(Step(s, a))
  {
    match a
    case RendererStep =>
      RendererKeepsOwned(s);
      RendererKeepsCount(s);
      RendererKeepsCoherence(s);
      RendererKeepsLoad(s);
      RendererKeepsReads(s);
    case WorkerStep =>
      WorkerKeepsOwned(s);
      WorkerKeepsCount(s);
      WorkerKeepsCoherence(s);
      WorkerKeepsLoad(s);
      WorkerKeepsReads(s);
    case WriterStep =>
      WriterKeepsOwned(s);
      WriterKeepsCount(s);
      WriterKeepsCoherence(s);
      WriterKeepsLoad(s);
      WriterKeepsReads(s);
    case BusWrite(address, bytes) =>
      BusWriteKeepsSafe(s, address, bytes);
    case _ =>
      StartKeepsSafe(s, a);
  }

  lemma StartKeepsOwned(s: State, a: Action)
    requires Owned(s)
    requires a.BeginFrame? || a.StartRead? || a.StartPrefetch?
    ensures Owned(Step(s, a))
  {
    QueueFramed(s, Step(s, a));
  }

  /** Starting a call only moves the renderer to the call's first step. */
  lemma StartKeepsSafe(s: State, a: Action)
    requires Safe(s)
    requires a.BeginFrame? || a.StartRead? || a.StartPrefetch?
    ensures Safe(Step(s, a))
  {
    var s' := Step(s, a);
    assert s'.meta == s.meta && s'.worker == s.worker && s'.writer == s.writer;
    StartKeepsOwned(s, a);
    CoherentFramed(s, s');
    assert Counted(s') && LoadFaithful(s');
  }

  lemma {:induction false} RunKeepsSafe(s: State, actions: seq<Action>)
    requires Safe(s)
    ensures Safe(Run(s, actions))
    decreases |actions|
  {
    if actions != [] {
      StepKeepsSafe(s, actions[0]);
      RunKeepsSafe(Step(s, actions[0]), actions[1..]);
    }
  }

  lemma InitialSafe(s: State)
    requires Initial(s)
    ensures Safe(s)
  {
    assert Queue(s) == [];
    assert ReadyPages(s.meta) == {};
  }
}
