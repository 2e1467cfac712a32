/** The promises of the page cache, for every run of every interleaving. */
module PageCacheTheorems {
  import opened Words
  import opened PageCache
  import opened PageCacheSafety
  import Ring

  /** A ready page shows chip RAM, byte for byte, unless a bus write to that page has
      landed and its invalidation has not yet handled the page. */
  lemma CacheCoherence(s0: State, actions: seq<Action>, a: nat)
    requires Initial(s0) && a < CHIP_LIMIT
    ensures var s := Run(s0, actions);
            s.meta[PageOf(a)].st == Ready && !WritePending(s.writer, PageOf(a)) ==>
              s.shadow[a] == s.ram[a]
  {
    InitialSafe(s0);
    RunKeepsSafe(s0, actions);
    var p := PageOf(a);
    assert p * PAGE_SIZE <= a < p * PAGE_SIZE + PAGE_SIZE;
  }

  /** Every read that found its page ready returned the byte published at the instant of
      that check, whatever happened to the page before the byte was loaded, and that byte
      was chip RAM's unless a write to the page was pending. */
  lemma ReadsLinearize(s0: State, actions: seq<Action>, k: nat)
    requires Initial(s0) && k < |Run(s0, actions).history|
    ensures var r := Run(s0, actions).history[k];
            r.Hit? ==> r.result == r.check.published
                       && (r.check.writePending || r.check.published == r.check.ram)
  {
    InitialSafe(s0);
    RunKeepsSafe(s0, actions);
    assert Linearized(Run(s0, actions).history[k]);
  }

  /** A page has at most one live slot; it has one exactly while it is queued or loading,
      outside the two in-flight windows; the queue never overfills; the worker never meets
      a request whose page is not queued. */
  lemma RequestQueueOwnership(s0: State, actions: seq<Action>)
    requires Initial(s0)
    ensures var s := Run(s0, actions);
            && Ring.Pending(s.head, s.tail) <= PAGE_COUNT
            && NoDuplicates(Queue(s))
            && (forall p :: 0 <= p < PAGE_COUNT ==>
                  (p in Queue(s) <==>
                     && (s.meta[p].st == Queued || s.meta[p].st == Loading)
                     && !Publishing(s.renderer, p) && !Settling(s.worker, p)))
            && !s.worker.Skip?
  {
    InitialSafe(s0);
    RunKeepsSafe(s0, actions);
  }

  /** A renderer step appends to the live queue or leaves it alone: no live slot is ever
      overwritten, also when the 32-bit counters wrap. A worker step only takes the oldest. */
  lemma QueueIsFirstInFirstOut(s0: State, actions: seq<Action>)
    requires Initial(s0)
    ensures var s := Run(s0, actions);
            && Queue(Step(s, RendererStep)) ==
                 (if s.renderer.AdvanceHead? then Queue(s) + [s.renderer.page] else Queue(s))
            && (s.worker.ReleaseSlot? ==> |Queue(s)| > 0 && Queue(s)[0] == s.worker.page)
            && Queue(Step(s, WorkerStep)) ==
                 (if s.worker.ReleaseSlot? then Queue(s)[1..] else Queue(s))
  {
    InitialSafe(s0);
    RunKeepsSafe(s0, actions);
    QueueMovesInOrder(Run(s0, actions));
  }

  lemma QueueMovesInOrder(s: State)
    requires Owned(s)
    ensures Queue(Step(s, RendererStep)) ==
            if s.renderer.AdvanceHead? then Queue(s) + [s.renderer.page] else Queue(s)
    ensures s.worker.ReleaseSlot? ==> |Queue(s)| > 0 && Queue(s)[0] == s.worker.page
    ensures Queue(Step(s, WorkerStep)) == if s.worker.ReleaseSlot? then Queue(s)[1..] else Queue(s)
  {
    assert Step(s, RendererStep) == RendererNext(s) && Step(s, WorkerStep) == WorkerNext(s);
    RendererKeepsQueue(s);
    WorkerKeepsQueue(s);
  }

  /** pages_ready counts the ready pages, the worker's reservation and the invalidation
      that has not yet decremented; so a decrement never underflows, and at rest it is exact. */
  lemma ReadyCountExact(s0: State, actions: seq<Action>)
    requires Initial(s0)
    ensures var s := Run(s0, actions);
            && s.pagesReady == |ReadyPages(s.meta)| + InFlight(s.worker, s.writer)
            && 0 <= s.pagesReady
            && (s.worker.Unreserve? || s.writer.Decrement? ==> s.pagesReady >= 1)
            && (s.worker == Resting && s.writer == Quiet ==> s.pagesReady == |ReadyPages(s.meta)|)
  {
    InitialSafe(s0);
    RunKeepsSafe(s0, actions);
  }

  // ---------------------------------------------------------------- stale loads

  /** The worker's load of page p cannot be published: p was invalidated after the claim,
      or the publication has already failed. */
  ghost predicate Doomed(s: State, p: nat)
    requires InRange(s)
  {
    && !s.worker.Resting? && !s.worker.TakeSlot? && s.worker.page == p
    && (InLoad(s.worker) ==> s.worker.gen != s.meta[p].gen)
    && (InLoad(s.worker) || s.worker.Unreserve? || s.worker.Discard?)
  }

  ghost predicate Discarded(s: State, p: nat)
    requires InRange(s) && p < PAGE_COUNT
  {
    s.worker == Resting && s.meta[p].st == Missing
  }

  lemma DoomedStep(s: State, a: Action, p: nat)
    requires Safe(s) && Doomed(s, p)
    ensures p < PAGE_COUNT && s.meta[p].st == Loading
    ensures Doomed(Step(s, a), p) || Discarded(Step(s, a), p)
  {
    if a.WorkerStep? {
      DoomedByWorker(s, p);
    } else if a.RendererStep? {
      RendererQueuesMissing(s, p);
      assert Step(s, a).worker == s.worker;
    } else if a.WriterStep? {
      WriterAdvancesGenerations(s, p);
      assert Step(s, a).worker == s.worker;
    } else {
      assert Step(s, a).meta == s.meta && Step(s, a).worker == s.worker;
    }
  }

  lemma DoomedByWorker(s: State, p: nat)
    requires InRange(s) && WorkerOwns(s) && Doomed(s, p)
    ensures p < PAGE_COUNT && (Doomed(WorkerNext(s), p) || Discarded(WorkerNext(s), p))
  {
  }

  lemma WriterAdvancesGenerations(s: State, p: nat)
    requires InRange(s) && p < PAGE_COUNT
    ensures WriterNext(s).meta[p].gen >= s.meta[p].gen
    ensures s.meta[p].st != Ready ==> WriterNext(s).meta[p].st == s.meta[p].st
  {
  }

  /** The k-th step of the run throws the load away; before it the load was doomed. */
  ghost predicate DiscardedAt(s: State, actions: seq<Action>, k: nat, p: nat)
    requires InRange(s) && p < PAGE_COUNT
  {
    && 0 < k <= |actions| && Discarded(Run(s, actions[..k]), p)
    && forall j :: 0 <= j < k ==> Doomed(Run(s, actions[..j]), p)
  }

  lemma PrefixRuns(s: State, actions: seq<Action>, j: nat)
    requires InRange(s) && 0 < j <= |actions|
    ensures Run(s, actions[..j]) == Run(Step(s, actions[0]), actions[1..][..j - 1])
  {
    assert actions[..j][0] == actions[0] && actions[..j][1..] == actions[1..][..j - 1];
  }

  lemma DiscardedLater(s: State, actions: seq<Action>, k: nat, p: nat)
    requires InRange(s) && p < PAGE_COUNT && actions != [] && Doomed(s, p)
    requires DiscardedAt(Step(s, actions[0]), actions[1..], k, p)
    ensures DiscardedAt(s, actions, k + 1, p)
  {
    PrefixRuns(s, actions, k + 1);
    forall j | 0 <= j < k + 1
      ensures Doomed(Run(s, actions[..j]), p)
    {
      if j > 0 {
        PrefixRuns(s, actions, j);
      }
    }
  }

  lemma DiscardedNow(s: State, actions: seq<Action>, p: nat)
    requires InRange(s) && p < PAGE_COUNT && actions != [] && Doomed(s, p)
    requires Discarded(Step(s, actions[0]), p)
    ensures DiscardedAt(s, actions, 1, p)
  {
    PrefixRuns(s, actions, 1);
  }

  /** A load whose page was invalidated midway is never published: along every run the
      page stays loading until this load ends, and it ends with the page missing. */
  lemma {:induction false} StaleLoadNeverPublished(s: State, actions: seq<Action>, p: nat)
    requires Safe(s) && Doomed(s, p)
    ensures p < PAGE_COUNT
    ensures Doomed(Run(s, actions), p) || exists k :: DiscardedAt(s, actions, k, p)
    decreases |actions|
  {
    assert s.worker.page < PAGE_COUNT;
    if actions != [] {
      var s1, rest := Step(s, actions[0]), actions[1..];
      DoomedStep(s, actions[0], p);
      StepKeepsSafe(s, actions[0]);
      if Discarded(s1, p) {
        DiscardedNow(s, actions, p);
      } else {
        StaleLoadNeverPublished(s1, rest, p);
        if k :| DiscardedAt(s1, rest, k, p) {
          DiscardedLater(s, actions, k, p);
        }
      }
    }
  }
}
