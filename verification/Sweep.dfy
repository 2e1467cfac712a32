/** A lookahead sweep while the worker runs: which of the pages it covers are asked for when it
    ends, and stay asked for until they are read. */
module Sweep {
  import opened Words
  import opened PaulaCore
  import opened PageCache
  import opened PageCacheSafety
  import opened PageCacheTheorems
  import opened PageCacheDrain
  import PaulaInvariant
  import PaulaStream
  import Lookahead
  import Mirror

  /** The range reaches into page p. */
  predicate CoversPage(r: Lookahead.Range, p: nat) {
    r.address < CHIP_LIMIT && r.length > 0 && PageOf(r.address) <= p <= LastPage(r.address, r.length)
  }

  ghost predicate PlanCovers(plan: seq<Lookahead.Range>, p: nat) {
    exists i :: 0 <= i < |plan| && CoversPage(plan[i], p)
  }

  /** The actions are the prefetch calls of a plan, in order, each finished before the next,
      with worker steps anywhere between and inside them. */
  ghost predicate Sweeps(s: State, actions: seq<Action>, plan: seq<Lookahead.Range>)
    requires InRange(s)
    decreases |actions|
  {
    if actions == [] then plan == [] && s.renderer == Idle
    else
      match actions[0]
      case StartPrefetch(address, length) =>
        && s.renderer == Idle && plan != [] && plan[0] == Lookahead.Range(address, length)
        && Sweeps(Step(s, actions[0]), actions[1..], plan[1..])
      case RendererStep => Sweeps(Step(s, actions[0]), actions[1..], plan)
      case WorkerStep => Sweeps(Step(s, actions[0]), actions[1..], plan)
      case _ => false
  }

  /** The prefetch call under way has still to visit page p, or is about to queue it. */
  predicate Pending(r: Renderer, p: nat) {
    && (r.LoadMeta? || r.TryQueue? || r.StoreSlot? || r.AdvanceHead?) && r.caller.FromPrefetch?
    && (((r.LoadMeta? || r.TryQueue?) && r.page == p) || r.caller.next <= p <= r.caller.last)
  }

  // ---------------------------------------------------------------- no page becomes doomed

  lemma WorkerDoomsNothing(s: State, p: nat)
    requires InRange(s) && WorkerOwns(s) && p < PAGE_COUNT && !Doomed(s, p)
    ensures !Doomed(WorkerNext(s), p)
  {
  }

  lemma RendererDoomsNothing(s: State, p: nat)
    requires InRange(s) && WorkerOwns(s) && p < PAGE_COUNT && !Doomed(s, p)
    ensures !Doomed(RendererNext(s), p)
  {
  }

  // ---------------------------------------------------------------- the page's turn comes

  /** Wherever the renderer stands with page p, its next step keeps the page's turn coming or
      leaves the page asked for. */
  lemma VisitStep(s: State, p: nat)
    requires InRange(s) && p < PAGE_COUNT && Pending(s.renderer, p)
    ensures Pending(RendererNext(s).renderer, p) || RendererNext(s).meta[p].st != Missing
  {
  }

  ghost predicate Owed(s: State, plan: seq<Lookahead.Range>, p: nat)
    requires InRange(s) && p < PAGE_COUNT
  {
    !Doomed(s, p) && (Wanted(s, p) || Pending(s.renderer, p) || PlanCovers(plan, p))
  }

  lemma OwedByRenderer(s: State, plan: seq<Lookahead.Range>, p: nat)
    requires Safe(s) && p < PAGE_COUNT && Owed(s, plan, p)
    ensures Owed(RendererNext(s), plan, p)
  {
    RendererDoomsNothing(s, p);
    if Wanted(s, p) {
      WantedByRenderer(s, p);
    } else if Pending(s.renderer, p) {
      VisitStep(s, p);
    }
  }

  lemma OwedByWorker(s: State, plan: seq<Lookahead.Range>, p: nat)
    requires Safe(s) && p < PAGE_COUNT && Owed(s, plan, p)
    ensures Owed(WorkerNext(s), plan, p)
  {
    WorkerDoomsNothing(s, p);
    if Wanted(s, p) {
      WantedByWorker(s, p);
    } else {
      assert WorkerNext(s).renderer == s.renderer;
    }
  }

  lemma StartedPending(s: State, r: Lookahead.Range, p: nat)
    requires InRange(s) && s.renderer == Idle && CoversPage(r, p)
    ensures Pending(Step(s, StartPrefetch(r.address, r.length)).renderer, p)
  {
  }

  lemma OwedByStart(s: State, plan: seq<Lookahead.Range>, p: nat)
    requires InRange(s) && p < PAGE_COUNT && s.renderer == Idle && plan != [] && Owed(s, plan, p)
    ensures Owed(Step(s, StartPrefetch(plan[0].address, plan[0].length)), plan[1..], p)
  {
    var s' := Step(s, StartPrefetch(plan[0].address, plan[0].length));
    assert s'.meta == s.meta && s'.worker == s.worker;
    if PlanCovers(plan, p) {
      var i :| 0 <= i < |plan| && CoversPage(plan[i], p);
      if i == 0 {
        StartedPending(s, plan[0], p);
      } else {
        assert CoversPage(plan[1..][i - 1], p);
      }
    }
  }

  lemma {:induction false} OwedIsPaid(s: State, actions: seq<Action>, plan: seq<Lookahead.Range>, p: nat)
    requires Safe(s) && p < PAGE_COUNT && Sweeps(s, actions, plan) && Owed(s, plan, p)
    ensures Wanted(Run(s, actions), p)
    decreases |actions|
  {
    if actions != [] {
      StepKeepsSafe(s, actions[0]);
      match actions[0]
      case StartPrefetch(address, length) =>
        OwedByStart(s, plan, p);
        OwedIsPaid(Step(s, actions[0]), actions[1..], plan[1..], p);
      case RendererStep =>
        OwedByRenderer(s, plan, p);
        OwedIsPaid(Step(s, actions[0]), actions[1..], plan, p);
      case WorkerStep =>
        OwedByWorker(s, plan, p);
        OwedIsPaid(Step(s, actions[0]), actions[1..], plan, p);
    }
  }

  /** However the worker interleaves, a page the plan covers is wanted when the sweep ends,
      unless it was held by a stale load when the sweep began. */
  lemma SweepLeavesWanted(s: State, sweep: seq<Action>, plan: seq<Lookahead.Range>, p: nat)
    requires Safe(s) && p < PAGE_COUNT && Sweeps(s, sweep, plan) && PlanCovers(plan, p) && !Doomed(s, p)
    ensures Wanted(Run(s, sweep), p)
  {
    OwedIsPaid(s, sweep, plan, p);
  }

  // ---------------------------------------------------------------- exactly those pages

  lemma {:induction false} SweepsJoin(s: State, first: seq<Action>, rest: seq<Action>, plan: seq<Lookahead.Range>)
    requires InRange(s) && Mirror.RendererOnly(first) && Sweeps(Run(s, first), rest, plan)
    ensures Sweeps(s, first + rest, plan)
    decreases |first|
  {
    if first == [] {
      assert first + rest == rest;
    } else {
      assert (first + rest)[0] == RendererStep && (first + rest)[1..] == first[1..] + rest;
      SweepsJoin(Step(s, first[0]), first[1..], rest, plan);
    }
  }

  /** The renderer alone can make the sweep. */
  lemma {:induction false} SweepRuns(s: State, plan: seq<Lookahead.Range>) returns (actions: seq<Action>)
    requires InRange(s) && s.renderer == Idle
    ensures Sweeps(s, actions, plan) && Run(s, actions) == Lookahead.Planned(s, plan)
    decreases |plan|
  {
    if plan == [] {
      actions := [];
    } else {
      var r := plan[0];
      var calls := Mirror.PrefetchSteps(s, r.address, r.length);
      var s1 := Mirror.Prefetched(s, r.address, r.length);
      var rest := SweepRuns(s1, plan[1..]);
      var start := StartPrefetch(r.address, r.length);
      actions := [start] + (calls + rest);
      SweepsJoin(Step(s, start), calls, rest, plan[1..]);
      RunSplits(Step(s, start), calls, rest);
      assert actions[0] == start && actions[1..] == calls + rest;
    }
  }

  lemma {:induction false} RequestsKeepLoading(s: State, q: nat, end: nat, p: nat)
    requires Shaped(s) && q <= end <= PAGE_COUNT && p < PAGE_COUNT && s.meta[p].st == Loading
    ensures var r := Mirror.RequestedUpTo(s, q, end); r.meta[p] == s.meta[p] && r.worker == s.worker
    decreases end - q
  {
    if q < end {
      RequestsKeepLoading(Mirror.Requested(s, q), q + 1, end, p);
    }
  }

  /** An undisturbed sweep leaves a page that is being loaded as it is. */
  lemma {:induction false} PlannedKeepsLoading(s: State, plan: seq<Lookahead.Range>, p: nat)
    requires Shaped(s) && p < PAGE_COUNT && s.meta[p].st == Loading
    ensures var r := Lookahead.Planned(s, plan); r.meta[p] == s.meta[p] && r.worker == s.worker
    decreases |plan|
  {
    if plan != [] {
      var a, n := plan[0].address, plan[0].length;
      if a < CHIP_LIMIT && n > 0 {
        RequestsKeepLoading(s, PageOf(a), LastPage(a, n) + 1, p);
      }
      PlannedKeepsLoading(Mirror.Prefetched(s, a, n), plan[1..], p);
    }
  }

  lemma DoomedPageEscapes(s: State, plan: seq<Lookahead.Range>, p: nat) returns (sweep: seq<Action>)
    requires Safe(s) && s.renderer == Idle && p < PAGE_COUNT && Doomed(s, p)
    ensures Sweeps(s, sweep, plan) && !Wanted(Run(s, sweep), p)
  {
    sweep := SweepRuns(s, plan);
    assert s.meta[p].st == Loading;
    PlannedKeepsLoading(s, plan, p);
  }

  /** Exactly: a page the plan covers is asked for by every interleaving of the sweep if and
      only if no stale load holds it when the sweep begins. */
  lemma SweepAsksIff(s: State, plan: seq<Lookahead.Range>, p: nat)
    requires Safe(s) && s.renderer == Idle && p < PAGE_COUNT && PlanCovers(plan, p)
    ensures (forall sweep :: Sweeps(s, sweep, plan) ==> Wanted(Run(s, sweep), p)) <==> !Doomed(s, p)
  {
    if Doomed(s, p) {
      var sweep := DoomedPageEscapes(s, plan, p);
      assert Sweeps(s, sweep, plan) && !Wanted(Run(s, sweep), p);
    } else {
      forall sweep | Sweeps(s, sweep, plan)
        ensures Wanted(Run(s, sweep), p)
      {
        SweepLeavesWanted(s, sweep, plan, p);
      }
    }
  }

  lemma {:induction false} SweepIsWriterFree(s: State, sweep: seq<Action>, plan: seq<Lookahead.Range>)
    requires InRange(s) && Sweeps(s, sweep, plan)
    ensures WriterFree(sweep) && NoNewFrame(sweep) && Run(s, sweep).renderer == Idle
    decreases |sweep|
  {
    if sweep != [] {
      SweepIsWriterFree(Step(s, sweep[0]), sweep[1..], if sweep[0].StartPrefetch? then plan[1..] else plan);
    }
  }

  /** And it stays asked for, or ready, for as long as no bus write comes. */
  lemma SweptPageStaysWanted(s: State, sweep: seq<Action>, plan: seq<Lookahead.Range>, after: seq<Action>, p: nat)
    requires Safe(s) && p < PAGE_COUNT && Sweeps(s, sweep, plan) && PlanCovers(plan, p) && !Doomed(s, p)
    requires WriterFree(after)
    ensures Wanted(Run(Run(s, sweep), after), p)
  {
    SweepLeavesWanted(s, sweep, plan, p);
    RunKeepsSafe(s, sweep);
    WantedRun(Run(s, sweep), after, p);
  }

  // ---------------------------------------------------------------- the stream

  lemma CoveredAddressPage(plan: seq<Lookahead.Range>, a: nat)
    requires Lookahead.Covered(a, plan) && a < CHIP_LIMIT
    ensures PlanCovers(plan, PageOf(a))
  {
    var r :| r in plan && Lookahead.InRange(a, r);
    var i :| 0 <= i < |plan| && plan[i] == r;
    assert PageOf(r.address) <= PageOf(a) <= PageOf(r.address + r.length - 1);
    assert CoversPage(plan[i], PageOf(a));
  }

  lemma ChannelPlanInPlan(p: Core, ch: nat, a: nat)
    requires CoreOk(p) && ch < CHANNELS
    requires Lookahead.Covered(a, Lookahead.ChannelPlan(FetchStateOf(p, ch)))
    ensures Lookahead.Covered(a, Lookahead.PlanFrom(p, 0))
  {
    var r :| r in Lookahead.ChannelPlan(FetchStateOf(p, ch)) && Lookahead.InRange(a, r);
    Lookahead.PlanContains(p, 0, ch, r);
  }

  /** What the channel plan of one channel covers stays wanted after a sweep of all four. */
  lemma SweptAddressStaysWanted(p: Core, s: State, sweep: seq<Action>, after: seq<Action>, ch: nat, a: nat)
    requires CoreOk(p) && ch < CHANNELS && Safe(s) && a < CHIP_LIMIT && !Doomed(s, PageOf(a))
    requires Lookahead.Covered(a, Lookahead.ChannelPlan(FetchStateOf(p, ch)))
    requires Sweeps(s, sweep, Lookahead.PlanFrom(p, 0)) && WriterFree(after)
    ensures Wanted(Run(Run(s, sweep), after), PageOf(a))
  {
    ChannelPlanInPlan(p, ch, a);
    CoveredAddressPage(Lookahead.PlanFrom(p, 0), a);
    SweptPageStaysWanted(s, sweep, Lookahead.PlanFrom(p, 0), after, PageOf(a));
  }

  /** The lookahead covers the stream: of the next 512 words an enabled channel with a length
      will fetch, through the end of a one-shot and any number of loop wraps, every chip RAM
      byte lies in a page that is asked for or ready, at the end of the sweep and for as long
      after it as no bus write comes, in every interleaving with the worker. */
  lemma LookaheadCoversStream(p: Core, s: State, sweep: seq<Action>, after: seq<Action>,
                              ch: nat, read: Reader, k: nat, b: nat)
    requires PaulaInvariant.Regular(p) && ch < CHANNELS && Enabled(p.dmaCon, ch)
    requires Lookahead.NoWrap(FetchStateOf(p, ch)) && p.channels[ch].lenLatched > 0
    requires Lookahead.Fetches(p.channels[ch].onLowByte, k) <= Lookahead.WINDOW_WORDS
    requires b < |PaulaStream.Play(Exec(p, [], 0), ch, read, k).fetched|
    requires Safe(s) && Sweeps(s, sweep, Lookahead.PlanFrom(p, 0)) && WriterFree(after)
    ensures var a := PaulaStream.Play(Exec(p, [], 0), ch, read, k).fetched[b];
            a < CHIP_LIMIT && !Doomed(s, PageOf(a)) ==> Wanted(Run(Run(s, sweep), after), PageOf(a))
  {
    var a := PaulaStream.Play(Exec(p, [], 0), ch, read, k).fetched[b];
    Lookahead.FetchedByteCovered(p, ch, read, k, b);
    if a < CHIP_LIMIT && !Doomed(s, PageOf(a)) {
      SweptAddressStaysWanted(p, s, sweep, after, ch, a);
    }
  }
}
