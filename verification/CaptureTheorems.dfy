/** What the event ring guarantees over every run: safety, conservation and resync. */
module CaptureTheorems {
  import opened Words
  import opened PaulaCore
  import opened Registers
  import opened Capture
  import opened CaptureSafety
  import Transaction
  import Arith
  import Ring

  predicate AtRest(s: State) {
    s.producer == Away && s.consumer == Free
  }

  /** The 32-bit drop counter. */
  function Dropped(drops: nat): nat {
    drops % U32
  }

  // ---------------------------------------------------------------- safety and conservation

  /** The ring never holds more than its capacity, a slot about to be written is not live,
      and the two sides never hold the lock together. */
  lemma RingNeverOverflows(s0: State, actions: seq<Action>)
    requires Initial(s0)
    ensures var s := Run(s0, actions);
            && Ring.Pending(s.head, s.tail) <= Ring.CAPACITY
            && (s.producer.Room? ==> s.producer.at == s.head && Ring.Pending(s.head, s.tail) < Ring.CAPACITY)
            && !(ProducerHolds(s.producer) && ConsumerHolds(s.consumer))
  {
    InitialSafe(s0);
    RunKeepsSafe(s0, actions);
  }

  /** A step appends one event, removes the oldest, skips everything, or leaves the queue. */
  lemma QueueMoves(s: State, a: Action)
    requires RingSafe(s)
    ensures Queue(Step(s, a)) ==
            if a.ProducerStep? && s.producer.Stored? then Queue(s) + [s.producer.event]
            else if a.ConsumerStep? && s.consumer.Used? then Queue(s)[1..]
            else if a.ConsumerStep? && s.consumer.Noticed? then []
            else Queue(s)
  {
    if a.ProducerStep? {
      ProducerQueue(s);
    } else if a.ConsumerStep? {
      ConsumerQueue(s);
    } else {
      assert Queue(Step(s, a)) == Queue(s);
    }
  }

  /** offered = captured + dropped, as the wrapping counters show it. */
  predicate CountersAgree(s: State) {
    s.offered % U32 == (s.captures % U32 + Dropped(s.drops)) % U32
  }

  lemma RestingCountersAgree(s: State)
    requires Counted(s) && s.producer == Away
    ensures CountersAgree(s)
  {
    Arith.WrapBoth(s.captures, s.drops);
  }

  /** Nothing captured is lost or reordered: departed events, popped or skipped, followed by
      the pending ones are the captured sequence; every offered write is captured, counted as
      dropped, or still in the producer's hands. */
  lemma Conservation(s0: State, actions: seq<Action>)
    requires Initial(s0)
    ensures Shaped(Run(s0, actions)) && Conserved(Run(s0, actions)) && Counted(Run(s0, actions))
  {
    InitialSafe(s0);
    RunKeepsSafe(s0, actions);
  }

  // ---------------------------------------------------------------- the shadow

  lemma ProducerNotes(s: State)
    requires InRange(s)
    ensures s.producer.Locked? ==>
              var e := s.producer.event;
              && ProducerNext(s).noted == s.noted + [e]
              && ProducerNext(s).latest == Shadowed(s.latest, e.address, WordOf(e.value, e.width))
    ensures !s.producer.Locked? ==> ProducerNext(s).noted == s.noted && ProducerNext(s).latest == s.latest
  {
  }

  lemma ConsumerNotesNothing(s: State)
    requires InRange(s)
    ensures ConsumerNext(s).noted == s.noted && ConsumerNext(s).latest == s.latest
  {
    var s' := ConsumerNext(s);
    match s.consumer
    case Peeked(_) => assert s'.noted == s.noted && s'.latest == s.latest;
    case Rebuilding(_, _) => assert s'.noted == s.noted && s'.latest == s.latest;
    case _ => assert s'.noted == s.noted && s'.latest == s.latest;
  }

  lemma OthersNoteNothing(s: State, a: Action)
    requires InRange(s) && !a.ProducerStep?
    ensures Step(s, a).noted == s.noted && Step(s, a).latest == s.latest
  {
    if a.ConsumerStep? {
      ConsumerNotesNothing(s);
      assert Step(s, a) == ConsumerNext(s);
    }
  }

  lemma TracksExtend(p: Core, noted: seq<Event>, latest: Shadow, e: Event)
    requires CoreOk(p) && Tracks(AppliedAll(p, noted), latest) && BusEvent(e)
    ensures Tracks(AppliedAll(p, noted + [e]), Shadowed(latest, e.address, WordOf(e.value, e.width)))
  {
    AllExtends(p, noted, e);
    ShadowTracksApply(AppliedAll(p, noted), latest, e);
  }

  lemma HistoryByProducer(p: Core, s: State)
    requires InRange(s) && CoreOk(p) && Tracks(AppliedAll(p, s.noted), s.latest)
    ensures Tracks(AppliedAll(p, ProducerNext(s).noted), ProducerNext(s).latest)
  {
    ProducerNotes(s);
    if s.producer.Locked? {
      TracksExtend(p, s.noted, s.latest, s.producer.event);
    }
  }

  lemma HistoryStep(p: Core, s: State, a: Action)
    requires InRange(s) && CoreOk(p) && Tracks(AppliedAll(p, s.noted), s.latest)
    ensures Tracks(AppliedAll(p, Step(s, a).noted), Step(s, a).latest)
  {
    var s' := Step(s, a);
    if a.ProducerStep? {
      StepIsProducer(s);
      HistoryByProducer(p, s);
    } else {
      OthersNoteNothing(s, a);
    }
    assert s' == Step(s, a);
  }

  lemma StepIsProducer(s: State)
    requires InRange(s)
    ensures Step(s, ProducerStep) == ProducerNext(s)
  {
  }

  lemma {:induction false} HistoryRun(p: Core, s: State, actions: seq<Action>)
    requires InRange(s) && CoreOk(p) && Tracks(AppliedAll(p, s.noted), s.latest)
    ensures Tracks(AppliedAll(p, Run(s, actions).noted), Run(s, actions).latest)
    decreases |actions|
  {
    if actions != [] {
      HistoryStep(p, s, actions[0]);
      HistoryRun(p, Step(s, actions[0]), actions[1..]);
    }
  }

  /** The shadow is the effect, on a reset core, of every write that took the lock, in order,
      whether the ring had room for it or not. */
  lemma ShadowIsHistory(s0: State, actions: seq<Action>)
    requires Initial(s0)
    ensures var s := Run(s0, actions);
            Tracks(AppliedAll(s0.live.core, s.noted), s.latest)
  {
    ResetIsBlank(s0.live.core);
    HistoryRun(s0.live.core, s0, actions);
  }

  // ---------------------------------------------------------------- resync

  /** With no full-ring drop since the last resync, applying the queued events to the
      consumer's core latches exactly the shadow: the effect of all lock-acquiring writes. */
  lemma ResyncInvariant(s0: State, actions: seq<Action>)
    requires Initial(s0)
    ensures var s := Run(s0, actions);
            AtRest(s) && !s.lost ==>
              && LatchesOf(AppliedAll(s.live.core, Queue(s))) == View(s.latest)
              && LatchesOf(AppliedAll(s.live.core, Queue(s))) == LatchesOf(AppliedAll(s0.live.core, s.noted))
  {
    InitialSafe(s0);
    RunKeepsSafe(s0, actions);
    ShadowIsHistory(s0, actions);
    var s := Run(s0, actions);
    if AtRest(s) && !s.lost {
      assert Remaining(s) + InFlight(s.producer) == Queue(s);
    }
  }

  /** No step of the run finds the ring full. */
  ghost predicate NoFullDrop(s: State, actions: seq<Action>)
    requires InRange(s)
    decreases |actions|
  {
    actions == []
    || (!(s.producer.Noted? && Step(s, actions[0]).producer.Full?)
        && NoFullDrop(Step(s, actions[0]), actions[1..]))
  }

  /** A resync under way: about to copy, or copied and in step since. */
  ghost predicate Recovering(s: State)
    requires InRange(s)
  {
    s.consumer.Holding? || s.consumer.Bounds? || (Synced(s) && !s.lost)
  }

  lemma StepKeepsSync(s: State, a: Action)
    requires RingSafe(s) && Synced(s)
    ensures Synced(Step(s, a))
  {
    match a
    case ProducerStep => ProducerKeepsSync(s);
    case ConsumerStep => ConsumerKeepsSync(s);
    case Sound(after) => SoundKeepsSync(s, after);
    case _ => StartKeepsSync(s, a);
  }

  lemma StepKeepsRing(s: State, a: Action)
    requires RingSafe(s)
    ensures RingSafe(Step(s, a))
  {
    match a
    case ProducerStep => ProducerKeepsRing(s);
    case ConsumerStep => ConsumerKeepsRing(s);
    case Sound(after) => SoundKeepsRing(s, after);
    case _ => StartKeepsRing(s, a);
  }

  lemma SoundKeepsRing(s: State, after: Transaction.Live)
    requires RingSafe(s)
    ensures RingSafe(Step(s, Sound(after)))
  {
    var s' := Step(s, Sound(after));
    assert s' == s.(live := s'.live) && Queue(s') == Queue(s);
  }

  lemma LostOnlyWhenFull(s: State, a: Action)
    requires InRange(s) && !(s.producer.Noted? && Step(s, a).producer.Full?)
    ensures Step(s, a).lost ==> s.lost
  {
  }

  lemma CopyApproaches(s: State, a: Action)
    requires InRange(s) && (s.consumer.Holding? || s.consumer.Bounds?)
    ensures a.ConsumerStep? && s.consumer.Holding? ==> Step(s, a).consumer.Bounds?
    ensures a.ConsumerStep? && s.consumer.Bounds? ==> Step(s, a) == ConsumerNext(s) && !ConsumerNext(s).lost
    ensures !a.ConsumerStep? ==> Step(s, a).consumer == s.consumer
  {
    if a.ProducerStep? {
      ProducerLeavesConsumer(s);
    }
  }

  lemma RecoveringStep(s: State, a: Action)
    requires RingSafe(s) && Recovering(s) && !(s.producer.Noted? && Step(s, a).producer.Full?)
    ensures Recovering(Step(s, a))
  {
    if s.consumer.Holding? || s.consumer.Bounds? {
      CopyApproaches(s, a);
      if s.consumer.Bounds? && a.ConsumerStep? {
        CopySynced(s);
      }
    } else {
      StepKeepsSync(s, a);
      LostOnlyWhenFull(s, a);
    }
  }

  lemma {:induction false} RecoveringRun(s: State, actions: seq<Action>)
    requires RingSafe(s) && Recovering(s) && NoFullDrop(s, actions)
    ensures RingSafe(Run(s, actions)) && Recovering(Run(s, actions))
    decreases |actions|
  {
    if actions != [] {
      RecoveringStep(s, actions[0]);
      StepKeepsRing(s, actions[0]);
      RecoveringRun(Step(s, actions[0]), actions[1..]);
    }
  }

  /** A successful resync re-establishes the invariant from any state, however far the
      consumer had drifted: once the rebuild is done, in any interleaving with the producer,
      the queue leads from the consumer's core to the shadow. */
  lemma ResyncReestablishes(s: State, actions: seq<Action>)
    requires RingSafe(s) && s.consumer == Holding && NoFullDrop(s, actions)
    ensures var s' := Run(s, actions);
            AtRest(s') ==> LatchesOf(AppliedAll(s'.live.core, Queue(s'))) == View(s'.latest)
  {
    RecoveringRun(s, actions);
    var s' := Run(s, actions);
    if AtRest(s') {
      assert Remaining(s') + InFlight(s'.producer) == Queue(s');
    }
  }

  lemma LossShows(s: State)
    requires LossNoticed(s) && AtRest(s) && s.lost && s.drops < s.lastDrop + U32
    ensures Dropped(s.drops) != Dropped(s.lastDrop)
  {
  }

  lemma StepKeepsLoss(s: State, a: Action)
    requires Safe(s) && LossNoticed(s) && !s.consumer.Entering?
    ensures LossNoticed(Step(s, a)) && !Step(s, a).consumer.Entering?
  {
    match a
    case ConsumerStep => ConsumerKeepsLoss(s);
    case ProducerStep => ProducerKeepsLoss(s);
    case Sound(after) => assert SeenDrops(Step(s, a)) == SeenDrops(s);
    case _ => StartFramed(s, a);
  }

  lemma ProducerKeepsLoss(s: State)
    requires InRange(s) && LossNoticed(s)
    ensures LossNoticed(ProducerNext(s)) && ProducerNext(s).consumer == s.consumer
  {
    ProducerLeavesConsumer(s);
  }

  lemma {:induction false} LossRun(s: State, actions: seq<Action>)
    requires Safe(s) && LossNoticed(s) && !s.consumer.Entering?
    ensures LossNoticed(Run(s, actions))
    decreases |actions|
  {
    if actions != [] {
      StepKeepsSafe(s, actions[0]);
      StepKeepsLoss(s, actions[0]);
      LossRun(Step(s, actions[0]), actions[1..]);
    }
  }

  /** Until the loop is entered nothing leaves the ring, so a full-ring drop means it is full. */
  ghost predicate FullIfLost(s: State)
    requires InRange(s)
  {
    s.consumer.Entering? && s.lost ==> Ring.Pending(s.head, s.tail) == Ring.CAPACITY
  }

  lemma ProducerKeepsFull(s: State)
    requires RingSafe(s) && FullIfLost(s)
    ensures FullIfLost(ProducerNext(s))
  {
    ProducerQueue(s);
    ProducerLeavesConsumer(s);
    assert ProducerOwns(ProducerNext(s)) by { ProducerKeepsSlots(s); }
  }

  lemma StepKeepsFull(s: State, a: Action)
    requires Safe(s) && FullIfLost(s)
    ensures FullIfLost(Step(s, a))
  {
    match a
    case ProducerStep => ProducerKeepsFull(s);
    case ConsumerStep =>
      if s.consumer.Entering? {
        assert Step(s, a).consumer.Free?;
      } else {
        ConsumerStaysEntered(s);
      }
    case Sound(after) => assert Step(s, a).consumer == s.consumer;
    case _ => StartFramed(s, a);
  }

  lemma ConsumerStaysEntered(s: State)
    requires InRange(s) && !s.consumer.Entering?
    ensures !ConsumerNext(s).consumer.Entering?
  {
  }

  lemma {:induction false} FullRun(s: State, actions: seq<Action>)
    requires Safe(s) && FullIfLost(s)
    ensures Safe(Run(s, actions)) && FullIfLost(Run(s, actions))
    decreases |actions|
  {
    if actions != [] {
      StepKeepsSafe(s, actions[0]);
      StepKeepsFull(s, actions[0]);
      FullRun(Step(s, actions[0]), actions[1..]);
    }
  }

  /** A full-ring drop after the loop's entry or the last resync makes the drop counter differ
      from the remembered one, so the next frame asks for a resync, unless 2^32 drops came in
      between. One before the entry the loop does not see in the counter: then the ring is full
      when the loop is entered, and its fill asks for the resync. */
  lemma LossIsNoticed(s0: State, before: seq<Action>, actions: seq<Action>)
    requires Initial(s0) && Run(s0, before).consumer.Entering?
    ensures var entry := Run(s0, before);
            var s := Run(Step(entry, ConsumerStep), actions);
            && (entry.lost ==> Ring.Pending(entry.head, entry.tail) == Ring.CAPACITY)
            && (!entry.lost && AtRest(s) && s.lost && s.drops < s.lastDrop + U32 ==>
                  Dropped(s.drops) != Dropped(s.lastDrop))
  {
    InitialSafe(s0);
    FullRun(s0, before);
    var entry := Run(s0, before);
    if !entry.lost {
      var s1 := Step(entry, ConsumerStep);
      StepKeepsSafe(entry, ConsumerStep);
      assert s1 == entry.(lastDrop := entry.drops, consumer := Free);
      LossRun(s1, actions);
      var s := Run(s1, actions);
      if AtRest(s) && s.lost && s.drops < s.lastDrop + U32 {
        LossShows(s);
      }
    }
  }

  // ---------------------------------------------------------------- the refused write

  lemma {:induction false} RunSplits(s: State, first: seq<Action>, rest: seq<Action>)
    requires InRange(s)
    ensures Run(s, first + rest) == Run(Run(s, first), rest)
    decreases |first|
  {
    if first == [] {
      assert first + rest == rest;
    } else {
      assert (first + rest)[1..] == first[1..] + rest;
      RunSplits(Step(s, first[0]), first[1..], rest);
    }
  }

  lemma Then(s0: State, actions: seq<Action>, a: Action) returns (longer: seq<Action>, s: State)
    requires InRange(s0)
    ensures longer == actions + [a] && s == Run(s0, longer) == Step(Run(s0, actions), a)
  {
    longer := actions + [a];
    RunSplits(s0, actions, [a]);
    assert Run(Run(s0, actions), [a]) == Run(Step(Run(s0, actions), a), [a][1..]);
    s := Run(s0, longer);
  }

  /** The snapshot takes the lock, the write is refused and counted. */
  lemma RefusalReached(s0: State, e: Event) returns (actions: seq<Action>, s: State)
    requires Initial(s0) && BusEvent(e)
    ensures s == Run(s0, actions) && InRange(s)
    ensures s == s0.(offered := 1, drops := 1, lock := true, consumer := Holding)
  {
    actions, s := Then(s0, [], ConsumerStep);
    assert s == s0.(consumer := Free);
    actions, s := Then(s0, actions, TakeSnapshot);
    assert s == s0.(lock := true, consumer := Holding);
    actions, s := Then(s0, actions, BusCapture(e));
    assert s.producer == Refused;
    actions, s := Then(s0, actions, ProducerStep);
  }

  lemma BoundsStep(s: State)
    requires InRange(s) && s.consumer == Holding
    ensures Step(s, ConsumerStep) == s.(consumer := Bounds(s.head))
  {
  }

  lemma CopyStep(s: State)
    requires InRange(s) && s.consumer.Bounds?
    ensures Step(s, ConsumerStep) == s.(lost := false, consumer := Copied(s.consumer.h, s.latest))
  {
  }

  lemma NoticeStep(s: State)
    requires InRange(s) && s.consumer.Copied?
    ensures Step(s, ConsumerStep) == s.(consumer := Noticed(s.consumer.h, s.consumer.shadow, s.drops))
  {
  }

  lemma SkipStep(s: State)
    requires InRange(s) && s.consumer.Noticed?
    ensures Step(s, ConsumerStep) ==
            s.(tail := s.consumer.h, departures := s.departures + SkippedAll(Queue(s)),
               consumer := Moved(s.consumer.shadow, s.consumer.drops))
  {
  }

  lemma UnlockStep(s: State)
    requires InRange(s) && s.consumer.Moved?
    ensures Step(s, ConsumerStep) ==
            s.(lock := false, consumer := Rebuilding(s.consumer.shadow, s.consumer.drops))
  {
  }

  lemma RebuildStep(s: State)
    requires InRange(s) && s.consumer.Rebuilding?
    ensures Step(s, ConsumerStep) ==
            s.(live := Rebuilt(s.live, s.consumer.shadow), lastDrop := s.consumer.drops, consumer := Free)
  {
    var live := ConsumerNext(s).live;
    assert Step(s, ConsumerStep) == s.(live := live, lastDrop := s.consumer.drops, consumer := Free);
  }

  /** The rest of a snapshot, nobody else moving. */
  lemma SnapshotCopies(s0: State, s: State, actions: seq<Action>) returns (longer: seq<Action>, s': State)
    requires InRange(s0) && s == Run(s0, actions) && s.consumer == Holding
    ensures s' == Run(s0, longer)
    ensures s' == s.(lost := false, consumer := Noticed(s.head, s.latest, s.drops))
  {
    BoundsStep(s);
    longer, s' := Then(s0, actions, ConsumerStep);
    CopyStep(s');
    longer, s' := Then(s0, longer, ConsumerStep);
    NoticeStep(s');
    longer, s' := Then(s0, longer, ConsumerStep);
  }

  lemma SnapshotSkips(s0: State, s: State, actions: seq<Action>) returns (longer: seq<Action>, s': State)
    requires InRange(s0) && s == Run(s0, actions) && s.consumer.Noticed?
    ensures s' == Run(s0, longer)
    ensures s' == s.(tail := s.consumer.h, lock := false, departures := s.departures + SkippedAll(Queue(s)),
                     consumer := Rebuilding(s.consumer.shadow, s.consumer.drops))
  {
    SkipStep(s);
    longer, s' := Then(s0, actions, ConsumerStep);
    UnlockStep(s');
    longer, s' := Then(s0, longer, ConsumerStep);
  }

  lemma SnapshotFinishes(s0: State, s: State, actions: seq<Action>) returns (longer: seq<Action>, s': State)
    requires InRange(s0) && s == Run(s0, actions) && s.consumer == Holding
    ensures s' == Run(s0, longer)
    ensures s' == s.(lost := false, tail := s.head, lock := false, live := Rebuilt(s.live, s.latest),
                     departures := s.departures + SkippedAll(Queue(s)), lastDrop := s.drops, consumer := Free)
  {
    longer, s' := SnapshotCopies(s0, s, actions);
    assert Queue(s') == Queue(s);
    longer, s' := SnapshotSkips(s0, s', longer);
    RebuildStep(s');
    longer, s' := Then(s0, longer, ConsumerStep);
  }

  /** Why only lock-acquiring writes are promised: a write refused while a snapshot holds the
      lock, and counted before the snapshot reads the counter, reaches neither the ring nor the
      shadow, and the remembered counter already includes it, so no resync will follow. */
  lemma RefusedWriteIsForgotten(s0: State, e: Event) returns (actions: seq<Action>)
    requires Initial(s0) && BusEvent(e)
    ensures var s := Run(s0, actions);
            && AtRest(s) && s.offered == 1 && s.drops == 1 && s.noted == [] && s.log == []
            && s.latest == BLANK && Dropped(s.drops) == Dropped(s.lastDrop)
  {
    var s;
    actions, s := RefusalReached(s0, e);
    actions, s := SnapshotFinishes(s0, s, actions);
  }
}
