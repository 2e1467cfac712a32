/** The inductive invariant of the audio loop over the interleaved event ring. */
module PlayerSafety {
  import opened Words
  import opened PaulaCore
  import opened Registers
  import opened ReplayClock
  import opened CaptureStamps
  import opened Player
  import Capture
  import CaptureSafety
  import CaptureTheorems
  import Transaction

  // ---------------------------------------------------------------- the invariant

  /** The consumer stands in the ring where the loop's phase says. */
  ghost predicate PcAgrees(p: Player) {
    var c := p.ring.consumer;
    match p.phase
    case Entering => c.Entering?
    case Resyncing => CaptureSafety.ConsumerHolds(c) || c.Rebuilding?
    case Reading(_) => c.Found?
    case CheckReading(_) => c.Found?
    case Testing(_) => c.Peeked?
    case CheckTesting(_) => c.Peeked?
    case Popping(_) => c.Used?
    case _ => c.Free?
  }

  /** The counter and the frame's time are where signed comparisons are true comparisons. */
  predicate InWindow(p: Player) {
    p.ring.now < HALF && p.clock.tick + Latency(p.clock.frequency) < HALF
  }

  /** Everything that left the ring since the last resync was applied and popped. */
  ghost predicate PoppedSince(p: Player) {
    && p.base <= |p.ring.departures|
    && (forall i :: p.base <= i < |p.ring.departures| ==> p.ring.departures[i].Popped?)
    && (p.ring.consumer.Moved? || p.ring.consumer.Rebuilding? || p.phase.Restarting? || p.phase.Entering? ==>
          p.base == |p.ring.departures|)
  }

  /** And was stamped at or before the frame's tick. */
  ghost predicate PastOnly(p: Player) {
    InWindow(p) ==>
      && (forall i :: 0 <= i < |p.ring.departures| && i >= p.base ==>
            p.ring.departures[i].event.ticks <= p.clock.tick)
      && (p.phase.Popping? && p.ring.consumer.Used? ==> p.ring.consumer.event.ticks <= p.clock.tick)
  }

  predicate AfterWait(phase: Phase) {
    || phase.Draining? || phase.Reading? || phase.Testing? || phase.Popping?
    || phase.Checking? || phase.CheckReading? || phase.CheckTesting? || phase.Rendering?
  }

  predicate AfterLook(phase: Phase) {
    phase.CheckReading? || phase.CheckTesting? || phase.Rendering?
  }

  ghost predicate Timed(p: Player) {
    AfterWait(p.phase) && InWindow(p) ==> p.clock.tick + Latency(p.clock.frequency) <= p.ring.now
  }

  /** What was captured after n events had been is stamped from t on, except the one the
      producer already held, which comes first. */
  ghost predicate StampedFrom(s: Capture.State, n: nat, t: nat, held: Option<Event>) {
    && (forall i :: n <= i < |s.log| ==> s.log[i].ticks >= t || (i == n && held.Some?))
    && (s.producer.Stored? ==> s.producer.event.ticks >= t || (|s.log| == n && held.Some?))
    && (held.Some? ==> if |s.log| <= n then Held(s.producer) == held else s.log[n] == held.value)
  }

  ghost predicate Looked(p: Player) {
    AfterLook(p.phase) ==>
      && |p.ring.departures| <= p.seen <= |p.ring.log| && p.lookedAt <= p.ring.now
      && StampedFrom(p.ring, p.seen, p.lookedAt, p.held)
      && (InWindow(p) ==> p.clock.tick + Latency(p.clock.frequency) <= p.lookedAt)
  }

  /** Nothing the last look saw pending is due. */
  ghost predicate Clear(p: Player) {
    p.phase.Rendering? && InWindow(p) ==>
      forall i :: |p.ring.departures| <= i < p.seen && i < |p.ring.log| ==> p.ring.log[i].ticks > p.clock.tick
  }

  /** The events applied to the core since the last resync. */
  function AppliedSince(p: Player): seq<Event> {
    CaptureSafety.Events(if p.base <= |p.ring.departures| then p.ring.departures[p.base..] else [])
    + if p.ring.consumer.Used? then [p.ring.consumer.event] else []
  }

  predicate HasCopy(c: Capture.Consumer) {
    c.Copied? || c.Noticed? || c.Moved? || c.Rebuilding?
  }

  /** The core latches what the last resync absorbed and what was applied since, or is about
      to be rebuilt from what it absorbs; c0 is the core everything started from. */
  ghost predicate Latched(p: Player, c0: Core)
    requires PlayerOk(p)
  {
    && CoreOk(c0)
    && (if HasCopy(p.ring.consumer) then View(p.ring.consumer.shadow) == LatchesOf(AppliedAll(c0, p.absorbed))
        else LatchesOf(p.ring.live.core) == LatchesOf(AppliedAll(AppliedAll(c0, p.absorbed), AppliedSince(p))))
  }

  ghost predicate Historic(p: Player, c0: Core)
    requires PlayerOk(p)
  {
    CoreOk(c0) && Tracks(AppliedAll(c0, p.ring.noted), p.ring.latest)
  }

  ghost predicate RingGood(p: Player) {
    PlayerOk(p) && CaptureSafety.Safe(p.ring) && Stamped(p.ring)
  }

  ghost predicate Good(p: Player, c0: Core) {
    && RingGood(p) && PcAgrees(p) && PoppedSince(p) && PastOnly(p) && Timed(p) && Looked(p) && Clear(p)
    && Latched(p, c0) && Historic(p, c0)
  }

  // ---------------------------------------------------------------- the ring below

  lemma RingStaysGood(p: Player, m: Move)
    requires RingGood(p)
    ensures RingGood(Next(p, m))
  {
    var a := RingAction(p, m);
    if a.Some? {
      CaptureSafety.StepKeepsSafe(p.ring, a.value);
      StepKeepsStamps(p.ring, a.value);
    }
  }

  lemma HistoryStays(p: Player, m: Move, c0: Core)
    requires PlayerOk(p) && Historic(p, c0)
    ensures Historic(Next(p, m), c0)
  {
    var a := RingAction(p, m);
    if a.Some? {
      CaptureTheorems.HistoryStep(c0, p.ring, a.value);
    }
  }

  // ---------------------------------------------------------------- single ring steps

  lemma OthersFrame(s: Capture.State, a: Capture.Action)
    requires Capture.InRange(s) && ByOthers(a)
    ensures var s' := Capture.Step(s, a);
            && s'.consumer == s.consumer && s'.live == s.live && s'.departures == s.departures
            && s.now <= s'.now && s.log <= s'.log
  {
    if a.ProducerStep? {
      CaptureSafety.ProducerLeavesConsumer(s);
      CaptureSafety.ProducerLogs(s);
      assert Capture.Step(s, a) == Capture.ProducerNext(s);
      ProducerKeepsTime(s);
    }
  }

  lemma ProducerKeepsTime(s: Capture.State)
    requires Capture.InRange(s)
    ensures Capture.ProducerNext(s).now == s.now
  {
  }

  lemma PeekFrame(s: Capture.State)
    requires Capture.InRange(s) && s.consumer.Free? && s.head != s.tail
    ensures Capture.Step(s, Capture.Peek) == s.(consumer := Capture.Found)
  {
  }

  lemma DeclineFrame(s: Capture.State)
    requires Capture.InRange(s) && s.consumer.Peeked?
    ensures Capture.Step(s, Capture.Decline) == s.(consumer := Capture.Free)
  {
  }

  lemma SnapshotFrame(s: Capture.State)
    requires Capture.InRange(s) && s.consumer.Free?
    ensures Capture.Step(s, Capture.TakeSnapshot) ==
            if s.lock then s else s.(lock := true, consumer := Capture.Holding)
  {
  }

  lemma SoundFrame(s: Capture.State, after: Transaction.Live)
    requires Capture.InRange(s)
    ensures var s' := Capture.Step(s, Capture.Sound(after));
            s' == s.(live := s'.live) && LatchesOf(s'.live.core) == LatchesOf(s.live.core)
  {
  }

  /** Where the consumer goes. */
  lemma ConsumerMoves(s: Capture.State)
    requires Capture.InRange(s)
    ensures var c, c' := s.consumer, Capture.ConsumerNext(s).consumer;
            && (c.Entering? || c.Free? ==> c'.Free?) && (c.Found? ==> c'.Peeked?)
            && (c.Peeked? ==> c' == Capture.Used(c.event)) && (c.Used? ==> c'.Free?)
            && (c.Holding? ==> c'.Bounds?) && (c.Bounds? ==> c'.Copied? && c'.shadow == s.latest)
            && (c.Copied? ==> c'.Noticed? && c'.shadow == c.shadow)
            && (c.Noticed? ==> c'.Moved? && c'.shadow == c.shadow)
            && (c.Moved? ==> c'.Rebuilding? && c'.shadow == c.shadow) && (c.Rebuilding? ==> c'.Free?)
  {
    var c' := Capture.ConsumerNext(s).consumer;
    match s.consumer
    case Entering => assert c' == Capture.Free;
    case Free => assert c' == Capture.Free;
    case Found => assert c'.Peeked?;
    case Peeked(e) => assert c' == Capture.Used(e);
    case Used(_) => assert c' == Capture.Free;
    case Holding => assert c'.Bounds?;
    case Bounds(_) => assert c'.Copied? && c'.shadow == s.latest;
    case Copied(_, shadow) => assert c'.Noticed? && c'.shadow == shadow;
    case Noticed(_, shadow, _) => assert c'.Moved? && c'.shadow == shadow;
    case Moved(shadow, _) => assert c'.Rebuilding? && c'.shadow == shadow;
    case Rebuilding(_, _) => assert c' == Capture.Free;
  }

  /** What the consumer takes off the ring. */
  lemma ConsumerTakes(s: Capture.State)
    requires Capture.InRange(s) && CaptureSafety.ConsumerOwns(s)
    ensures Capture.ConsumerNext(s).departures ==
            if s.consumer.Used? then s.departures + [Capture.Popped(s.consumer.event)]
            else if s.consumer.Noticed? then s.departures + Capture.SkippedAll(CaptureSafety.Queue(s))
            else s.departures
  {
    var s' := Capture.ConsumerNext(s);
    if s.consumer.Used? {
      assert s.head != s.tail;
    } else if s.consumer.Noticed? {
      assert s'.departures == s.departures + Capture.SkippedAll(CaptureSafety.Queue(s));
    } else if s.consumer.Peeked? || s.consumer.Rebuilding? {
      assert s'.departures == s.departures;
    }
  }

  /** And what it does to the core. */
  lemma ConsumerPlays(s: Capture.State)
    requires Capture.InRange(s)
    ensures Capture.ConsumerNext(s).live.core ==
            if s.consumer.Peeked? then Applied(s.live.core, s.consumer.event)
            else if s.consumer.Rebuilding? then Restored(s.live.core, s.consumer.shadow)
            else s.live.core
  {
    if s.consumer.Peeked? {
      assert Capture.ConsumerNext(s).live.core == Applied(s.live.core, s.consumer.event);
    } else {
      CaptureSafety.ForeseenCore(s);
    }
  }

  // ---------------------------------------------------------------- program counters

  lemma PcByOthers(p: Player, a: Capture.Action)
    requires PlayerOk(p) && PcAgrees(p) && ByOthers(a)
    ensures PcAgrees(Next(p, Others(a)))
  {
    OthersFrame(p.ring, a);
  }

  lemma PcByConsumer(p: Player, ring: Capture.State)
    requires PlayerOk(p) && PcAgrees(p) && LoopAction(p) == Some(Capture.ConsumerStep)
    requires ring.consumer == Capture.ConsumerNext(p.ring).consumer
    ensures PcAgrees(LoopNext(p, ring))
  {
    ConsumerMoves(p.ring);
  }

  lemma PcByLook(p: Player)
    requires PlayerOk(p) && PcAgrees(p) && LoopAction(p) != Some(Capture.ConsumerStep)
    ensures PcAgrees(Next(p, Go))
  {
    var a := LoopAction(p);
    if a == Some(Capture.Peek) {
      PeekFrame(p.ring);
    } else if a == Some(Capture.Decline) {
      DeclineFrame(p.ring);
    } else if a == Some(Capture.TakeSnapshot) {
      SnapshotFrame(p.ring);
    }
  }

  lemma PcByLoop(p: Player)
    requires PlayerOk(p) && PcAgrees(p)
    ensures PcAgrees(Next(p, Go))
  {
    if LoopAction(p) == Some(Capture.ConsumerStep) {
      var ring := Next(p, Go).ring;
      assert ring == Capture.ConsumerNext(p.ring);
      PcByConsumer(p, ring);
    } else {
      PcByLook(p);
    }
  }

  lemma PcStays(p: Player, m: Move)
    requires PlayerOk(p) && PcAgrees(p)
    ensures PcAgrees(Next(p, m))
  {
    match m
    case Others(a) =>
      if ByOthers(a) {
        PcByOthers(p, a);
      }
    case Go => PcByLoop(p);
    case Mix(after) => SoundFrame(p.ring, after);
    case Play(after) => SoundFrame(p.ring, after);
    case Decide(_, _, _) =>
  }

  // ---------------------------------------------------------------- departures

  /** A move other than a consumer step leaves departures, log and counter's past alone. */
  lemma QuietFrame(p: Player, m: Move)
    requires PlayerOk(p) && PcAgrees(p) && RingAction(p, m) != Some(Capture.ConsumerStep)
    ensures Next(p, m).ring.departures == p.ring.departures
    ensures m != Go ==> Next(p, m).ring.consumer == p.ring.consumer
  {
    match RingAction(p, m)
    case None =>
    case Some(a) =>
      match a
      case Peek => PeekFrame(p.ring);
      case Decline => DeclineFrame(p.ring);
      case TakeSnapshot => SnapshotFrame(p.ring);
      case Sound(after) => SoundFrame(p.ring, after);
      case _ => OthersFrame(p.ring, a);
  }

  /** Stamps: the log only grows at its end, and time only moves on. */
  lemma LogGrows(p: Player, m: Move)
    requires PlayerOk(p) && PcAgrees(p)
    ensures p.ring.log <= Next(p, m).ring.log && p.ring.now <= Next(p, m).ring.now
    ensures !m.Others? ==> Next(p, m).ring.log == p.ring.log && Next(p, m).ring.now == p.ring.now
                           && Next(p, m).ring.producer == p.ring.producer
  {
    if m.Others? && ByOthers(m.action) {
      OthersFrame(p.ring, m.action);
    } else if RingAction(p, m) == Some(Capture.ConsumerStep) {
      TakenMove(p);
      ConsumerFrame(p.ring);
    } else {
      LookFrame(p, m);
    }
  }

  /** Looking at the ring, declining, trying the lock and playing sound change no record. */
  lemma LookFrame(p: Player, m: Move)
    requires PlayerOk(p) && PcAgrees(p) && !(m.Others? && ByOthers(m.action))
    requires RingAction(p, m) != Some(Capture.ConsumerStep)
    ensures var r := Next(p, m).ring;
            r == p.ring.(lock := r.lock, consumer := r.consumer, live := r.live)
  {
    match RingAction(p, m)
    case None =>
    case Some(a) =>
      match a
      case Peek => PeekFrame(p.ring);
      case Decline => DeclineFrame(p.ring);
      case TakeSnapshot => SnapshotFrame(p.ring);
      case Sound(after) => SoundFrame(p.ring, after);
  }

  lemma TakenMove(p: Player)
    requires PlayerOk(p) && LoopAction(p) == Some(Capture.ConsumerStep)
    ensures Next(p, Go).ring == Capture.ConsumerNext(p.ring)
  {
  }

  /** The departures after a consumer step of the loop. */
  lemma Departing(p: Player)
    requires RingGood(p) && LoopAction(p) == Some(Capture.ConsumerStep)
    ensures Next(p, Go).ring.departures ==
            if p.ring.consumer.Used? then p.ring.departures + [Capture.Popped(p.ring.consumer.event)]
            else if p.ring.consumer.Noticed?
            then p.ring.departures + Capture.SkippedAll(CaptureSafety.Queue(p.ring))
            else p.ring.departures
  {
    TakenMove(p);
    ConsumerTakes(p.ring);
  }

  lemma PoppedByConsumer(p: Player, ring: Capture.State)
    requires PlayerOk(p) && PcAgrees(p) && PoppedSince(p) && LoopAction(p) == Some(Capture.ConsumerStep)
    requires ring.consumer == Capture.ConsumerNext(p.ring).consumer
    requires p.ring.consumer.Noticed? || ring.departures == p.ring.departures
             || (p.ring.consumer.Used?
                 && ring.departures == p.ring.departures + [Capture.Popped(p.ring.consumer.event)])
    ensures PoppedSince(LoopNext(p, ring))
  {
    ConsumerMoves(p.ring);
  }

  lemma PoppedStays(p: Player, m: Move)
    requires RingGood(p) && PcAgrees(p) && PoppedSince(p)
    ensures PoppedSince(Next(p, m))
  {
    if RingAction(p, m) == Some(Capture.ConsumerStep) {
      assert m == Go;
      Departing(p);
      TakenMove(p);
      PoppedByConsumer(p, Next(p, m).ring);
    } else {
      QuietFrame(p, m);
      PcStays(p, m);
      PoppedQuietly(p, m, Next(p, m).ring);
    }
  }

  lemma PoppedQuietly(p: Player, m: Move, ring: Capture.State)
    requires PlayerOk(p) && PcAgrees(p) && PoppedSince(p) && RingAction(p, m) != Some(Capture.ConsumerStep)
    requires ring.departures == p.ring.departures && PcAgrees(Control(p, m, ring))
    requires m != Go ==> ring.consumer == p.ring.consumer
    ensures PoppedSince(Control(p, m, ring))
  {
  }

  // ---------------------------------------------------------------- stamps of what was popped

  /** A due event in the window was stamped at or before the tick. */
  lemma DueIsPast(tick: nat, e: Event)
    requires tick < HALF && e.ticks < HALF
    ensures IsDue(tick, e) <==> e.ticks <= tick
  {
    DueAgrees(tick, e.ticks);
  }

  /** Every pending event was captured, so it is not from the future. */
  lemma FrontIsCaptured(p: Player)
    requires RingGood(p) && (p.ring.consumer.Peeked? || p.ring.consumer.Used?)
    ensures |p.ring.departures| < |p.ring.log| && p.ring.log[|p.ring.departures|] == p.ring.consumer.event
    ensures p.ring.consumer.event.ticks <= p.ring.now
  {
    var q := CaptureSafety.Queue(p.ring);
    assert p.ring.log == CaptureSafety.Events(p.ring.departures) + q;
    assert p.ring.log[|p.ring.departures|] == q[0];
  }

  lemma PastByConsumer(p: Player, ring: Capture.State)
    requires PlayerOk(p) && PcAgrees(p) && PoppedSince(p) && PastOnly(p)
    requires LoopAction(p) == Some(Capture.ConsumerStep)
    requires ring.consumer == Capture.ConsumerNext(p.ring).consumer && ring.now == p.ring.now
    requires p.ring.consumer.Noticed? || ring.departures == p.ring.departures
             || (p.ring.consumer.Used?
                 && ring.departures == p.ring.departures + [Capture.Popped(p.ring.consumer.event)])
    requires p.ring.consumer.Used? ==> p.phase.Popping?
    requires p.phase.Testing? && InWindow(p) ==> p.ring.consumer.event.ticks <= p.clock.tick
    ensures PastOnly(LoopNext(p, ring))
  {
    ConsumerMoves(p.ring);
  }

  lemma TestedIsPast(p: Player)
    requires RingGood(p) && PcAgrees(p) && p.phase.Testing? && FrontIsDue(p) && InWindow(p)
    ensures p.ring.consumer.event.ticks <= p.clock.tick
  {
    FrontIsCaptured(p);
    DueIsPast(p.clock.tick, p.ring.consumer.event);
  }

  lemma PastQuietly(p: Player, m: Move, ring: Capture.State)
    requires PlayerOk(p) && PcAgrees(p) && PoppedSince(p) && PastOnly(p)
    requires RingAction(p, m) != Some(Capture.ConsumerStep)
    requires ring.departures == p.ring.departures && p.ring.now <= ring.now
    requires m != Go ==> ring.consumer == p.ring.consumer
    ensures PastOnly(Control(p, m, ring))
  {
    assert Advanced(p.clock).tick >= p.clock.tick && Advanced(p.clock).frequency == p.clock.frequency;
  }

  lemma PastStays(p: Player, m: Move)
    requires RingGood(p) && PcAgrees(p) && PoppedSince(p) && PastOnly(p)
    ensures PastOnly(Next(p, m))
  {
    LogGrows(p, m);
    if RingAction(p, m) == Some(Capture.ConsumerStep) {
      Departing(p);
      TakenMove(p);
      if p.phase.Testing? && InWindow(p) {
        TestedIsPast(p);
      }
      PastByConsumer(p, Next(p, m).ring);
    } else {
      QuietFrame(p, m);
      PastQuietly(p, m, Next(p, m).ring);
    }
  }

  // ---------------------------------------------------------------- the wait and the last look

  lemma WaitIsTrue(p: Player)
    requires TimeHasCome(p) && InWindow(p)
    ensures p.clock.tick + Latency(p.clock.frequency) <= p.ring.now
  {
    DueAgrees(p.ring.now, p.clock.tick + Latency(p.clock.frequency));
  }

  lemma TimedBy(p: Player, m: Move, ring: Capture.State)
    requires ClockOk(p.clock) && Timed(p) && p.ring.now <= ring.now
    ensures Timed(Control(p, m, ring))
  {
    if p.phase.Waiting? && TimeHasCome(p) && InWindow(p) {
      WaitIsTrue(p);
    }
  }

  lemma TimedStays(p: Player, m: Move)
    requires PlayerOk(p) && PcAgrees(p) && Timed(p)
    ensures Timed(Next(p, m))
  {
    LogGrows(p, m);
    TimedBy(p, m, Next(p, m).ring);
  }

  lemma StampedByProducer(s: Capture.State, n: nat, t: nat, held: Option<Event>)
    requires Capture.InRange(s) && n <= |s.log| && t <= s.now && StampedFrom(s, n, t, held)
    ensures StampedFrom(Capture.ProducerNext(s), n, t, held)
  {
    CaptureSafety.ProducerLogs(s);
    StoredWhere(s);
  }

  /** An event is stored with the counter's value, and published as it was stored. */
  lemma StoredWhere(s: Capture.State)
    requires Capture.InRange(s)
    ensures Capture.ProducerNext(s).producer.Stored? ==>
              s.producer.Room? && Capture.ProducerNext(s).producer.event.ticks == s.now
  {
  }

  lemma StampedByOthers(s: Capture.State, a: Capture.Action, n: nat, t: nat, held: Option<Event>)
    requires Capture.InRange(s) && ByOthers(a) && n <= |s.log| && t <= s.now && StampedFrom(s, n, t, held)
    ensures StampedFrom(Capture.Step(s, a), n, t, held)
  {
    if a.ProducerStep? {
      StampedByProducer(s, n, t, held);
      assert Capture.Step(s, a) == Capture.ProducerNext(s);
    } else {
      var s' := Capture.Step(s, a);
      assert s'.log == s.log && (s'.producer.Stored? ==> s'.producer == s.producer);
    }
  }

  lemma LookedByOthers(p: Player, a: Capture.Action)
    requires PlayerOk(p) && Looked(p) && ByOthers(a)
    ensures Looked(Next(p, Others(a)))
  {
    OthersFrame(p.ring, a);
    if AfterLook(p.phase) {
      StampedByOthers(p.ring, a, p.seen, p.lookedAt, p.held);
    }
  }

  lemma LookedByLoop(p: Player, m: Move, ring: Capture.State)
    requires ClockOk(p.clock) && Looked(p) && Timed(p) && !m.Others? && |p.ring.departures| <= |p.ring.log|
    requires ring.log == p.ring.log && ring.now == p.ring.now && ring.producer == p.ring.producer
    requires p.phase.Checking? || AfterLook(p.phase) ==> ring.departures == p.ring.departures
    ensures Looked(Control(p, m, ring))
  {
    if p.phase.Checking? && m == Go {
      LookTaken(p, ring, p.phase.why);
    } else if AfterLook(p.phase) {
      LookKept(p, m, ring);
    } else {
      assert !AfterLook(Control(p, m, ring).phase);
    }
  }

  lemma LookKept(p: Player, m: Move, ring: Capture.State)
    requires ClockOk(p.clock) && Looked(p) && AfterLook(p.phase)
    requires ring.log == p.ring.log && ring.now == p.ring.now && ring.producer == p.ring.producer
    requires ring.departures == p.ring.departures
    ensures Looked(Control(p, m, ring))
  {
    var r := Control(p, m, ring);
    assert r.seen == p.seen && r.lookedAt == p.lookedAt && r.held == p.held;
    assert AfterLook(r.phase) ==> r.clock == p.clock;
  }

  lemma LookTaken(p: Player, ring: Capture.State, why: Stop)
    requires ClockOk(p.clock) && Timed(p) && p.phase.Checking? && |p.ring.departures| <= |p.ring.log|
    requires ring.log == p.ring.log && ring.now == p.ring.now && ring.producer == p.ring.producer
    requires ring.departures == p.ring.departures
    ensures Looked(LastLook(p, ring, why))
  {
  }

  lemma CapturedAtLeast(p: Player)
    requires RingGood(p)
    ensures |p.ring.departures| <= |p.ring.log|
  {
    assert p.ring.log == CaptureSafety.Events(p.ring.departures) + CaptureSafety.Queue(p.ring);
  }

  lemma LookedStays(p: Player, m: Move)
    requires RingGood(p) && PcAgrees(p) && Looked(p) && Timed(p)
    ensures Looked(Next(p, m))
  {
    if m.Others? {
      if ByOthers(m.action) {
        LookedByOthers(p, m.action);
      }
    } else {
      LogGrows(p, m);
      CapturedAtLeast(p);
      if RingAction(p, m) == Some(Capture.ConsumerStep) {
        Departing(p);
      } else {
        QuietFrame(p, m);
      }
      LookedByLoop(p, m, Next(p, m).ring);
    }
  }

  /** If the oldest pending event is not due, none that was pending is. */
  lemma FrontDecides(p: Player)
    requires RingGood(p) && PcAgrees(p) && p.phase.CheckTesting? && !FrontIsDue(p) && InWindow(p)
    ensures forall i :: |p.ring.departures| <= i < |p.ring.log| ==> p.ring.log[i].ticks > p.clock.tick
  {
    FrontIsCaptured(p);
    DueIsPast(p.clock.tick, p.ring.consumer.event);
    assert Ordered(p.ring.log);
  }

  lemma EmptyIsClear(p: Player)
    requires RingGood(p) && p.ring.head == p.ring.tail
    ensures |p.ring.departures| == |p.ring.log|
  {
    assert p.ring.log == CaptureSafety.Events(p.ring.departures) + CaptureSafety.Queue(p.ring);
  }

  lemma ClearBy(p: Player, m: Move, ring: Capture.State)
    requires ClockOk(p.clock) && Clear(p) && p.ring.now <= ring.now && p.ring.log <= ring.log
    requires Looked(p)
    requires p.phase.Rendering? || p.phase.Checking? || p.phase.CheckTesting? ==> ring.departures == p.ring.departures
    requires p.phase.Checking? && p.ring.head == p.ring.tail ==> |p.ring.departures| == |p.ring.log|
    requires p.phase.CheckTesting? && !FrontIsDue(p) && InWindow(p) ==>
               forall i :: |p.ring.departures| <= i < |p.ring.log| ==> p.ring.log[i].ticks > p.clock.tick
    ensures Clear(Control(p, m, ring))
  {
  }

  lemma ClearStays(p: Player, m: Move)
    requires RingGood(p) && PcAgrees(p) && Clear(p) && Looked(p)
    ensures Clear(Next(p, m))
  {
    LogGrows(p, m);
    if RingAction(p, m) != Some(Capture.ConsumerStep) {
      QuietFrame(p, m);
    } else {
      Departing(p);
    }
    if p.phase.Checking? && p.ring.head == p.ring.tail {
      EmptyIsClear(p);
    }
    if p.phase.CheckTesting? && !FrontIsDue(p) && InWindow(p) {
      FrontDecides(p);
    }
    ClearBy(p, m, Next(p, m).ring);
  }

  // ---------------------------------------------------------------- latched registers

  /** One more event applied. */
  lemma AppliedOneMore(p: Core, q: Core, events: seq<Event>, e: Event)
    requires CoreOk(p) && CoreOk(q) && LatchesOf(p) == LatchesOf(AppliedAll(q, events))
    ensures LatchesOf(Applied(p, e)) == LatchesOf(AppliedAll(q, events + [e]))
  {
    AllExtends(q, events, e);
    AppliedCongruent(p, AppliedAll(q, events), e);
  }

  lemma EventsExtend(departures: seq<Capture.Departure>, base: nat, e: Event)
    requires base <= |departures|
    ensures CaptureSafety.Events((departures + [Capture.Popped(e)])[base..])
            == CaptureSafety.Events(departures[base..]) + [e]
  {
    assert (departures + [Capture.Popped(e)])[base..] == departures[base..] + [Capture.Popped(e)];
  }

  /** What was applied moves only when an event is applied. */
  lemma AppliedByApply(p: Player, ring: Capture.State)
    requires p.base <= |p.ring.departures| && p.ring.consumer.Peeked?
    requires ring.departures == p.ring.departures && ring.consumer == Capture.Used(p.ring.consumer.event)
    ensures AppliedSince(p.(ring := ring)) == AppliedSince(p) + [p.ring.consumer.event]
  {
    assert CaptureSafety.Events(p.ring.departures[p.base..]) + [] == CaptureSafety.Events(p.ring.departures[p.base..]);
  }

  lemma AppliedByPop(p: Player, ring: Capture.State)
    requires p.base <= |p.ring.departures| && p.ring.consumer.Used? && ring.consumer.Free?
    requires ring.departures == p.ring.departures + [Capture.Popped(p.ring.consumer.event)]
    ensures AppliedSince(p.(ring := ring)) == AppliedSince(p)
  {
    EventsExtend(p.ring.departures, p.base, p.ring.consumer.event);
  }

  ghost predicate CoreLatched(core: Core, c0: Core, absorbed: seq<Event>, since: seq<Event>) {
    && CoreOk(core) && CoreOk(c0)
    && LatchesOf(core) == LatchesOf(AppliedAll(AppliedAll(c0, absorbed), since))
  }

  ghost predicate CopyLatched(shadow: Shadow, c0: Core, absorbed: seq<Event>) {
    ShadowOk(shadow) && CoreOk(c0) && View(shadow) == LatchesOf(AppliedAll(c0, absorbed))
  }

  lemma LatchedMeans(p: Player, c0: Core)
    requires PlayerOk(p)
    ensures Latched(p, c0) <==>
            if HasCopy(p.ring.consumer) then CopyLatched(p.ring.consumer.shadow, c0, p.absorbed)
            else CoreLatched(p.ring.live.core, c0, p.absorbed, AppliedSince(p))
  {
  }

  lemma CoreLatchedOneMore(core: Core, c0: Core, absorbed: seq<Event>, since: seq<Event>, e: Event)
    requires CoreLatched(core, c0, absorbed, since)
    ensures CoreLatched(Applied(core, e), c0, absorbed, since + [e])
  {
    AppliedOneMore(core, AppliedAll(c0, absorbed), since, e);
  }

  lemma RebuiltLatched(core: Core, shadow: Shadow, c0: Core, absorbed: seq<Event>)
    requires CoreOk(core) && CopyLatched(shadow, c0, absorbed)
    ensures CoreLatched(Restored(core, shadow), c0, absorbed, [])
  {
    RestoreExact(core, shadow);
  }

  /** A snapshot's copy stands for everything noted so far. */
  lemma CopyStands(s: Capture.State, c0: Core)
    requires Capture.InRange(s) && CoreOk(c0) && Tracks(AppliedAll(c0, s.noted), s.latest)
    ensures CopyLatched(s.latest, c0, s.noted)
  {
  }

  /** Applying, popping and declining, in terms of what was applied. */
  lemma LatchedByApply(p: Player, c0: Core)
    requires RingGood(p) && PcAgrees(p) && PoppedSince(p) && Latched(p, c0) && p.phase.Testing? && FrontIsDue(p)
    ensures Latched(Next(p, Go), c0)
  {
    var r, e := Next(p, Go), p.ring.consumer.event;
    TakenMove(p);
    ConsumerMoves(p.ring);
    ConsumerPlays(p.ring);
    Departing(p);
    LatchedMeans(p, c0);
    LatchedMeans(r, c0);
    AppliedByApply(p, r.ring);
    CoreLatchedOneMore(p.ring.live.core, c0, p.absorbed, AppliedSince(p), e);
  }

  lemma LatchedByPop(p: Player, c0: Core)
    requires RingGood(p) && PcAgrees(p) && PoppedSince(p) && Latched(p, c0) && p.phase.Popping?
    ensures Latched(Next(p, Go), c0)
  {
    var r := Next(p, Go);
    TakenMove(p);
    ConsumerMoves(p.ring);
    ConsumerPlays(p.ring);
    Departing(p);
    LatchedMeans(p, c0);
    LatchedMeans(r, c0);
    AppliedByPop(p, r.ring);
  }

  lemma LatchedByRebuild(p: Player, c0: Core)
    requires RingGood(p) && PoppedSince(p) && Latched(p, c0)
    requires p.phase.Resyncing? && p.ring.consumer.Rebuilding?
    ensures Latched(Next(p, Go), c0)
  {
    var r := Next(p, Go);
    TakenMove(p);
    ConsumerMoves(p.ring);
    ConsumerPlays(p.ring);
    Departing(p);
    LatchedMeans(p, c0);
    LatchedMeans(r, c0);
    RebuiltLatched(p.ring.live.core, p.ring.consumer.shadow, c0, p.absorbed);
    assert AppliedSince(r) == [];
  }

  lemma LatchedByCopy(p: Player, c0: Core)
    requires RingGood(p) && Historic(p, c0) && p.phase.Resyncing? && p.ring.consumer.Bounds?
    ensures Latched(Next(p, Go), c0)
  {
    var r := Next(p, Go);
    TakenMove(p);
    ConsumerMoves(p.ring);
    LatchedMeans(r, c0);
    CopyStands(p.ring, c0);
  }

  /** The other steps of a snapshot keep the copy, or the core with nothing applied. */
  lemma LatchedBySnapshot(p: Player, c0: Core)
    requires RingGood(p) && PcAgrees(p) && Latched(p, c0) && p.phase.Resyncing?
    requires !p.ring.consumer.Rebuilding? && !p.ring.consumer.Bounds?
    ensures Latched(Next(p, Go), c0)
  {
    var r := Next(p, Go);
    TakenMove(p);
    ConsumerMoves(p.ring);
    ConsumerPlays(p.ring);
    Departing(p);
    LatchedMeans(p, c0);
    LatchedMeans(r, c0);
  }

  /** Entering the loop and reading the oldest event move no register. */
  lemma LatchedByRead(p: Player, c0: Core)
    requires RingGood(p) && PcAgrees(p) && Latched(p, c0)
    requires p.phase.Entering? || p.phase.Reading? || p.phase.CheckReading?
    ensures Latched(Next(p, Go), c0)
  {
    var r := Next(p, Go);
    TakenMove(p);
    ConsumerMoves(p.ring);
    ConsumerPlays(p.ring);
    Departing(p);
    LatchedMeans(p, c0);
    LatchedMeans(r, c0);
  }

  lemma QuietCore(p: Player, m: Move)
    requires PlayerOk(p) && PcAgrees(p) && RingAction(p, m) != Some(Capture.ConsumerStep)
    ensures LatchesOf(Next(p, m).ring.live.core) == LatchesOf(p.ring.live.core)
    ensures HasCopy(Next(p, m).ring.consumer) == HasCopy(p.ring.consumer)
    ensures HasCopy(p.ring.consumer) ==> Next(p, m).ring.consumer == p.ring.consumer
    ensures Next(p, m).ring.consumer.Used? <==> p.ring.consumer.Used?
    ensures p.ring.consumer.Used? ==> Next(p, m).ring.consumer == p.ring.consumer
  {
    match RingAction(p, m)
    case None =>
    case Some(a) =>
      match a
      case Peek => PeekFrame(p.ring);
      case Decline => DeclineFrame(p.ring);
      case TakeSnapshot => SnapshotFrame(p.ring);
      case Sound(after) => SoundFrame(p.ring, after);
      case _ => OthersFrame(p.ring, a);
  }

  lemma QuietRecords(p: Player, m: Move, ring: Capture.State)
    requires ClockOk(p.clock) && RingAction(p, m) != Some(Capture.ConsumerStep)
    ensures Control(p, m, ring).base == p.base && Control(p, m, ring).absorbed == p.absorbed
  {
  }

  lemma LatchedQuietly(p: Player, m: Move, c0: Core)
    requires PlayerOk(p) && PcAgrees(p) && Latched(p, c0) && RingAction(p, m) != Some(Capture.ConsumerStep)
    ensures Latched(Next(p, m), c0)
  {
    var r := Next(p, m);
    QuietFrame(p, m);
    QuietCore(p, m);
    QuietRecords(p, m, r.ring);
    LatchedMeans(p, c0);
    LatchedMeans(r, c0);
    assert AppliedSince(r) == AppliedSince(p);
  }

  lemma LatchedStays(p: Player, m: Move, c0: Core)
    requires RingGood(p) && PcAgrees(p) && PoppedSince(p) && Latched(p, c0) && Historic(p, c0)
    ensures Latched(Next(p, m), c0)
  {
    if RingAction(p, m) != Some(Capture.ConsumerStep) {
      LatchedQuietly(p, m, c0);
    } else if p.phase.Resyncing? {
      if p.ring.consumer.Rebuilding? {
        LatchedByRebuild(p, c0);
      } else if p.ring.consumer.Bounds? {
        LatchedByCopy(p, c0);
      } else {
        LatchedBySnapshot(p, c0);
      }
    } else if p.phase.Testing? {
      LatchedByApply(p, c0);
    } else if p.phase.Popping? {
      LatchedByPop(p, c0);
    } else {
      LatchedByRead(p, c0);
    }
  }

  // ---------------------------------------------------------------- every run

  lemma MoveKeepsGood(p: Player, m: Move, c0: Core)
    requires Good(p, c0)
    ensures Good(Next(p, m), c0)
  {
    RingStaysGood(p, m);
    PcStays(p, m);
    PoppedStays(p, m);
    PastStays(p, m);
    TimedStays(p, m);
    LookedStays(p, m);
    ClearStays(p, m);
    LatchedStays(p, m, c0);
    HistoryStays(p, m, c0);
  }

  lemma {:induction false} RunKeepsGood(p: Player, moves: seq<Move>, c0: Core)
    requires Good(p, c0)
    ensures Good(Plays(p, moves), c0)
    decreases |moves|
  {
    if moves != [] {
      MoveKeepsGood(p, moves[0], c0);
      RunKeepsGood(Next(p, moves[0]), moves[1..], c0);
    }
  }

  lemma InitialGood(p: Player)
    requires Initial(p)
    ensures Good(p, p.ring.live.core)
  {
    CaptureSafety.InitialSafe(p.ring);
    InitialStamped(p.ring);
    CaptureSafety.ResetIsBlank(p.ring.live.core);
    assert AppliedSince(p) == [];
  }
}
