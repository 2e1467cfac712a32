/** When the audio loop resyncs, over every run: what makes it ask, that it then renders nothing
    until a snapshot has been taken, and that it starts again on time. */
module PlayerResync {
  import opened Words
  import opened Registers
  import opened ReplayClock
  import opened Player
  import opened PlayerSafety
  import opened PlayerTheorems
  import Capture
  import CaptureSafety
  import CaptureTheorems
  import CaptureFate
  import Transaction
  import Ring

  // ---------------------------------------------------------------- the decision

  /** The counter and the frame's time, with the tolerated lag, are in the signed range. */
  predicate LagInWindow(p: Player, now: nat) {
    -HALF <= now - p.clock.tick < HALF && p.clock.frequency < U32
  }

  /** Exactly: a pass begins with a resync if and only if one is still owed, the drop counter
      is not the remembered one, the ring is three quarters full, or the loop is later than the
      latency of 50 ms by a quarter of a second; otherwise it goes on to wait for its frame. */
  lemma DecideAsksIff(p: Player, now: nat, drops: nat, fill: nat)
    requires PlayerOk(p) && p.phase.Starting? && LagInWindow(p, now)
    ensures var q, f := Next(p, Decide(now, drops, fill)), p.clock.frequency;
            && (q.phase.Trying? <==>
                  p.recovery || drops % 0x1_0000_0000 != p.ring.lastDrop % 0x1_0000_0000 || fill >= 6144
                  || now > p.clock.tick + f / 20 + f / 4)
            && (!q.phase.Trying? ==> q.phase.Waiting?)
            && (q.phase.Trying? ==> q.recovery)
  {
    LateAgrees(p.clock.tick, now, Latency(p.clock.frequency), MaxLag(p.clock.frequency));
  }

  /** The readings are those of the moment of the decision. */
  predicate TrueReadings(p: Player, m: Move)
    requires p.ring.head < U32 && p.ring.tail < U32
  {
    m.Decide? ==>
      m.now == p.ring.now && m.drops == p.ring.drops && m.fill == Ring.Pending(p.ring.head, p.ring.tail)
  }

  ghost predicate ReadsTruly(p: Player, moves: seq<Move>)
    requires PlayerOk(p)
    decreases |moves|
  {
    moves == [] || (TrueReadings(p, moves[0]) && ReadsTruly(Next(p, moves[0]), moves[1..]))
  }

  // ---------------------------------------------------------------- a resync owed is a resync done

  predicate MayRecover(phase: Phase) {
    || phase.Starting? || phase.Trying? || phase.Resyncing? || phase.Restarting?
    || phase.Silent? || phase.Advancing?
  }

  /** The loop keeps the debt through every pass without a snapshot. */
  predicate Owing(p: Player) {
    && (p.recovery ==> MayRecover(p.phase))
    && (p.phase.Trying? || p.phase.Resyncing? || p.phase.Restarting? ==> p.recovery)
  }

  lemma OwingBy(p: Player, m: Move, ring: Capture.State)
    requires ClockOk(p.clock) && Owing(p)
    ensures Owing(Control(p, m, ring))
    ensures p.recovery && !Control(p, m, ring).recovery ==> p.phase.Restarting?
  {
  }

  lemma {:induction false} OwingRun(p: Player, moves: seq<Move>)
    requires PlayerOk(p) && Owing(p)
    ensures Owing(Plays(p, moves))
    decreases |moves|
  {
    if moves != [] {
      OwingBy(p, moves[0], Next(p, moves[0]).ring);
      OwingRun(Next(p, moves[0]), moves[1..]);
    }
  }

  /** Somewhere in the run the loop stands behind a finished snapshot. */
  ghost predicate Resyncs(p: Player, moves: seq<Move>)
    requires PlayerOk(p)
    decreases |moves|
  {
    p.phase.Restarting? || (moves != [] && Resyncs(Next(p, moves[0]), moves[1..]))
  }

  lemma {:induction false} OwedUntilResync(p: Player, moves: seq<Move>)
    requires PlayerOk(p) && Owing(p) && p.recovery
    ensures Plays(p, moves).recovery || Resyncs(p, moves)
    ensures Owing(Plays(p, moves))
    decreases |moves|
  {
    if moves != [] {
      var q := Next(p, moves[0]);
      OwingBy(p, moves[0], q.ring);
      if q.recovery {
        OwedUntilResync(q, moves[1..]);
      } else {
        OwingRun(q, moves[1..]);
      }
    }
  }

  /** Once a pass of any run has begun with a resync, no frame is rendered before a snapshot is
      complete, however often the lock is found taken. */
  lemma NoFrameBeforeSnapshot(p0: Player, moves: seq<Move>, rest: seq<Move>)
    requires Initial(p0) && Plays(p0, moves).phase.Trying?
    ensures Plays(Plays(p0, moves), rest).phase.Rendering? ==> Resyncs(Plays(p0, moves), rest)
  {
    InitialOwing(p0);
    OwingRun(p0, moves);
    OwedUntilResync(Plays(p0, moves), rest);
  }

  lemma InitialOwing(p0: Player)
    requires Initial(p0)
    ensures PlayerOk(p0) && Owing(p0)
  {
  }

  /** After the resync the loop is exactly its latency of 50 ms behind, or at zero before that: the
      frame's time has come. */
  lemma ResyncEndsOnTime(p: Player)
    requires PlayerOk(p) && p.phase.Restarting? && p.ring.now < HALF
    ensures var q, behind := Next(p, Go), p.clock.frequency / 20;
            && q.phase.Waiting? && !q.recovery && q.ring == p.ring && q.clock.frequency == p.clock.frequency
            && q.clock.tick == (if p.ring.now < behind then 0 else p.ring.now - behind) && q.clock.remainder == 0
            && (behind <= p.ring.now ==> TimeHasCome(q))
  {
    var q := Next(p, Go);
    DueAgrees(q.ring.now, q.clock.tick + Latency(q.clock.frequency));
  }

  // ---------------------------------------------------------------- a loss asks for a resync

  /** From the loop's entry until the first snapshot takes its copy nothing leaves the ring. */
  predicate BeforeCopy(p: Player) {
    || p.phase.Entering? || p.phase.Starting? || p.phase.Trying? || p.phase.Silent? || p.phase.Advancing?
    || (p.phase.Resyncing? && (p.ring.consumer.Holding? || p.ring.consumer.Bounds?))
  }

  ghost predicate RingFull(s: Capture.State)
    requires Capture.InRange(s)
  {
    Ring.Pending(s.head, s.tail) == Ring.CAPACITY
  }

  /** A full-ring drop shows in the counter, or, from before the entry, in the ring's fill. */
  ghost predicate Shown(s: Capture.State, early: bool)
    requires Capture.InRange(s)
  {
    && CaptureSafety.SeenDrops(s) <= s.drops
    && (s.lost && !s.producer.Full? ==> CaptureSafety.SeenDrops(s) < s.drops || (early && RingFull(s)))
    && CaptureTheorems.FullIfLost(s)
  }

  lemma ShownByProducer(s: Capture.State, early: bool)
    requires CaptureSafety.RingSafe(s) && Shown(s, early)
    ensures Shown(Capture.ProducerNext(s), early)
  {
    CaptureTheorems.ProducerKeepsFull(s);
    CaptureSafety.ProducerLeavesConsumer(s);
    if RingFull(s) {
      FullStays(s);
    }
  }

  /** With the ring full the producer has no slot to publish. */
  lemma FullStays(s: Capture.State)
    requires CaptureSafety.RingSafe(s) && RingFull(s)
    ensures RingFull(Capture.ProducerNext(s))
  {
    assert !s.producer.Stored?;
    assert Capture.ProducerNext(s).head == s.head && Capture.ProducerNext(s).tail == s.tail;
  }

  lemma ShownByStart(s: Capture.State, a: Capture.Action, early: bool)
    requires Capture.InRange(s) && CaptureSafety.Starts(a) && Shown(s, early)
    ensures Shown(Capture.Step(s, a), early)
  {
    CaptureSafety.StartFramed(s, a);
  }

  lemma ShownByEntry(s: Capture.State)
    requires Capture.InRange(s) && s.consumer.Entering? && Shown(s, true)
    ensures Shown(Capture.ConsumerNext(s), true)
  {
  }

  /** Without the full ring from before the entry a step keeps the counter telling. */
  lemma ShownByStep(s: Capture.State, a: Capture.Action)
    requires CaptureSafety.Safe(s) && Shown(s, false) && !s.consumer.Entering?
    ensures Shown(Capture.Step(s, a), false)
  {
    CaptureTheorems.StepKeepsLoss(s, a);
    CaptureTheorems.StepKeepsFull(s, a);
  }

  /** The first steps of a snapshot: the copy ends every earlier loss. */
  lemma ShownByCopy(s: Capture.State)
    requires Capture.InRange(s) && (s.consumer.Holding? || s.consumer.Bounds?) && Shown(s, true)
    ensures Shown(Capture.ConsumerNext(s), s.consumer.Holding?)
    ensures Capture.ConsumerNext(s).consumer.Bounds? == s.consumer.Holding?
  {
  }

  lemma ShownBySound(s: Capture.State, after: Transaction.Live, early: bool)
    requires Capture.InRange(s) && Shown(s, early)
    ensures Shown(Capture.Step(s, Capture.Sound(after)), early)
  {
    SoundFrame(s, after);
  }

  ghost predicate LossShown(p: Player)
    requires PlayerOk(p)
  {
    Shown(p.ring, BeforeCopy(p))
  }

  lemma ReadingsAsk(p: Player, now: nat, drops: nat, fill: nat)
    requires PlayerOk(p) && p.phase.Starting?
    requires p.recovery || drops % 0x1_0000_0000 != p.ring.lastDrop % 0x1_0000_0000 || fill >= 6144
    ensures Next(p, Decide(now, drops, fill)).phase.Trying?
  {
  }

  lemma ShownByDecide(p: Player, m: Move)
    requires PlayerOk(p) && LossShown(p) && m.Decide? && TrueReadings(p, m)
    ensures LossShown(Next(p, m))
  {
    if p.phase.Starting? && RingFull(p.ring) {
      ReadingsAsk(p, m.now, m.drops, m.fill);
    }
  }

  lemma ShownByOthers(p: Player, a: Capture.Action)
    requires RingGood(p) && LossShown(p) && ByOthers(a)
    ensures LossShown(Next(p, Others(a)))
  {
    OthersFrame(p.ring, a);
    if a.ProducerStep? {
      ShownByProducer(p.ring, BeforeCopy(p));
    } else {
      ShownByStart(p.ring, a, BeforeCopy(p));
    }
  }

  /** The loop's own steps until a snapshot takes its copy. */
  lemma ShownByEarlyGo(p: Player)
    requires RingGood(p) && PcAgrees(p) && LossShown(p) && BeforeCopy(p)
    ensures LossShown(Next(p, Go))
  {
    if p.phase.Entering? {
      ShownByEntry(p.ring);
      assert Next(p, Go).phase.Starting?;
    } else if p.phase.Trying? {
      ShownByTrying(p);
    } else if p.phase.Resyncing? {
      ShownByResyncing(p);
    }
  }

  lemma ShownByTrying(p: Player)
    requires PlayerOk(p) && PcAgrees(p) && LossShown(p) && p.phase.Trying?
    ensures LossShown(Next(p, Go))
  {
    SnapshotFrame(p.ring);
    ShownByStart(p.ring, Capture.TakeSnapshot, true);
    assert BeforeCopy(Next(p, Go));
  }

  lemma ShownByResyncing(p: Player)
    requires PlayerOk(p) && LossShown(p) && p.phase.Resyncing? && BeforeCopy(p)
    ensures LossShown(Next(p, Go))
  {
    ShownByCopy(p.ring);
    TakenMove(p);
  }

  lemma ShownByGo(p: Player)
    requires RingGood(p) && PcAgrees(p) && LossShown(p)
    ensures LossShown(Next(p, Go))
  {
    if BeforeCopy(p) {
      ShownByEarlyGo(p);
    } else if LoopAction(p).Some? {
      ShownByStep(p.ring, LoopAction(p).value);
    }
  }

  lemma ShownByMove(p: Player, m: Move)
    requires RingGood(p) && PcAgrees(p) && LossShown(p) && TrueReadings(p, m)
    ensures LossShown(Next(p, m))
  {
    match m
    case Others(a) =>
      if ByOthers(a) {
        ShownByOthers(p, a);
      }
    case Decide(_, _, _) => ShownByDecide(p, m);
    case Go => ShownByGo(p);
    case Mix(after) => ShownBySound(p.ring, after, BeforeCopy(p));
    case Play(after) => ShownBySound(p.ring, after, BeforeCopy(p));
  }

  lemma {:induction false} ShownRun(p: Player, moves: seq<Move>)
    requires RingGood(p) && PcAgrees(p) && LossShown(p) && ReadsTruly(p, moves)
    ensures RingGood(Plays(p, moves)) && PcAgrees(Plays(p, moves)) && LossShown(Plays(p, moves))
    decreases |moves|
  {
    if moves != [] {
      RingStaysGood(p, moves[0]);
      PcStays(p, moves[0]);
      ShownByMove(p, moves[0]);
      ShownRun(Next(p, moves[0]), moves[1..]);
    }
  }

  /** A decision on the readings of the moment. */
  function LiveDecide(p: Player): Move
    requires p.ring.head < U32 && p.ring.tail < U32
  {
    Decide(p.ring.now, p.ring.drops, Ring.Pending(p.ring.head, p.ring.tail))
  }

  lemma ShownAsks(p: Player)
    requires PlayerOk(p) && p.phase.Starting? && LossShown(p) && p.ring.lost && p.ring.producer == Capture.Away
    requires p.ring.drops < p.ring.lastDrop + U32 && PcAgrees(p)
    ensures Next(p, LiveDecide(p)).phase.Trying?
  {
    if !RingFull(p.ring) {
      CaptureFate.Differ(p.ring.lastDrop, p.ring.drops - p.ring.lastDrop);
    }
    ReadingsAsk(p, p.ring.now, p.ring.drops, Ring.Pending(p.ring.head, p.ring.tail));
  }

  lemma InitialShown(p0: Player)
    requires Initial(p0)
    ensures RingGood(p0) && PcAgrees(p0) && LossShown(p0) && Owing(p0)
  {
    InitialGood(p0);
  }

  lemma AskedIsOwed(p: Player, m: Move, rest: seq<Move>)
    requires PlayerOk(p) && Owing(p) && Next(p, m).phase.Trying?
    ensures Plays(Next(p, m), rest).phase.Rendering? ==> Resyncs(Next(p, m), rest)
  {
    OwingBy(p, m, Next(p, m).ring);
    OwedUntilResync(Next(p, m), rest);
  }

  /** Over every run whose decisions read counter and ring as they are: a write lost to a full
      ring, before the loop's entry or after, makes the next decision a resync, as long as fewer
      than 2^32 drops came since the remembered one; and from there no frame is rendered before
      a snapshot is complete. */
  lemma LossIsAnswered(p0: Player, moves: seq<Move>, rest: seq<Move>)
    requires Initial(p0) && ReadsTruly(p0, moves)
    requires var p := Plays(p0, moves);
             && p.phase.Starting? && p.ring.lost && p.ring.producer == Capture.Away
             && p.ring.drops < p.ring.lastDrop + U32
    ensures var q := Next(Plays(p0, moves), LiveDecide(Plays(p0, moves)));
            q.phase.Trying? && (Plays(q, rest).phase.Rendering? ==> Resyncs(q, rest))
  {
    var p := Plays(p0, moves);
    InitialShown(p0);
    ShownRun(p0, moves);
    OwingRun(p0, moves);
    ShownAsks(p);
    AskedIsOwed(p, LiveDecide(p), rest);
  }

  // ---------------------------------------------------------------- a pass is bounded

  /** How far a pass has come. */
  predicate Bounded(phase: Phase) {
    && (phase.Draining? ==> phase.done <= 128)
    && (phase.Reading? || phase.Testing? || phase.Popping? ==> phase.done < 128)
  }

  lemma BoundedBy(p: Player, m: Move, ring: Capture.State)
    requires ClockOk(p.clock) && Bounded(p.phase)
    ensures Bounded(Control(p, m, ring).phase)
  {
  }

  /** No pass of any run applies more than 128 events before its frame. */
  lemma {:induction false} BurstIsBounded(p: Player, moves: seq<Move>)
    requires PlayerOk(p) && Bounded(p.phase)
    ensures Bounded(Plays(p, moves).phase)
    decreases |moves|
  {
    if moves != [] {
      BoundedBy(p, moves[0], Next(p, moves[0]).ring);
      BurstIsBounded(Next(p, moves[0]), moves[1..]);
    }
  }
}
