/** Frame-exact replay, over every run of the audio loop, the producer and the counter. */
module PlayerTheorems {
  import opened Words
  import opened PaulaCore
  import opened Registers
  import opened ReplayClock
  import opened CaptureStamps
  import opened Player
  import opened PlayerSafety
  import Capture
  import CaptureSafety

  // ---------------------------------------------------------------- which events a frame plays

  /** The one event a rendered frame can miss: the producer had stamped it, and not yet
      published it, when the loop looked at the ring for the last time. */
  predicate Slipped(p: Player, i: nat) {
    i == p.seen && p.held.Some?
  }

  /** Of the events captured since the last resync, exactly those stamped at or before the
      frame's tick have been applied; every other one is later. */
  ghost predicate ExactFrame(p: Player) {
    forall i :: p.base <= i < |p.ring.log| && !Slipped(p, i) ==>
      (i < |p.ring.departures| <==> p.ring.log[i].ticks <= p.clock.tick)
  }

  /** What was popped is the captured sequence since the resync, in capture order. */
  ghost predicate InCaptureOrder(p: Player) {
    && p.base <= |p.ring.departures| <= |p.ring.log|
    && CaptureSafety.Events(p.ring.departures[p.base..]) == p.ring.log[p.base..|p.ring.departures|]
    && forall i :: p.base <= i < |p.ring.departures| ==> p.ring.departures[i].Popped?
  }

  lemma DepartedAreCaptured(p: Player)
    requires RingGood(p) && PoppedSince(p)
    ensures InCaptureOrder(p)
    ensures forall i :: 0 <= i < |p.ring.departures| ==> p.ring.log[i] == p.ring.departures[i].event
  {
    var events := CaptureSafety.Events(p.ring.departures);
    assert p.ring.log == events + CaptureSafety.Queue(p.ring);
    assert CaptureSafety.Events(p.ring.departures[p.base..]) == events[p.base..];
    assert p.ring.log[p.base..|p.ring.departures|] == events[p.base..];
  }

  lemma LaterStamps(p: Player, i: nat)
    requires Looked(p) && p.phase.Rendering? && InWindow(p) && Latency(p.clock.frequency) > 0
    requires p.seen <= i < |p.ring.log| && !Slipped(p, i)
    ensures p.ring.log[i].ticks > p.clock.tick
  {
  }

  lemma RenderedFrameIsExact(p: Player, c0: Core)
    requires Good(p, c0) && p.phase.Rendering? && InWindow(p) && Latency(p.clock.frequency) > 0
    ensures ExactFrame(p)
  {
    DepartedAreCaptured(p);
    forall i | p.base <= i < |p.ring.log| && !Slipped(p, i)
      ensures i < |p.ring.departures| <==> p.ring.log[i].ticks <= p.clock.tick
    {
      if i < |p.ring.departures| {
        assert p.ring.departures[i].event.ticks <= p.clock.tick;
      } else if i >= p.seen {
        LaterStamps(p, i);
      }
    }
  }

  lemma RenderedSince(p: Player)
    requires InCaptureOrder(p) && p.ring.consumer.Free?
    ensures AppliedSince(p) == p.ring.log[p.base..|p.ring.departures|]
  {
  }

  lemma RenderedCoreLatches(p: Player, c0: Core)
    requires PlayerOk(p) && PcAgrees(p) && InCaptureOrder(p) && Latched(p, c0) && p.phase.Rendering?
    ensures LatchesOf(p.ring.live.core)
            == LatchesOf(AppliedAll(AppliedAll(c0, p.absorbed), p.ring.log[p.base..|p.ring.departures|]))
  {
    RenderedSince(p);
    LatchedMeans(p, c0);
  }

  /** Frame-exact replay: over every interleaving of the loop with the bus and the counter, with
      any resyncs and silent frames before, whenever a frame is rendered the events popped since
      the last resync are exactly the captured ones stamped at or before the frame's tick, in
      capture order; every pending one is later; and the core latches exactly them on top of
      what the resync absorbed. The producer's one event in hand is named apart. */
  lemma FrameExactReplay(p0: Player, moves: seq<Move>)
    requires Initial(p0)
    ensures var p := Plays(p0, moves);
            p.phase.Rendering? && InWindow(p) && Latency(p.clock.frequency) > 0 ==>
              && ExactFrame(p) && InCaptureOrder(p)
              && LatchesOf(p.ring.live.core)
                 == LatchesOf(AppliedAll(AppliedAll(p0.ring.live.core, p.absorbed),
                                         p.ring.log[p.base..|p.ring.departures|]))
  {
    var c0 := p0.ring.live.core;
    InitialGood(p0);
    RunKeepsGood(p0, moves, c0);
    var p := Plays(p0, moves);
    if p.phase.Rendering? && InWindow(p) && Latency(p.clock.frequency) > 0 {
      RenderedFrameIsExact(p, c0);
      DepartedAreCaptured(p);
      RenderedCoreLatches(p, c0);
    }
  }

  /** No event at all is missed. */
  ghost predicate MissesNothing(p: Player) {
    forall i :: p.base <= i < |p.ring.log| ==>
      (i < |p.ring.departures| <==> p.ring.log[i].ticks <= p.clock.tick)
  }

  /** At the last look the producer held a stamped event that was due, and by now it has
      published it. */
  predicate Slips(p: Player) {
    p.held.Some? && p.held.value.ticks <= p.clock.tick && p.seen < |p.ring.log|
  }

  /** Exactly: a rendered frame misses an event if and only if the producer was holding a due one
      at the last look and has published it since. That event is the one missed, and then the
      producer had sat on it for the whole latency when the loop looked. */
  lemma NothingSlipsIff(p0: Player, moves: seq<Move>)
    requires Initial(p0)
    ensures var p := Plays(p0, moves);
            p.phase.Rendering? && InWindow(p) && Latency(p.clock.frequency) > 0 ==>
              && (MissesNothing(p) <==> !Slips(p))
              && (Slips(p) ==> p.ring.log[p.seen] == p.held.value
                               && p.held.value.ticks + Latency(p.clock.frequency) <= p.lookedAt)
  {
    var c0 := p0.ring.live.core;
    InitialGood(p0);
    RunKeepsGood(p0, moves, c0);
    var p := Plays(p0, moves);
    if p.phase.Rendering? && InWindow(p) && Latency(p.clock.frequency) > 0 {
      RenderedFrameIsExact(p, c0);
      SlipDecides(p);
    }
  }

  lemma SlipDecides(p: Player)
    requires PoppedSince(p) && Looked(p) && p.phase.Rendering? && InWindow(p) && ExactFrame(p)
    ensures MissesNothing(p) <==> !Slips(p)
    ensures Slips(p) ==> p.ring.log[p.seen] == p.held.value
                         && p.held.value.ticks + Latency(p.clock.frequency) <= p.lookedAt
  {
    if p.held.Some? && p.seen < |p.ring.log| {
      assert p.ring.log[p.seen] == p.held.value;
    }
  }

  /** The producer never sits on a stamped event for the whole latency. */
  ghost predicate Prompt(p: Player, moves: seq<Move>)
    requires PlayerOk(p)
    decreases |moves|
  {
    && (p.ring.producer.Stored? ==> p.ring.now < p.ring.producer.event.ticks + Latency(p.clock.frequency))
    && (moves == [] || Prompt(Next(p, moves[0]), moves[1..]))
  }

  predicate HeldBriefly(p: Player) {
    AfterLook(p.phase) && p.held.Some? ==> p.lookedAt < p.held.value.ticks + Latency(p.clock.frequency)
  }

  lemma {:induction false} HeldRun(p: Player, moves: seq<Move>)
    requires PlayerOk(p) && Prompt(p, moves) && HeldBriefly(p)
    ensures HeldBriefly(Plays(p, moves))
    decreases |moves|
  {
    if moves != [] {
      HeldStays(p, moves[0], Next(p, moves[0]).ring);
      HeldRun(Next(p, moves[0]), moves[1..]);
    }
  }

  lemma HeldStays(p: Player, m: Move, ring: Capture.State)
    requires ClockOk(p.clock) && HeldBriefly(p)
    requires p.ring.producer.Stored? ==> p.ring.now < p.ring.producer.event.ticks + Latency(p.clock.frequency)
    ensures HeldBriefly(Control(p, m, ring))
  {
  }

  /** So with a producer that publishes within the latency no rendered frame misses anything. */
  lemma PromptProducerMissesNothing(p0: Player, moves: seq<Move>)
    requires Initial(p0) && Prompt(p0, moves)
    ensures var p := Plays(p0, moves);
            p.phase.Rendering? && InWindow(p) && Latency(p.clock.frequency) > 0 ==> MissesNothing(p)
  {
    HeldRun(p0, moves);
    NothingSlipsIff(p0, moves);
  }

  // ---------------------------------------------------------------- why a frame is silent

  predicate StoppedAtLater(phase: Phase) {
    (phase.Checking? || phase.CheckReading? || phase.CheckTesting?) && phase.why.Later?
  }

  /** After stopping at an event not yet due, the oldest pending event is still not due. */
  ghost predicate StillLater(p: Player) {
    StoppedAtLater(p.phase) ==>
      |p.ring.departures| < |p.ring.log| && !IsDue(p.clock.tick, p.ring.log[|p.ring.departures|])
  }

  lemma LaterBy(p: Player, m: Move, ring: Capture.State)
    requires ClockOk(p.clock) && StillLater(p) && p.ring.log <= ring.log
    requires StoppedAtLater(p.phase) || p.phase.Testing? ==> ring.departures == p.ring.departures
    requires p.phase.Testing? && !FrontIsDue(p) ==>
               |p.ring.departures| < |p.ring.log| && !IsDue(p.clock.tick, p.ring.log[|p.ring.departures|])
    ensures StillLater(Control(p, m, ring))
  {
  }

  lemma LaterStays(p: Player, m: Move)
    requires RingGood(p) && PcAgrees(p) && StillLater(p)
    ensures StillLater(Next(p, m))
  {
    LogGrows(p, m);
    if RingAction(p, m) != Some(Capture.ConsumerStep) {
      QuietFrame(p, m);
    } else {
      Departing(p);
    }
    if p.phase.Testing? && !FrontIsDue(p) {
      FrontIsCaptured(p);
    }
    LaterBy(p, m, Next(p, m).ring);
  }

  lemma {:induction false} LaterRun(p: Player, moves: seq<Move>, c0: Core)
    requires Good(p, c0) && StillLater(p)
    ensures StillLater(Plays(p, moves))
    decreases |moves|
  {
    if moves != [] {
      MoveKeepsGood(p, moves[0], c0);
      LaterStays(p, moves[0]);
      LaterRun(Next(p, moves[0]), moves[1..], c0);
    }
  }

  /** A backlog silences a frame only if the replay had done a full burst, or had found the ring
      empty and a due event was published since. */
  lemma BacklogHasAReason(p0: Player, moves: seq<Move>)
    requires Initial(p0)
    ensures var p := Plays(p0, moves);
            p.phase.CheckTesting? && FrontIsDue(p) ==> p.phase.why.Enough? || p.phase.why.Empty?
  {
    InitialGood(p0);
    RunKeepsGood(p0, moves, p0.ring.live.core);
    LaterRun(p0, moves, p0.ring.live.core);
    var p := Plays(p0, moves);
    if p.phase.CheckTesting? && FrontIsDue(p) {
      FrontIsCaptured(p);
    }
  }

  // ---------------------------------------------------------------- passes over an empty ring

  lemma FirstMove(p: Player, m: Move, rest: seq<Move>)
    requires PlayerOk(p)
    ensures Plays(p, [m] + rest) == Plays(Next(p, m), rest)
  {
    assert ([m] + rest)[1..] == rest;
  }

  lemma QuietStep(p: Player)
    requires PlayerOk(p) && p.ring.head == p.ring.tail
    ensures p.phase.Waiting? && TimeHasCome(p) ==> Next(p, Go) == p.(phase := Draining(0))
    ensures p.phase == Draining(0) ==> Next(p, Go) == p.(phase := Checking(Empty))
    ensures p.phase.Checking? ==> Next(p, Go).phase.Rendering? && Next(p, Go).ring == p.ring
  {
  }

  lemma {:induction false} PlaysOn(p: Player, first: seq<Move>, rest: seq<Move>)
    requires PlayerOk(p)
    ensures Plays(p, first + rest) == Plays(Plays(p, first), rest)
    decreases |first|
  {
    if first == [] {
      assert first + rest == rest;
    } else {
      assert (first + rest)[1..] == first[1..] + rest;
      PlaysOn(Next(p, first[0]), first[1..], rest);
    }
  }

  /** The counter runs on. */
  lemma {:induction false} TimePasses(p: Player, n: nat) returns (moves: seq<Move>)
    requires PlayerOk(p)
    ensures Plays(p, moves) == p.(ring := p.ring.(now := p.ring.now + n))
    decreases n
  {
    if n == 0 {
      moves := [];
    } else {
      var tick := Others(Capture.Tick);
      var rest := TimePasses(Next(p, tick), n - 1);
      moves := [tick] + rest;
      FirstMove(p, tick, rest);
    }
  }

  /** What a pass over an empty ring leaves. */
  ghost predicate PassedOver(p: Player, r: Player) {
    && r.phase == Rendering && r.ring == p.ring && r.clock == p.clock && r.base == p.base
    && r.recovery == p.recovery && r.seen == |p.ring.log| && r.held == Held(p.ring.producer)
  }

  lemma EmptyDrain(p: Player) returns (moves: seq<Move>)
    requires PlayerOk(p) && p.phase == Draining(0) && p.ring.head == p.ring.tail
    ensures PassedOver(p, Plays(p, moves))
  {
    var p1 := p.(phase := Checking(Empty));
    QuietStep(p);
    FirstMove(p, Go, [Go] + []);
    FirstMove(p1, Go, []);
    moves := [Go] + ([Go] + []);
    assert PassedOver(p, Next(p1, Go));
  }

  lemma EmptyWait(p: Player) returns (moves: seq<Move>)
    requires PlayerOk(p) && p.phase == Waiting && p.ring.head == p.ring.tail && TimeHasCome(p)
    ensures PassedOver(p, Plays(p, moves))
  {
    QuietStep(p);
    var rest := EmptyDrain(p.(phase := Draining(0)));
    FirstMove(p, Go, rest);
    moves := [Go] + rest;
  }

  lemma NoResync(p: Player)
    requires PlayerOk(p) && p.phase == Starting && !NeedsResync(p, p.ring.now, p.ring.lastDrop, 0)
    ensures Next(p, Decide(p.ring.now, p.ring.lastDrop, 0)) == p.(phase := Waiting)
  {
  }

  /** From the decision to the rendering of a frame whose time has come, with nothing pending. */
  lemma EmptyPass(p: Player) returns (moves: seq<Move>)
    requires PlayerOk(p) && p.phase == Starting && p.ring.head == p.ring.tail && TimeHasCome(p)
    requires !NeedsResync(p, p.ring.now, p.ring.lastDrop, 0)
    ensures PassedOver(p, Plays(p, moves))
  {
    NoResync(p);
    var rest := EmptyWait(p.(phase := Waiting));
    FirstMove(p, Decide(p.ring.now, p.ring.lastDrop, 0), rest);
    moves := [Decide(p.ring.now, p.ring.lastDrop, 0)] + rest;
  }

  /** The loop is entered, no drop counted before. */
  lemma LoopEntered(p: Player)
    requires PlayerOk(p) && p.phase == Entering && p.ring.consumer == Capture.Entering
    ensures var ring := p.ring.(lastDrop := p.ring.drops, consumer := Capture.Free);
            Next(p, Go) == Entered(p, ring)
  {
    assert Next(p, Go).ring == Capture.ConsumerNext(p.ring);
  }

  lemma FirstFrameInTime(p: Player, now: nat)
    requires PlayerOk(p) && p.phase == Starting && !p.recovery && p.ring.now == now && now < HALF / 2
    requires p.clock == Restarted(now, p.clock.frequency, Latency(p.clock.frequency))
    requires Latency(p.clock.frequency) <= now && p.ring.lastDrop == 0
    ensures TimeHasCome(p) && !NeedsResync(p, p.ring.now, p.ring.lastDrop, 0)
  {
    DueAgrees(now, p.clock.tick + Latency(p.clock.frequency));
    LateAgrees(p.clock.tick, now, Latency(p.clock.frequency), MaxLag(p.clock.frequency));
  }

  /** Frames are rendered: the shortest pass, entered after the latency with nothing captured. */
  lemma ShortestPass(p0: Player) returns (moves: seq<Move>)
    requires Initial(p0) && Latency(p0.clock.frequency) <= p0.ring.now < HALF / 2
    ensures Plays(p0, moves).phase.Rendering? && Plays(p0, moves).ring == p0.ring.(consumer := Capture.Free)
  {
    LoopEntered(p0);
    var p := Next(p0, Go);
    FirstFrameInTime(p, p0.ring.now);
    var rest := EmptyPass(p);
    FirstMove(p0, Go, rest);
    moves := [Go] + rest;
  }

  // ---------------------------------------------------------------- a frame that misses an event

  /** The producer takes the lock, notes the event, finds room and stores it stamped. */
  lemma EventStored(p: Player, e: Event) returns (moves: seq<Move>)
    requires PlayerOk(p) && p.ring.producer == Capture.Away && !p.ring.lock && BusEvent(e)
    requires p.ring.head == p.ring.tail
    ensures var r := Plays(p, moves);
            && r == p.(ring := r.ring)
            && r.ring.producer == Capture.Stored(e.(ticks := p.ring.now), p.ring.head)
            && r.ring.head == p.ring.head && r.ring.tail == p.ring.tail && r.ring.now == p.ring.now
            && r.ring.log == p.ring.log && r.ring.departures == p.ring.departures
            && r.ring.lastDrop == p.ring.lastDrop && r.ring.consumer == p.ring.consumer
  {
    var bus, step := Others(Capture.BusCapture(e)), Others(Capture.ProducerStep);
    var p1 := Next(p, bus);
    assert p1.ring.producer == Capture.Locked(e);
    var p2 := Next(p1, step);
    assert p2.ring.producer == Capture.Noted(e);
    var p3 := Next(p2, step);
    assert p3.ring.producer == Capture.Room(e, p.ring.head);
    var p4 := Next(p3, step);
    moves := [bus] + ([step] + ([step] + ([step] + [])));
    FirstMove(p, bus, [step] + ([step] + ([step] + [])));
    FirstMove(p1, step, [step] + ([step] + []));
    FirstMove(p2, step, [step] + []);
    FirstMove(p3, step, []);
    assert Plays(p, moves) == p4;
  }

  /** The producer sits on a stamped event over an empty ring, and the loop is on time. */
  ghost predicate Sitting(p: Player, e: Event) {
    && PlayerOk(p) && p.phase == Starting && !p.recovery && p.base == 0
    && p.ring.producer == Capture.Stored(e, p.ring.head)
    && p.ring.head == p.ring.tail && p.ring.log == [] && p.ring.departures == [] && p.ring.lastDrop == 0
    && FRAME_HZ <= p.clock.frequency && e.ticks < HALF / 2
    && p.clock.tick <= e.ticks + p.clock.frequency && p.ring.now <= e.ticks + 2 * p.clock.frequency
    && p.ring.now <= p.clock.tick + Latency(p.clock.frequency) + MaxLag(p.clock.frequency)
  }

  lemma SittingStarts(p0: Player, e: Event) returns (moves: seq<Move>)
    requires Initial(p0) && BusEvent(e) && p0.ring.now < HALF / 2 && FRAME_HZ <= p0.clock.frequency
    ensures Sitting(Plays(p0, moves), e.(ticks := p0.ring.now))
  {
    LoopEntered(p0);
    var p := Next(p0, Go);
    var rest := EventStored(p, e);
    FirstMove(p0, Go, rest);
    moves := [Go] + rest;
  }

  lemma SittingWaits(p: Player, e: Event) returns (moves: seq<Move>)
    requires Sitting(p, e)
    ensures var q := Plays(p, moves);
            && Sitting(q, e) && q.clock == p.clock && q.clock.tick + Latency(q.clock.frequency) <= q.ring.now
  {
    var wait := p.clock.tick + Latency(p.clock.frequency) - p.ring.now;
    moves := TimePasses(p, if wait < 0 then 0 else wait);
  }

  lemma SittingInTime(q: Player, e: Event)
    requires Sitting(q, e) && q.clock.tick + Latency(q.clock.frequency) <= q.ring.now
    ensures TimeHasCome(q) && !NeedsResync(q, q.ring.now, q.ring.lastDrop, 0)
  {
    DueAgrees(q.ring.now, q.clock.tick + Latency(q.clock.frequency));
    LateAgrees(q.clock.tick, q.ring.now, Latency(q.clock.frequency), MaxLag(q.clock.frequency));
  }

  /** A pass over the empty ring, once its time has come. */
  lemma SittingPasses(p: Player, e: Event) returns (moves: seq<Move>, q: Player)
    requires Sitting(p, e)
    ensures Sitting(q, e) && q.clock == p.clock && PassedOver(q, Plays(p, moves))
  {
    var first := SittingWaits(p, e);
    q := Plays(p, first);
    SittingInTime(q, e);
    var rest := EmptyPass(q);
    PlaysOn(p, first, rest);
    moves := first + rest;
  }

  /** The sound is played and the clock moves on. */
  lemma FrameEnds(r: Player) returns (moves: seq<Move>)
    requires PlayerOk(r) && r.phase == Rendering
    ensures var p := Plays(r, moves);
            p == r.(ring := p.ring, clock := Advanced(r.clock), phase := Starting) && p.ring == r.ring
  {
    var play := Play(r.ring.live);
    FramePlayed(r);
    ClockMovesOn(r.(phase := Advancing));
    FirstMove(r, play, [Go] + []);
    FirstMove(r.(phase := Advancing), Go, []);
    moves := [play] + ([Go] + []);
  }

  lemma FramePlayed(r: Player)
    requires PlayerOk(r) && r.phase == Rendering
    ensures Next(r, Play(r.ring.live)) == r.(phase := Advancing)
  {
    assert Capture.Step(r.ring, Capture.Sound(r.ring.live)) == r.ring;
  }

  lemma ClockMovesOn(r: Player)
    requires PlayerOk(r) && r.phase == Advancing
    ensures Next(r, Go) == r.(clock := Advanced(r.clock), phase := Starting)
  {
  }

  lemma FrameDone(q: Player, r: Player, e: Event)
    requires Sitting(q, e) && PlayerOk(r) && PassedOver(q, r) && q.clock.tick < e.ticks
    ensures var p := r.(clock := Advanced(r.clock), phase := Starting);
            Sitting(p, e) && q.clock.tick < p.clock.tick
  {
  }

  /** Frame after frame passes until the stamp is due. */
  lemma FramesPass(p: Player, e: Event) returns (moves: seq<Move>)
    requires Sitting(p, e)
    ensures Sitting(Plays(p, moves), e) && e.ticks <= Plays(p, moves).clock.tick
    decreases e.ticks - p.clock.tick
  {
    if e.ticks <= p.clock.tick {
      moves := [];
    } else {
      var pass, q := SittingPasses(p, e);
      var r := Plays(p, pass);
      var done := FrameEnds(r);
      FrameDone(q, r, e);
      var p' := Plays(r, done);
      var rest := FramesPass(p', e);
      PlaysOn(p, pass, done + rest);
      PlaysOn(r, done, rest);
      moves := pass + (done + rest);
    }
  }

  lemma HeldIsPublished(q: Player, r: Player, e: Event)
    requires Sitting(q, e) && PassedOver(q, r) && PlayerOk(r) && e.ticks <= q.clock.tick
    ensures var p := Next(r, Others(Capture.ProducerStep));
            && p.phase.Rendering? && InWindow(p) && Slips(p) && !MissesNothing(p)
            && p.ring.log == [e] && p.ring.departures == []
  {
    var p := Next(r, Others(Capture.ProducerStep));
    assert p == r.(ring := Capture.ProducerNext(r.ring));
    assert p.ring.log == [e];
    assert !(0 < |p.ring.departures| <==> p.ring.log[0].ticks <= p.clock.tick);
  }

  /** It happens, from any start and for any write: the producer stamps the
      write and stands still, frames pass until the stamp is due, the loop finds the ring empty
      and renders, and only then is the write published. */
  lemma SlipHappens(p0: Player, e: Event) returns (moves: seq<Move>)
    requires Initial(p0) && BusEvent(e) && p0.ring.now < HALF / 2 && FRAME_HZ <= p0.clock.frequency
    ensures var p := Plays(p0, moves);
            && p.phase.Rendering? && InWindow(p) && Slips(p) && !MissesNothing(p)
            && p.ring.log == [e.(ticks := p0.ring.now)] && p.ring.departures == []
  {
    var stamped := e.(ticks := p0.ring.now);
    var store := SittingStarts(p0, e);
    var p1 := Plays(p0, store);
    var frames := FramesPass(p1, stamped);
    var p2 := Plays(p1, frames);
    var pass, q := SittingPasses(p2, stamped);
    SlipPublished(p2, q, pass, stamped);
    var rest := pass + [Others(Capture.ProducerStep)];
    PlaysOn(p0, store, frames + rest);
    PlaysOn(p1, frames, rest);
    moves := store + (frames + rest);
  }

  lemma SlipPublished(p: Player, q: Player, pass: seq<Move>, e: Event)
    requires PlayerOk(p) && Sitting(q, e) && PassedOver(q, Plays(p, pass)) && e.ticks <= q.clock.tick
    ensures var r := Plays(p, pass + [Others(Capture.ProducerStep)]);
            && r.phase.Rendering? && InWindow(r) && Slips(r) && !MissesNothing(r)
            && r.ring.log == [e] && r.ring.departures == []
  {
    var r, publish := Plays(p, pass), Others(Capture.ProducerStep);
    HeldIsPublished(q, r, e);
    PlaysOn(p, pass, [publish]);
    FirstMove(r, publish, []);
    assert [publish] == [publish] + [];
  }
}
