/** No accepted write is missing from a rendered frame: with no full-ring drop since the resync,
    the core latches exactly a prefix of all writes the shadow has noted. */
module PlayerAccounts {
  import opened Words
  import opened PaulaCore
  import opened Registers
  import opened Player
  import opened PlayerSafety
  import opened PlayerTheorems
  import Capture
  import CaptureSafety
  import CaptureTheorems
  import CaptureStamps

  /** An event without its stamp. */
  function Bare(e: Event): Event {
    e.(ticks := 0)
  }

  /** The same writes, stamps aside. */
  ghost predicate SameWrites(a: seq<Event>, b: seq<Event>) {
    |a| == |b| && forall i :: 0 <= i < |a| ==> Bare(a[i]) == Bare(b[i])
  }

  lemma {:induction false} SameWritesSameCore(p: Core, a: seq<Event>, b: seq<Event>)
    requires CoreOk(p) && SameWrites(a, b)
    ensures AppliedAll(p, a) == AppliedAll(p, b)
    decreases |a|
  {
    if a != [] {
      assert Bare(a[0]) == Bare(b[0]);
      assert Applied(p, a[0]) == Applied(p, b[0]);
      SameWritesSameCore(Applied(p, a[0]), a[1..], b[1..]);
    }
  }

  /** The captured events that follow what the resync absorbed, or will once the skip is done. */
  function SinceResync(p: Player): seq<Event> {
    if p.ring.consumer.Copied? || p.ring.consumer.Noticed? then []
    else if p.base <= |p.ring.log| then p.ring.log[p.base..] else []
  }

  /** With no full-ring drop since the resync, the writes noted after what it absorbed are the
      captured events since, and the one in the producer's hands. */
  ghost predicate Accounted(p: Player) {
    !p.ring.lost ==>
      && p.absorbed <= p.ring.noted
      && SameWrites(p.ring.noted[|p.absorbed|..], SinceResync(p) + CaptureSafety.InFlight(p.ring.producer))
  }

  // ---------------------------------------------------------------- the producer

  lemma ProducerAccounts(s: Capture.State)
    requires Capture.InRange(s)
    ensures var s' := Capture.ProducerNext(s);
            && s'.log == (if s.producer.Stored? then s.log + [s.producer.event] else s.log)
            && s'.noted == (if s.producer.Locked? then s.noted + [s.producer.event] else s.noted)
            && (s'.lost <==> s.lost || s'.producer.Full?) && s'.consumer == s.consumer
  {
    CaptureSafety.ProducerLogs(s);
    CaptureSafety.ProducerLeavesConsumer(s);
    CaptureTheorems.ProducerNotes(s);
    ProducerLoses(s);
  }

  lemma ProducerLoses(s: Capture.State)
    requires Capture.InRange(s)
    ensures Capture.ProducerNext(s).lost <==> s.lost || Capture.ProducerNext(s).producer.Full?
  {
  }

  /** What is in the producer's hands, stamps aside. */
  lemma HandsMove(s: Capture.State)
    requires Capture.InRange(s)
    ensures var h, h' := CaptureSafety.InFlight(s.producer), CaptureSafety.InFlight(Capture.ProducerNext(s).producer);
            if s.producer.Locked? then h == [] && h' == [s.producer.event]
            else if s.producer.Stored? then h == [s.producer.event] && h' == []
            else Capture.ProducerNext(s).producer.Full? || SameWrites(h, h')
  {
    var q := Capture.ProducerNext(s).producer;
    match s.producer
    case Away => assert q.Away?;
    case Refused => assert q.Away?;
    case Locked(e) => assert q == Capture.Noted(e);
    case Noted(e) => assert q.Full? || q == Capture.Room(e, s.head);
    case Full(_) => assert q.Leaving?;
    case Room(e, at) => assert q == Capture.Stored(e.(ticks := s.now), at);
    case Stored(_, _) => assert q.Published?;
    case Published => assert q.Leaving?;
    case Leaving => assert q.Away?;
  }

  lemma AccountedByProducer(p: Player)
    requires RingGood(p) && PoppedSince(p) && Accounted(p)
    ensures Accounted(Next(p, Others(Capture.ProducerStep)))
  {
    var r := Next(p, Others(Capture.ProducerStep));
    assert r.ring == Capture.ProducerNext(p.ring);
    ProducerAccounts(p.ring);
    HandsMove(p.ring);
    CapturedAtLeast(p);
    StorerAlone(p.ring);
    if !r.ring.lost && p.ring.producer.Stored? {
      assert SinceResync(r) + [] == SinceResync(p) + [p.ring.producer.event];
    }
  }

  /** While the producer publishes, no snapshot is under way. */
  lemma StorerAlone(s: Capture.State)
    requires CaptureSafety.LockOwned(s)
    ensures s.producer.Stored? ==> !s.consumer.Copied? && !s.consumer.Noticed?
  {
  }

  lemma AccountedByOthers(p: Player, a: Capture.Action)
    requires RingGood(p) && PoppedSince(p) && Accounted(p) && ByOthers(a)
    ensures Accounted(Next(p, Others(a)))
  {
    if a.ProducerStep? {
      AccountedByProducer(p);
    } else {
      BeginningFrame(p.ring, a);
      OthersFrame(p.ring, a);
      assert Next(p, Others(a)) == p.(ring := Capture.Step(p.ring, a));
    }
  }

  /** A counter tick or the beginning of a capture records nothing yet. */
  lemma BeginningFrame(s: Capture.State, a: Capture.Action)
    requires Capture.InRange(s) && (a.Tick? || a.BusCapture?)
    ensures var r := Capture.Step(s, a);
            && r.noted == s.noted && r.log == s.log && r.lost == s.lost
            && CaptureSafety.InFlight(r.producer) == CaptureSafety.InFlight(s.producer)
  {
  }

  // ---------------------------------------------------------------- the loop

  lemma ConsumerLoses(s: Capture.State)
    requires Capture.InRange(s)
    ensures Capture.ConsumerNext(s).lost == (s.lost && !s.consumer.Bounds?)
  {
    var s' := Capture.ConsumerNext(s);
    if s.consumer.Peeked? || s.consumer.Rebuilding? || s.consumer.Used? || s.consumer.Noticed? {
      assert s'.lost == s.lost;
    }
  }

  /** While the consumer holds the lock nothing is in the producer's hands. */
  lemma HandsEmpty(s: Capture.State)
    requires CaptureSafety.LockOwned(s) && CaptureSafety.ConsumerHolds(s.consumer)
    ensures CaptureSafety.InFlight(s.producer) == []
  {
  }

  lemma SkipEmpties(p: Player)
    requires RingGood(p) && p.phase.Resyncing? && p.ring.consumer.Noticed?
    ensures Next(p, Go).base == |p.ring.log|
  {
    Departing(p);
    assert p.ring.log == CaptureSafety.Events(p.ring.departures) + CaptureSafety.Queue(p.ring);
  }

  lemma AccountedByResync(p: Player)
    requires RingGood(p) && PcAgrees(p) && PoppedSince(p) && Accounted(p) && p.phase.Resyncing?
    ensures Accounted(Next(p, Go))
  {
    var r := Next(p, Go);
    TakenMove(p);
    ConsumerMoves(p.ring);
    ConsumerLoses(p.ring);
    CaptureStamps.ConsumerFrame(p.ring);
    if p.ring.consumer.Bounds? || p.ring.consumer.Noticed? {
      HandsEmpty(p.ring);
    }
    if p.ring.consumer.Noticed? {
      SkipEmpties(p);
      assert SinceResync(r) == [];
    } else if p.ring.consumer.Bounds? {
      assert r.absorbed == r.ring.noted;
    }
  }

  lemma AccountedByApplying(p: Player)
    requires RingGood(p) && PcAgrees(p) && Accounted(p) && !p.phase.Resyncing?
    requires LoopAction(p) == Some(Capture.ConsumerStep)
    ensures Accounted(Next(p, Go))
  {
    TakenMove(p);
    ConsumerMoves(p.ring);
    ConsumerLoses(p.ring);
    CaptureStamps.ConsumerFrame(p.ring);
  }

  lemma AccountedByLook(p: Player, m: Move)
    requires PlayerOk(p) && PcAgrees(p) && Accounted(p) && !m.Others?
    requires RingAction(p, m) != Some(Capture.ConsumerStep)
    ensures Accounted(Next(p, m))
  {
    var r := Next(p, m);
    LookFrame(p, m);
    QuietCore(p, m);
    QuietRecords(p, m, r.ring);
    assert SinceResync(r) == SinceResync(p);
  }

  lemma AccountedStays(p: Player, m: Move)
    requires RingGood(p) && PcAgrees(p) && PoppedSince(p) && Accounted(p)
    ensures Accounted(Next(p, m))
  {
    if m.Others? {
      if ByOthers(m.action) {
        AccountedByOthers(p, m.action);
      }
    } else if RingAction(p, m) != Some(Capture.ConsumerStep) {
      AccountedByLook(p, m);
    } else if p.phase.Resyncing? {
      AccountedByResync(p);
    } else {
      AccountedByApplying(p);
    }
  }

  lemma {:induction false} AccountedRun(p: Player, moves: seq<Move>, c0: Core)
    requires Good(p, c0) && Accounted(p)
    ensures Accounted(Plays(p, moves))
    decreases |moves|
  {
    if moves != [] {
      AccountedStays(p, moves[0]);
      MoveKeepsGood(p, moves[0], c0);
      AccountedRun(Next(p, moves[0]), moves[1..], c0);
    }
  }

  // ---------------------------------------------------------------- the prefix

  lemma {:induction false} AppliedAppends(p: Core, first: seq<Event>, rest: seq<Event>)
    requires CoreOk(p)
    ensures AppliedAll(p, first + rest) == AppliedAll(AppliedAll(p, first), rest)
    decreases |first|
  {
    if first == [] {
      assert first + rest == rest;
    } else {
      assert (first + rest)[1..] == first[1..] + rest;
      AppliedAppends(Applied(p, first[0]), first[1..], rest);
    }
  }

  /** How many of the accepted writes the core has latched. */
  function LatchedCount(p: Player): nat {
    |p.absorbed| + if p.base <= |p.ring.departures| then |p.ring.departures| - p.base else 0
  }

  lemma SamePrefix(a: seq<Event>, b: seq<Event>, rest: seq<Event>, n: nat)
    requires SameWrites(a, b + rest) && n <= |b|
    ensures SameWrites(b[..n], a[..n])
  {
    forall i | 0 <= i < n
      ensures Bare(b[i]) == Bare(a[i])
    {
      assert (b + rest)[i] == b[i];
    }
  }

  /** What was popped since the resync is what was noted next. */
  lemma PoppedWereNoted(p: Player)
    requires InCaptureOrder(p) && Accounted(p) && !p.ring.lost && p.ring.consumer.Free?
    ensures |p.absorbed| <= LatchedCount(p) <= |p.ring.noted|
    ensures SameWrites(p.ring.log[p.base..|p.ring.departures|], p.ring.noted[|p.absorbed|..LatchedCount(p)])
  {
    var n, k := |p.absorbed|, |p.ring.departures| - p.base;
    var since, later := SinceResync(p), p.ring.noted[n..];
    SamePrefix(later, since, CaptureSafety.InFlight(p.ring.producer), k);
    assert later[..k] == p.ring.noted[n..LatchedCount(p)];
    assert since[..k] == p.ring.log[p.base..|p.ring.departures|];
  }

  lemma PrefixApplied(p: Player, c0: Core)
    requires CoreOk(c0) && InCaptureOrder(p) && Accounted(p) && !p.ring.lost && p.ring.consumer.Free?
    ensures LatchedCount(p) <= |p.ring.noted|
    ensures AppliedAll(AppliedAll(c0, p.absorbed), p.ring.log[p.base..|p.ring.departures|])
            == AppliedAll(c0, p.ring.noted[..LatchedCount(p)])
  {
    PoppedWereNoted(p);
    JoinApplied(c0, p.absorbed, p.ring.log[p.base..|p.ring.departures|], p.ring.noted, LatchedCount(p));
  }

  lemma JoinApplied(c0: Core, absorbed: seq<Event>, taken: seq<Event>, noted: seq<Event>, m: nat)
    requires CoreOk(c0) && absorbed <= noted && |absorbed| <= m <= |noted|
    requires SameWrites(taken, noted[|absorbed|..m])
    ensures AppliedAll(AppliedAll(c0, absorbed), taken) == AppliedAll(c0, noted[..m])
  {
    SameWritesSameCore(AppliedAll(c0, absorbed), taken, noted[|absorbed|..m]);
    AppliedAppends(c0, absorbed, noted[|absorbed|..m]);
    assert absorbed + noted[|absorbed|..m] == noted[..m];
  }

  /** With no full-ring drop since the resync, a rendered frame plays with exactly a prefix of
      all writes that ever took the lock: those the resync absorbed and those stamped since at
      or before the frame's tick. */
  lemma FramePlaysAPrefix(p0: Player, moves: seq<Move>)
    requires Initial(p0)
    ensures var p := Plays(p0, moves);
            p.phase.Rendering? && !p.ring.lost ==>
              && LatchedCount(p) <= |p.ring.noted|
              && LatchesOf(p.ring.live.core)
                 == LatchesOf(AppliedAll(p0.ring.live.core, p.ring.noted[..LatchedCount(p)]))
  {
    var c0 := p0.ring.live.core;
    InitialGood(p0);
    RunKeepsGood(p0, moves, c0);
    AccountedRun(p0, moves, c0);
    var p := Plays(p0, moves);
    if p.phase.Rendering? && !p.ring.lost {
      DepartedAreCaptured(p);
      RenderedCoreLatches(p, c0);
      PrefixApplied(p, c0);
    }
  }
}
