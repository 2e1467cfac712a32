/** What becomes of an offered write: exactly the writes that find the lock free reach the
    shadow, and exactly the drops counted since the last snapshot show in the drop counters. */
module CaptureFate {
  import opened Words
  import opened Registers
  import opened Capture
  import opened CaptureSafety
  import opened CaptureTheorems

  /** No further write is offered. */
  predicate NoNewCapture(actions: seq<Action>) {
    forall i :: 0 <= i < |actions| ==> !actions[i].BusCapture?
  }

  /** Where the producer can be after offering e when the noted writes were `before`. */
  ghost predicate OnItsWay(s: State, e: Event, before: seq<Event>, refused: bool) {
    if refused then s.noted == before && (s.producer.Refused? || s.producer.Away?)
    else
      !s.producer.Refused?
      && (if s.producer.Locked? then s.noted == before && s.producer.event == e else s.noted == before + [e])
  }

  lemma ProducerOnItsWay(s: State, e: Event, before: seq<Event>, refused: bool)
    requires InRange(s) && OnItsWay(s, e, before, refused)
    ensures OnItsWay(ProducerNext(s), e, before, refused)
  {
    ProducerNotes(s);
    var p := ProducerNext(s).producer;
    match s.producer
    case Away => assert p.Away?;
    case Refused => assert p.Away?;
    case Locked(_) => assert p.Noted?;
    case Noted(_) => assert p.Full? || p.Room?;
    case Full(_) => assert p.Leaving?;
    case Room(_, _) => assert p.Stored?;
    case Stored(_, _) => assert p.Published?;
    case Published => assert p.Leaving?;
    case Leaving => assert p.Away?;
  }

  lemma OthersLeaveProducer(s: State, a: Action)
    requires InRange(s) && !a.ProducerStep? && !a.BusCapture?
    ensures Step(s, a).producer == s.producer && Step(s, a).noted == s.noted
  {
    OthersNoteNothing(s, a);
  }

  lemma {:induction false} WayRun(s: State, actions: seq<Action>, e: Event, before: seq<Event>, refused: bool)
    requires InRange(s) && OnItsWay(s, e, before, refused) && NoNewCapture(actions)
    ensures OnItsWay(Run(s, actions), e, before, refused)
    decreases |actions|
  {
    if actions != [] {
      if actions[0].ProducerStep? {
        ProducerOnItsWay(s, e, before, refused);
        assert Step(s, actions[0]) == ProducerNext(s);
      } else {
        OthersLeaveProducer(s, actions[0]);
      }
      WayRun(Step(s, actions[0]), actions[1..], e, before, refused);
    }
  }

  /** Exactly: in every interleaving from the offer of a write to the producer's return, the
      write reaches the shadow if and only if the lock was free when it was offered. */
  lemma NotedIffLockFree(s: State, e: Event, actions: seq<Action>)
    requires InRange(s) && s.producer == Away && BusEvent(e) && NoNewCapture(actions)
    requires Run(Step(s, BusCapture(e)), actions).producer == Away
    ensures Run(Step(s, BusCapture(e)), actions).noted == if s.lock then s.noted else s.noted + [e]
  {
    WayRun(Step(s, BusCapture(e)), actions, e, s.noted, s.lock);
  }

  // ---------------------------------------------------------------- the drop counters

  /** Drops counted since the loop's entry or a snapshot last read the counter, n of them before
      the run. */
  ghost function DropsSince(s: State, actions: seq<Action>, n: nat): nat
    requires InRange(s)
    decreases |actions|
  {
    if actions == [] then n
    else
      var counted := actions[0].ProducerStep? && (s.producer.Refused? || s.producer.Full?);
      var read := actions[0].ConsumerStep? && (s.consumer.Copied? || s.consumer.Entering?);
      DropsSince(Step(s, actions[0]), actions[1..], if read then 0 else if counted then n + 1 else n)
  }

  lemma ProducerDrops(s: State)
    requires InRange(s)
    ensures ProducerNext(s).drops == s.drops + (if s.producer.Refused? || s.producer.Full? then 1 else 0)
    ensures SeenDrops(ProducerNext(s)) == SeenDrops(s)
  {
    ProducerLeavesConsumer(s);
    if s.producer.Refused? || s.producer.Full? {
      assert ProducerNext(s).drops == s.drops + 1;
    }
  }

  lemma ConsumerDrops(s: State)
    requires InRange(s)
    ensures ConsumerNext(s).drops == s.drops
    ensures SeenDrops(ConsumerNext(s)) ==
            if s.consumer.Copied? || s.consumer.Entering? then s.drops else SeenDrops(s)
  {
    var s' := ConsumerNext(s);
    match s.consumer
    case Entering => assert s'.lastDrop == s.drops && s'.consumer.Free?;
    case Free => assert s' == s;
    case Found => assert s'.consumer.Peeked?;
    case Peeked(_) => assert s'.consumer.Used?;
    case Used(_) => assert s'.consumer.Free?;
    case Holding => assert s'.consumer.Bounds?;
    case Bounds(_) => assert s'.consumer.Copied?;
    case Copied(h, shadow) => assert s'.consumer == Noticed(h, shadow, s.drops);
    case Noticed(_, shadow, drops) => assert s'.consumer == Moved(shadow, drops);
    case Moved(shadow, drops) => assert s'.consumer == Rebuilding(shadow, drops);
    case Rebuilding(_, drops) => assert s'.lastDrop == drops;
  }

  lemma OtherDrops(s: State, a: Action)
    requires InRange(s) && !a.ProducerStep? && !a.ConsumerStep?
    ensures Step(s, a).drops == s.drops && SeenDrops(Step(s, a)) == SeenDrops(s)
  {
  }

  lemma {:induction false} DropsRun(s: State, actions: seq<Action>, n: nat)
    requires InRange(s) && SeenDrops(s) + n == s.drops
    ensures SeenDrops(Run(s, actions)) + DropsSince(s, actions, n) == Run(s, actions).drops
    decreases |actions|
  {
    if actions != [] {
      var a := actions[0];
      if a.ProducerStep? {
        ProducerDrops(s);
        assert Step(s, a) == ProducerNext(s);
      } else if a.ConsumerStep? {
        ConsumerDrops(s);
        assert Step(s, a) == ConsumerNext(s);
      } else {
        OtherDrops(s, a);
      }
      var counted := a.ProducerStep? && (s.producer.Refused? || s.producer.Full?);
      var read := a.ConsumerStep? && (s.consumer.Copied? || s.consumer.Entering?);
      DropsRun(Step(s, a), actions[1..], if read then 0 else if counted then n + 1 else n);
    }
  }

  /** Exactly: at rest the remembered drop counter differs from the live one, so that the next
      pass asks for a resync, if and only if a drop was counted after the loop's entry and the
      last snapshot that read the counter, of full rings and refusals alike, as long as fewer than 2^32 were. */
  lemma CountersDifferIff(s0: State, actions: seq<Action>)
    requires Initial(s0) && AtRest(Run(s0, actions)) && DropsSince(s0, actions, 0) < U32
    ensures var s := Run(s0, actions);
            Dropped(s.drops) != Dropped(s.lastDrop) <==> DropsSince(s0, actions, 0) > 0
  {
    DropsRun(s0, actions, 0);
    RestingDiffer(Run(s0, actions), DropsSince(s0, actions, 0));
  }

  lemma RestingDiffer(s: State, n: nat)
    requires AtRest(s) && SeenDrops(s) + n == s.drops && n < U32
    ensures Dropped(s.drops) != Dropped(s.lastDrop) <==> n > 0
  {
    Differ(s.lastDrop, n);
  }

  lemma Differ(a: nat, n: nat)
    requires n < U32
    ensures Dropped(a + n) != Dropped(a) <==> n > 0
  {
  }
}
