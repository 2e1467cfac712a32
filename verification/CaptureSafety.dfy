/** The inductive invariant of the event ring, agent by agent. */
module CaptureSafety {
  import opened Words
  import opened PaulaCore
  import opened Registers
  import opened Capture
  import Transaction
  import Ring

  function Queue(s: State): seq<Event>
    requires Shaped(s)
  {
    Ring.Live(s.slots, s.head, s.tail)
  }

  // ---------------------------------------------------------------- the lock

  predicate ProducerHolds(p: Producer) {
    !p.Away? && !p.Refused?
  }

  predicate ConsumerHolds(c: Consumer) {
    c.Holding? || c.Bounds? || c.Copied? || c.Noticed? || c.Moved?
  }

  ghost predicate LockOwned(s: State) {
    && (s.lock <==> ProducerHolds(s.producer) || ConsumerHolds(s.consumer))
    && !(ProducerHolds(s.producer) && ConsumerHolds(s.consumer))
  }

  // ---------------------------------------------------------------- the ring

  ghost predicate ProducerOwns(s: State)
    requires Shaped(s)
  {
    && Ring.Pending(s.head, s.tail) <= Ring.CAPACITY
    && (s.producer.Room? || s.producer.Stored? ==>
          s.producer.at == s.head && Ring.Pending(s.head, s.tail) < Ring.CAPACITY)
    && (s.producer.Stored? ==> s.slots[s.head % Ring.CAPACITY] == s.producer.event)
  }

  ghost predicate ConsumerOwns(s: State)
    requires Shaped(s)
  {
    && (s.consumer.Found? ==> Queue(s) != [])
    && (s.consumer.Peeked? || s.consumer.Used? ==> Queue(s) != [] && Queue(s)[0] == s.consumer.event)
    && (s.consumer.Bounds? || s.consumer.Copied? || s.consumer.Noticed? ==> s.consumer.h == s.head)
    && (s.consumer.Copied? || s.consumer.Noticed? || s.consumer.Moved? ==>
          s.consumer.shadow == s.latest && !s.lost)
  }

  function Events(departures: seq<Departure>): (r: seq<Event>)
    ensures |r| == |departures|
    ensures forall i :: 0 <= i < |r| ==> r[i] == departures[i].event
  {
    seq(|departures|, i requires 0 <= i < |departures| => departures[i].event)
  }

  /** Departed events followed by pending ones are the captured ones, in order. */
  ghost predicate Conserved(s: State)
    requires Shaped(s)
  {
    s.log == Events(s.departures) + Queue(s)
  }

  function Uncounted(p: Producer): nat {
    if p.Refused? || p.Locked? || p.Noted? || p.Full? || p.Room? || p.Stored? then 1 else 0
  }

  ghost predicate Counted(s: State) {
    && s.captures + (if s.producer.Published? then 1 else 0) == |s.log|
    && s.offered == |s.log| + s.drops + Uncounted(s.producer)
  }

  // ---------------------------------------------------------------- the registers

  /** The core the consumer has, or will have once it rebuilds from the copy it holds. */
  function Base(s: State): (p: Core)
    requires InRange(s)
    ensures CoreOk(p)
  {
    var c := s.consumer;
    if c.Copied? || c.Noticed? || c.Moved? || c.Rebuilding? then Restored(s.live.core, c.shadow)
    else s.live.core
  }

  /** The queued events still to be applied to it. */
  function Remaining(s: State): seq<Event>
    requires InRange(s)
  {
    if s.consumer.Copied? || s.consumer.Noticed? then []
    else if s.consumer.Used? && Queue(s) != [] then Queue(s)[1..]
    else Queue(s)
  }

  /** A captured event noted in the shadow and not yet in the queue. */
  function InFlight(p: Producer): seq<Event> {
    if p.Noted? || p.Room? || p.Stored? then [p.event] else []
  }

  ghost predicate Synced(s: State)
    requires InRange(s)
  {
    !s.lost ==> Tracks(AppliedAll(Base(s), Remaining(s) + InFlight(s.producer)), s.latest)
  }

  function SeenDrops(s: State): nat {
    if s.consumer.Noticed? || s.consumer.Moved? || s.consumer.Rebuilding? then s.consumer.drops
    else s.lastDrop
  }

  /** A full-ring drop is counted, unless the producer is about to. */
  ghost predicate LossNoticed(s: State) {
    SeenDrops(s) <= s.drops && (s.lost && !s.producer.Full? ==> SeenDrops(s) < s.drops)
  }

  ghost predicate RingSafe(s: State) {
    InRange(s) && LockOwned(s) && ProducerOwns(s) && ConsumerOwns(s)
  }

  ghost predicate Safe(s: State) {
    RingSafe(s) && Conserved(s) && Counted(s) && Synced(s)
  }

  // ---------------------------------------------------------------- queue movement

  lemma StoredSlot(s: State)
    requires InRange(s) && ProducerOwns(s) && s.producer.Room?
    ensures Queue(ProducerNext(s)) == Queue(s)
  {
    Ring.StoreKeepsLive(s.slots, s.head, s.tail, s.producer.event.(ticks := s.now));
  }

  lemma PublishedSlot(s: State)
    requires InRange(s) && ProducerOwns(s) && s.producer.Stored?
    ensures Queue(ProducerNext(s)) == Queue(s) + [s.producer.event]
  {
    Ring.PublishAppends(s.slots, s.head, s.tail);
  }

  /** The producer appends its event when it publishes and otherwise leaves the queue alone. */
  lemma ProducerQueue(s: State)
    requires InRange(s) && ProducerOwns(s)
    ensures Queue(ProducerNext(s)) ==
            if s.producer.Stored? then Queue(s) + [s.producer.event] else Queue(s)
  {
    if s.producer.Room? {
      StoredSlot(s);
    } else if s.producer.Stored? {
      PublishedSlot(s);
    }
  }

  /** The consumer removes the event it applied, or the whole queue. */
  lemma ConsumerQueue(s: State)
    requires InRange(s) && ConsumerOwns(s)
    ensures Queue(ConsumerNext(s)) ==
            if s.consumer.Used? then Queue(s)[1..] else if s.consumer.Noticed? then [] else Queue(s)
  {
    ConsumerMovesTail(s);
    if s.consumer.Used? {
      assert Ring.Pending(s.head, s.tail) > 0;
      Ring.PopRemovesFirst(s.slots, s.head, s.tail);
    } else if s.consumer.Noticed? {
      assert Ring.Live(s.slots, s.head, s.head) == [];
    }
  }

  lemma ConsumerMovesTail(s: State)
    requires InRange(s)
    ensures var s' := ConsumerNext(s);
            && s'.slots == s.slots && s'.head == s.head
            && s'.tail == if s.consumer.Used? && s.head != s.tail then Ring.Next(s.tail)
                          else if s.consumer.Noticed? then s.consumer.h else s.tail
  {
    var s' := ConsumerNext(s);
    match s.consumer
    case Used(_) => assert s'.head == s.head;
    case Noticed(h, _, _) => assert s'.tail == h;
    case Peeked(_) => assert s'.tail == s.tail;
    case Rebuilding(_, _) => assert s'.tail == s.tail;
    case _ => assert s'.tail == s.tail;
  }

  // ---------------------------------------------------------------- the producer

  lemma ProducerKeepsRing(s: State)
    requires RingSafe(s)
    ensures RingSafe(ProducerNext(s))
  {
    ProducerKeepsLock(s);
    ProducerKeepsSlots(s);
    ProducerKeepsFront(s);
  }

  lemma ProducerKeepsLock(s: State)
    requires InRange(s) && LockOwned(s)
    ensures LockOwned(ProducerNext(s))
  {
    ProducerLeavesConsumer(s);
  }

  lemma ProducerKeepsSlots(s: State)
    requires InRange(s) && ProducerOwns(s)
    ensures ProducerOwns(ProducerNext(s))
  {
    var s' := ProducerNext(s);
    ProducerQueue(s);
    assert |Queue(s)| == Ring.Pending(s.head, s.tail) && |Queue(s')| == Ring.Pending(s'.head, s'.tail);
  }

  /** What the consumer relies on: the front of the queue, and while it holds the lock the head
      and the shadow. */
  lemma ProducerKeepsFront(s: State)
    requires RingSafe(s)
    ensures ConsumerOwns(ProducerNext(s))
  {
    ProducerQueue(s);
    ProducerLeavesConsumer(s);
    if ConsumerHolds(s.consumer) {
      ProducerWaits(s);
    }
  }

  /** With the lock taken elsewhere the producer can only count a refusal. */
  lemma ProducerWaits(s: State)
    requires InRange(s) && (s.producer.Away? || s.producer.Refused?)
    ensures var s' := ProducerNext(s); s'.head == s.head && s'.latest == s.latest && s'.lost == s.lost
  {
  }

  lemma ProducerKeepsCount(s: State)
    requires InRange(s) && ProducerOwns(s) && Conserved(s) && Counted(s)
    ensures Conserved(ProducerNext(s)) && Counted(ProducerNext(s))
  {
    ProducerQueue(s);
    ProducerCounts(s);
    ProducerLogs(s);
    var s' := ProducerNext(s);
    if s.producer.Stored? {
      assert s'.log == Events(s.departures) + (Queue(s) + [s.producer.event]);
    }
  }

  lemma ProducerLogs(s: State)
    requires InRange(s)
    ensures ProducerNext(s).departures == s.departures
    ensures ProducerNext(s).log == if s.producer.Stored? then s.log + [s.producer.event] else s.log
  {
  }

  lemma ProducerCounts(s: State)
    requires InRange(s) && Counted(s)
    ensures Counted(ProducerNext(s))
  {
    ProducerLogs(s);
  }

  lemma NotedSynced(s: State)
    requires RingSafe(s) && Synced(s) && s.producer.Locked?
    ensures Synced(ProducerNext(s))
  {
    var e := s.producer.event;
    if !s.lost {
      assert Remaining(s) + [] == Remaining(s);
      AllExtends(Base(s), Remaining(s), e);
      ShadowTracksApply(AppliedAll(Base(s), Remaining(s)), s.latest, e);
    }
  }

  /** The stamp an event gets when it is stored does not matter to the core. */
  lemma StampedSynced(s: State)
    requires RingSafe(s) && Synced(s) && s.producer.Room?
    ensures Synced(ProducerNext(s))
  {
    var e, todo := s.producer.event, Remaining(s);
    ProducerForeseen(s);
    AllExtends(Base(s), todo, e);
    AllExtends(Base(s), todo, e.(ticks := s.now));
    assert Applied(AppliedAll(Base(s), todo), e) == Applied(AppliedAll(Base(s), todo), e.(ticks := s.now));
  }

  lemma PublishedSynced(s: State)
    requires RingSafe(s) && Synced(s) && s.producer.Stored?
    ensures Synced(ProducerNext(s))
  {
    var s' := ProducerNext(s);
    PublishedSlot(s);
    assert Remaining(s') + InFlight(s'.producer) == Remaining(s) + InFlight(s.producer);
  }

  lemma ProducerForeseen(s: State)
    requires InRange(s) && ProducerOwns(s) && !s.producer.Stored?
    ensures Remaining(ProducerNext(s)) == Remaining(s) && Base(ProducerNext(s)) == Base(s)
  {
    ProducerQueue(s);
    ProducerLeavesConsumer(s);
    SameBase(s, ProducerNext(s));
  }

  lemma ProducerLeavesConsumer(s: State)
    requires InRange(s)
    ensures ProducerNext(s).consumer == s.consumer && ProducerNext(s).live == s.live
  {
  }

  lemma ProducerKeepsSync(s: State)
    requires RingSafe(s) && Synced(s)
    ensures Synced(ProducerNext(s))
  {
    if s.producer.Locked? {
      NotedSynced(s);
    } else if s.producer.Stored? {
      PublishedSynced(s);
    } else if s.producer.Room? {
      StampedSynced(s);
    } else if !ProducerNext(s).producer.Full? {
      ProducerForeseen(s);
      SyncFramed(s, ProducerNext(s));
    }
  }

  lemma ProducerKeepsSafe(s: State)
    requires Safe(s)
    ensures Safe(ProducerNext(s))
  {
    ProducerKeepsRing(s);
    ProducerKeepsCount(s);
    ProducerKeepsSync(s);
  }

  // ---------------------------------------------------------------- the consumer

  lemma ConsumerKeepsRing(s: State)
    requires RingSafe(s)
    ensures RingSafe(ConsumerNext(s))
  {
    ConsumerKeepsLock(s);
    ConsumerKeepsBounds(s);
    ConsumerKeepsOwn(s);
  }

  /** The consumer gives the lock back in one step and no other touches it. */
  lemma ConsumerUnlocks(s: State)
    requires InRange(s)
    ensures ConsumerNext(s).producer == s.producer && ConsumerNext(s).lock == (s.lock && !s.consumer.Moved?)
  {
    var s' := ConsumerNext(s);
    if s.consumer.Peeked? || s.consumer.Rebuilding? {
      assert s'.lock == s.lock && s'.producer == s.producer;
    } else if s.consumer.Used? || s.consumer.Noticed? {
      assert s'.lock == s.lock && s'.producer == s.producer;
    }
  }

  lemma ConsumerLeavesLock(s: State)
    requires InRange(s)
    ensures ConsumerHolds(ConsumerNext(s).consumer) == (ConsumerHolds(s.consumer) && !s.consumer.Moved?)
  {
    var c := ConsumerNext(s).consumer;
    match s.consumer
    case Entering => assert c == Free;
    case Free => assert c == Free;
    case Found => assert c.Peeked?;
    case Peeked(_) => assert c.Used?;
    case Used(_) => assert c == Free;
    case Holding => assert c.Bounds?;
    case Bounds(_) => assert c.Copied?;
    case Copied(_, _) => assert c.Noticed?;
    case Noticed(_, _, _) => assert c.Moved?;
    case Moved(_, _) => assert c.Rebuilding?;
    case Rebuilding(_, _) => assert c == Free;
  }

  lemma ConsumerKeepsLock(s: State)
    requires InRange(s) && LockOwned(s)
    ensures LockOwned(ConsumerNext(s))
  {
    ConsumerUnlocks(s);
    ConsumerLeavesLock(s);
  }

  lemma ConsumerKeepsBounds(s: State)
    requires InRange(s) && ProducerOwns(s) && ConsumerOwns(s)
    ensures ProducerOwns(ConsumerNext(s))
  {
    var s' := ConsumerNext(s);
    ConsumerQueue(s);
    assert |Queue(s)| == Ring.Pending(s.head, s.tail) && |Queue(s')| == Ring.Pending(s'.head, s'.tail);
    assert s'.producer == s.producer && s'.head == s.head && s'.slots == s.slots;
  }

  lemma ConsumerKeepsOwn(s: State)
    requires InRange(s) && ConsumerOwns(s)
    ensures ConsumerOwns(ConsumerNext(s))
  {
    ConsumerQueue(s);
  }

  lemma FirstDeparts(log: seq<Event>, departures: seq<Departure>, queue: seq<Event>)
    requires log == Events(departures) + queue && queue != []
    ensures log == Events(departures + [Popped(queue[0])]) + queue[1..]
  {
    assert Events(departures + [Popped(queue[0])]) == Events(departures) + [queue[0]];
  }

  lemma PopConserves(s: State)
    requires InRange(s) && ConsumerOwns(s) && Conserved(s) && s.consumer.Used?
    ensures Conserved(ConsumerNext(s))
  {
    ConsumerQueue(s);
    FirstDeparts(s.log, s.departures, Queue(s));
    assert s.head != s.tail;
  }

  lemma SkipConserves(s: State)
    requires InRange(s) && ConsumerOwns(s) && Conserved(s) && s.consumer.Noticed?
    ensures Conserved(ConsumerNext(s))
  {
    var s' := ConsumerNext(s);
    ConsumerQueue(s);
    assert Events(s'.departures) == Events(s.departures) + Queue(s);
  }

  lemma ConsumerKeepsCount(s: State)
    requires InRange(s) && ConsumerOwns(s) && Conserved(s) && Counted(s)
    ensures Conserved(ConsumerNext(s)) && Counted(ConsumerNext(s))
  {
    if s.consumer.Used? {
      PopConserves(s);
    } else if s.consumer.Noticed? {
      SkipConserves(s);
    } else {
      ConsumerRecords(s);
      ConsumerQueue(s);
    }
  }

  /** Other steps of the consumer leave everything counted alone. */
  lemma ConsumerRecords(s: State)
    requires InRange(s) && !s.consumer.Used? && !s.consumer.Noticed?
    ensures var s' := ConsumerNext(s);
            && s'.log == s.log && s'.departures == s.departures && s'.captures == s.captures
            && s'.offered == s.offered && s'.drops == s.drops && s'.producer == s.producer
  {
    var s' := ConsumerNext(s);
    if s.consumer.Peeked? || s.consumer.Rebuilding? || s.consumer.Entering? {
      assert s'.log == s.log;
    }
  }

  lemma AppliedSynced(s: State)
    requires RingSafe(s) && Synced(s) && s.consumer.Peeked?
    ensures Synced(ConsumerNext(s))
  {
    var s' := ConsumerNext(s);
    var todo, todo' := Remaining(s) + InFlight(s.producer), Remaining(s') + InFlight(s'.producer);
    assert Queue(s') == Queue(s);
    assert todo[0] == s.consumer.event && todo[1..] == todo';
  }

  /** A fresh copy stands for everything captured so far, whatever was lost before it. */
  lemma CopySynced(s: State)
    requires RingSafe(s) && s.consumer.Bounds?
    ensures Synced(ConsumerNext(s))
  {
    RestoreExact(s.live.core, s.latest);
    var s' := ConsumerNext(s);
    assert Remaining(s') + InFlight(s'.producer) == [];
  }

  lemma ForeseenCore(s: State)
    requires InRange(s) && !s.consumer.Peeked?
    ensures s.consumer.Rebuilding? ==>
              ConsumerNext(s).consumer.Free?
              && ConsumerNext(s).live.core == Restored(s.live.core, s.consumer.shadow)
    ensures !s.consumer.Rebuilding? ==> ConsumerNext(s).live == s.live
  {
    var s' := ConsumerNext(s);
    match s.consumer
    case Entering => assert s'.live == s.live;
    case Free => assert s'.live == s.live;
    case Found => assert s'.live == s.live;
    case Used(_) => assert s'.live == s.live;
    case Holding => assert s'.live == s.live;
    case Bounds(_) => assert s'.live == s.live;
    case Copied(_, _) => assert s'.live == s.live;
    case Noticed(_, _, _) => assert s'.live == s.live;
    case Moved(_, _) => assert s'.live == s.live;
    case Rebuilding(shadow, _) => assert s'.live == Rebuilt(s.live, shadow);
  }

  lemma ForeseenBase(s: State)
    requires InRange(s) && !s.consumer.Peeked? && !s.consumer.Bounds?
    ensures Base(ConsumerNext(s)) == Base(s)
  {
    ForeseenCore(s);
    if !s.consumer.Rebuilding? {
      SameBase(s, ConsumerNext(s));
    }
  }

  predicate HasCopy(c: Consumer) {
    c.Copied? || c.Noticed? || c.Moved? || c.Rebuilding?
  }

  lemma SameBase(s: State, s': State)
    requires InRange(s) && InRange(s') && s'.live == s.live
    requires HasCopy(s.consumer) <==> HasCopy(s'.consumer)
    requires HasCopy(s.consumer) ==> s'.consumer.shadow == s.consumer.shadow
    ensures Base(s') == Base(s)
  {
  }

  lemma ForeseenRemaining(s: State)
    requires InRange(s) && ConsumerOwns(s) && !s.consumer.Bounds?
    ensures Remaining(ConsumerNext(s)) == if s.consumer.Peeked? then Queue(s)[1..] else Remaining(s)
  {
    ConsumerQueue(s);
  }

  lemma SyncFramed(s: State, s': State)
    requires InRange(s) && InRange(s') && Synced(s)
    requires Base(s') == Base(s) && Remaining(s') == Remaining(s)
    requires s'.latest == s.latest && s'.lost == s.lost && InFlight(s'.producer) == InFlight(s.producer)
    ensures Synced(s')
  {
  }

  lemma ForeseenRecords(s: State)
    requires InRange(s) && !s.consumer.Bounds?
    ensures var s' := ConsumerNext(s);
            s'.latest == s.latest && s'.lost == s.lost && s'.producer == s.producer
  {
    var s' := ConsumerNext(s);
    if s.consumer.Peeked? || s.consumer.Rebuilding? {
      assert s'.latest == s.latest;
    }
  }

  /** Popping, skipping and rebuilding are foreseen by Base and Remaining. */
  lemma ForeseenSynced(s: State)
    requires RingSafe(s) && Synced(s) && !s.consumer.Peeked? && !s.consumer.Bounds?
    ensures Synced(ConsumerNext(s))
  {
    ForeseenBase(s);
    ForeseenRemaining(s);
    ForeseenRecords(s);
    SyncFramed(s, ConsumerNext(s));
  }

  lemma ConsumerKeepsSync(s: State)
    requires RingSafe(s) && Synced(s)
    ensures Synced(ConsumerNext(s))
  {
    if s.consumer.Peeked? {
      AppliedSynced(s);
    } else if s.consumer.Bounds? {
      CopySynced(s);
    } else {
      ForeseenSynced(s);
    }
  }

  lemma ConsumerKeepsLoss(s: State)
    requires InRange(s) && ConsumerOwns(s) && LossNoticed(s) && !s.consumer.Entering?
    ensures LossNoticed(ConsumerNext(s))
  {
  }

  lemma ConsumerKeepsSafe(s: State)
    requires Safe(s)
    ensures Safe(ConsumerNext(s))
  {
    ConsumerKeepsRing(s);
    ConsumerKeepsCount(s);
    ConsumerKeepsSync(s);
  }

  // ---------------------------------------------------------------- calls and rendering

  /** A frame, committed or rolled back, and a mixer change only sound. */
  lemma SoundKeepsLatches(v: Transaction.Live, e: Transaction.Event)
    requires CoreOk(v.core) && (e.FrameDue? || e.MixerRequest?)
    ensures OnlySounds(v, Transaction.LiveStep(v, e))
  {
    if e.FrameDue? {
      RenderKeepsLatches(v.core, Transaction.CacheReader(e.ram, e.hit));
    } else {
      assert Transaction.LiveStep(v, e).core.channels == v.core.channels;
    }
  }

  lemma SyncCongruent(s: State, live: Transaction.Live)
    requires InRange(s) && Synced(s) && s.consumer == Free
    requires CoreOk(live.core) && LatchesOf(live.core) == LatchesOf(s.live.core)
    ensures Synced(s.(live := live))
  {
    var s' := s.(live := live);
    assert Base(s) == s.live.core && Base(s') == live.core;
    assert Remaining(s') == Remaining(s);
    AllCongruent(s.live.core, live.core, Remaining(s) + InFlight(s.producer));
  }

  lemma SoundKeepsSync(s: State, after: Transaction.Live)
    requires InRange(s) && Synced(s)
    ensures Synced(Step(s, Sound(after)))
  {
    if s.consumer == Free && OnlySounds(s.live, after) {
      SyncCongruent(s, after);
    }
  }

  lemma SoundKeepsSafe(s: State, after: Transaction.Live)
    requires Safe(s)
    ensures Safe(Step(s, Sound(after)))
  {
    var s' := Step(s, Sound(after));
    assert s' == s.(live := s'.live) && Queue(s') == Queue(s);
    SoundKeepsSync(s, after);
  }

  predicate Starts(a: Action) {
    a.Tick? || a.BusCapture? || a.Peek? || a.Decline? || a.TakeSnapshot?
  }

  /** A counter tick moves no agent. Starting a call moves one agent to its first step and may
      take the free lock. */
  lemma StartFramed(s: State, a: Action)
    requires InRange(s) && Starts(a)
    ensures var s' := Step(s, a);
            && s' == s.(now := s'.now, offered := s'.offered, lock := s'.lock,
                        producer := s'.producer, consumer := s'.consumer)
            && Queue(s') == Queue(s) && InFlight(s'.producer) == InFlight(s.producer)
            && SeenDrops(s') == SeenDrops(s)
  {
  }

  lemma StartForeseen(s: State, a: Action)
    requires InRange(s) && Starts(a)
    ensures Remaining(Step(s, a)) == Remaining(s) && Base(Step(s, a)) == Base(s)
  {
    StartFramed(s, a);
    assert !HasCopy(s.consumer) || Step(s, a).consumer == s.consumer;
    SameBase(s, Step(s, a));
  }

  lemma StartKeepsRing(s: State, a: Action)
    requires RingSafe(s) && Starts(a)
    ensures RingSafe(Step(s, a))
  {
    assert |Queue(s)| == Ring.Pending(s.head, s.tail);
    StartFramed(s, a);
  }

  lemma StartKeepsSync(s: State, a: Action)
    requires InRange(s) && Synced(s) && Starts(a)
    ensures Synced(Step(s, a))
  {
    StartFramed(s, a);
    StartForeseen(s, a);
    SyncFramed(s, Step(s, a));
  }

  lemma StartKeepsCount(s: State, a: Action)
    requires InRange(s) && Counted(s) && Conserved(s) && Starts(a)
    ensures Counted(Step(s, a)) && Conserved(Step(s, a))
  {
    StartFramed(s, a);
  }

  lemma StartKeepsSafe(s: State, a: Action)
    requires Safe(s) && Starts(a)
    ensures Safe(Step(s, a))
  {
    StartKeepsRing(s, a);
    StartKeepsSync(s, a);
    StartKeepsCount(s, a);
  }

  lemma StepKeepsSafe(s: State, a: Action)
    requires Safe(s)
    ensures Safe(Step(s, a))
  {
    match a
    case ProducerStep => ProducerKeepsSafe(s);
    case ConsumerStep => ConsumerKeepsSafe(s);
    case Sound(after) => SoundKeepsSafe(s, after);
    case _ => StartKeepsSafe(s, a);
  }

  lemma {:induction false} RunKeepsSafe(s: State, actions: seq<Action>)
    requires Safe(s)
    ensures Safe(Run(s, actions))
    decreases |actions|
  {
    if actions != [] {
      StepKeepsSafe(s, actions[0]);
      RunKeepsSafe(Step(s, actions[0]), actions[1..]);
    }
  }

  /** A reset core latches what a blank shadow stands for. */
  lemma ResetIsBlank(p: Core)
    requires CoreOk(p) && p == ResetCore(p)
    ensures Tracks(p, BLANK)
  {
    assert LatchesOf(p).channels == View(BLANK).channels;
  }

  lemma InitialSafe(s: State)
    requires Initial(s)
    ensures Safe(s)
  {
    assert Queue(s) == [];
    assert Remaining(s) + InFlight(s.producer) == [];
    ResetIsBlank(s.live.core);
  }
}
