/** The event ring as the C code holds it: a slot array, two counters, a lock word and the
    latest registers. Each method is one C function, or what it does after its try-lock, with
    the other agent standing still wherever it happens to be; each specification function is
    such a run of the interleaved machine. */
module EventRing {
  import opened Words
  import opened PaulaCore
  import opened Registers
  import opened Capture
  import opened CaptureSafety
  import opened CaptureTheorems
  import Transaction
  import BusMemory
  import Ring

  // ---------------------------------------------------------------- the producer's calls

  /** The exchange on the lock word: the write is refused and counted, or let in. */
  function Begun(s: State, e: Event): (s': State)
    requires Shaped(s)
    ensures Shaped(s')
  {
    if s.lock then s.(offered := s.offered + 1, drops := s.drops + 1)
    else s.(offered := s.offered + 1, lock := true, producer := Locked(e))
  }

  function NotedBy(s: State, e: Event): (s': State)
    requires Shaped(s)
    ensures Shaped(s')
  {
    s.(noted := s.noted + [e], latest := Shadowed(s.latest, e.address, WordOf(e.value, e.width)))
  }

  /** The event is stamped as it is stored. */
  function Appended(s: State, e: Event): (s': State)
    requires Shaped(s)
    ensures Shaped(s')
  {
    var stamped := e.(ticks := s.now);
    s.(slots := s.slots[s.head % Ring.CAPACITY := stamped], head := Ring.Next(s.head),
       log := s.log + [stamped], captures := s.captures + 1)
  }

  /** A write let in reaches the shadow; a full ring still costs its event. */
  function Finished(s: State): (s': State)
    requires Shaped(s) && s.producer.Locked?
    ensures Shaped(s')
  {
    var e := s.producer.event;
    var s1 := NotedBy(s, e).(lock := false, producer := Away);
    if Ring.Pending(s.head, s.tail) >= Ring.CAPACITY then s1.(drops := s.drops + 1, lost := true)
    else Appended(s1, e)
  }

  /** paula_mirror_capture of an audio register write. */
  function Offering(s: State, e: Event): (s': State)
    requires Shaped(s)
    ensures Shaped(s')
  {
    if s.lock then Begun(s, e) else Finished(Begun(s, e))
  }

  // ---------------------------------------------------------------- the consumer's calls

  /** Apply the oldest event and pop it. */
  function Consumed(s: State): (s': State)
    requires Shaped(s)
    ensures Shaped(s')
  {
    if s.head == s.tail then s
    else
      var e := s.slots[s.tail % Ring.CAPACITY];
      s.(live := s.live.(core := Applied(s.live.core, e)),
         tail := Ring.Next(s.tail), departures := s.departures + [Popped(e)])
  }

  /** Copy the shadow, skip the queue, give the lock back and rebuild. */
  function Recovered(s: State): (s': State)
    requires Shaped(s)
    ensures Shaped(s')
  {
    s.(lost := false, tail := s.head, lock := false, live := Rebuilt(s.live, s.latest),
       departures := s.departures + SkippedAll(Queue(s)), lastDrop := s.drops, consumer := Free)
  }

  /** Nothing while the lock is taken. */
  function Resynced(s: State): (s': State)
    requires Shaped(s)
    ensures Shaped(s')
  {
    if s.lock then s else Recovered(s)
  }

  // ---------------------------------------------------------------- they are runs

  lemma OneStep(s: State, a: Action)
    requires InRange(s)
    ensures Run(s, [a]) == Step(s, a)
  {
    assert Run(s, [a]) == Run(Step(s, a), [a][1..]);
  }

  lemma BeginRuns(s: State, e: Event) returns (actions: seq<Action>)
    requires InRange(s) && s.producer == Away && BusEvent(e)
    ensures Run(s, actions) == Begun(s, e)
  {
    OneStep(s, BusCapture(e));
    actions := [BusCapture(e)];
    if s.lock {
      var s';
      actions, s' := Then(s, actions, ProducerStep);
    }
  }

  lemma NoteStep(s: State)
    requires InRange(s) && s.producer.Locked?
    ensures Step(s, ProducerStep) == NotedBy(s, s.producer.event).(producer := Noted(s.producer.event))
  {
  }

  lemma RoomStep(s: State)
    requires InRange(s) && s.producer.Noted?
    ensures Step(s, ProducerStep) ==
            if Ring.Pending(s.head, s.tail) >= Ring.CAPACITY
            then s.(lost := true, producer := Full(s.producer.event))
            else s.(producer := Room(s.producer.event, s.head))
  {
  }

  lemma StoreStep(s: State)
    requires InRange(s) && s.producer.Room?
    ensures var stamped := s.producer.event.(ticks := s.now);
            Step(s, ProducerStep) ==
            s.(slots := s.slots[s.producer.at % Ring.CAPACITY := stamped], producer := Stored(stamped, s.producer.at))
  {
  }

  lemma PublishStep(s: State)
    requires InRange(s) && s.producer.Stored?
    ensures Step(s, ProducerStep) ==
            s.(head := Ring.Next(s.producer.at), log := s.log + [s.producer.event], producer := Published)
  {
  }

  lemma CountStep(s: State)
    requires InRange(s) && s.producer.Published?
    ensures Step(s, ProducerStep) == s.(captures := s.captures + 1, producer := Leaving)
  {
  }

  lemma DropStep(s: State)
    requires InRange(s) && s.producer.Full?
    ensures Step(s, ProducerStep) == s.(drops := s.drops + 1, producer := Leaving)
  {
  }

  lemma LeaveStep(s: State)
    requires InRange(s) && s.producer.Leaving?
    ensures Step(s, ProducerStep) == s.(lock := false, producer := Away)
  {
  }

  lemma AppendRuns(s: State, actions: seq<Action>, s1: State) returns (longer: seq<Action>)
    requires InRange(s) && s1 == Run(s, actions) && s1.producer.Room? && s1.producer.at == s1.head
    ensures Run(s, longer) == Appended(s1, s1.producer.event).(lock := false, producer := Away)
  {
    var s' := s1;
    StoreStep(s');
    longer, s' := Then(s, actions, ProducerStep);
    PublishStep(s');
    longer, s' := Then(s, longer, ProducerStep);
    CountStep(s');
    longer, s' := Then(s, longer, ProducerStep);
    LeaveStep(s');
    longer, s' := Then(s, longer, ProducerStep);
  }

  lemma DropRuns(s: State, actions: seq<Action>, s1: State) returns (longer: seq<Action>)
    requires InRange(s) && s1 == Run(s, actions) && s1.producer.Full?
    ensures Run(s, longer) == s1.(drops := s1.drops + 1, lock := false, producer := Away)
  {
    var s' := s1;
    DropStep(s');
    longer, s' := Then(s, actions, ProducerStep);
    LeaveStep(s');
    longer, s' := Then(s, longer, ProducerStep);
  }

  /** paula_mirror_capture after its try-lock. */
  lemma FinishRuns(s: State) returns (actions: seq<Action>)
    requires InRange(s) && s.producer.Locked?
    ensures Run(s, actions) == Finished(s)
  {
    OneStep(s, ProducerStep);
    NoteStep(s);
    actions := [ProducerStep];
    var s' := NotedBy(s, s.producer.event).(producer := Noted(s.producer.event));
    RoomStep(s');
    actions, s' := Then(s, actions, ProducerStep);
    if s'.producer.Full? {
      actions := DropRuns(s, actions, s');
    } else {
      actions := AppendRuns(s, actions, s');
    }
  }

  /** paula_mirror_capture. */
  lemma OfferRuns(s: State, e: Event) returns (actions: seq<Action>)
    requires InRange(s) && s.producer == Away && BusEvent(e)
    ensures Run(s, actions) == Offering(s, e)
  {
    actions := BeginRuns(s, e);
    if !s.lock {
      var more := FinishRuns(Begun(s, e));
      RunSplits(s, actions, more);
      actions := actions + more;
    }
  }

  lemma ApplyRuns(s: State, actions: seq<Action>, s1: State) returns (longer: seq<Action>)
    requires InRange(s) && s1 == Run(s, actions) && s1.consumer == Found && s1.head != s1.tail
    ensures var e := s1.slots[s1.tail % Ring.CAPACITY];
            Run(s, longer) == s1.(live := s1.live.(core := Applied(s1.live.core, e)), consumer := Used(e))
  {
    var s';
    longer, s' := Then(s, actions, ConsumerStep);
    assert s' == s1.(consumer := Peeked(s1.slots[s1.tail % Ring.CAPACITY]));
    longer, s' := Then(s, longer, ConsumerStep);
  }

  lemma PopStep(s: State)
    requires InRange(s) && s.consumer.Used? && s.head != s.tail
    ensures Step(s, ConsumerStep) ==
            s.(tail := Ring.Next(s.tail), departures := s.departures + [Popped(s.consumer.event)], consumer := Free)
  {
  }

  /** paula_mirror_peek, poc_apply_live_event, paula_mirror_pop. */
  lemma ConsumeRuns(s: State) returns (actions: seq<Action>)
    requires InRange(s) && s.consumer == Free
    ensures Run(s, actions) == Consumed(s)
  {
    OneStep(s, Peek);
    actions := [Peek];
    if s.head != s.tail {
      actions := ApplyRuns(s, actions, s.(consumer := Found));
      var s' := Run(s, actions);
      PopStep(s');
      actions, s' := Then(s, actions, ConsumerStep);
    }
  }

  /** paula_mirror_snapshot_take and poc_restore_live_state after the try-lock. */
  lemma RecoverRuns(s: State) returns (actions: seq<Action>)
    requires InRange(s) && s.consumer == Holding
    ensures Run(s, actions) == Recovered(s)
  {
    var s';
    assert s == Run(s, []);
    actions, s' := SnapshotFinishes(s, s, []);
  }

  /** The whole of both, or the failed try-lock. */
  lemma ResyncRuns(s: State) returns (actions: seq<Action>)
    requires InRange(s) && s.consumer == Free
    ensures Run(s, actions) == Resynced(s)
  {
    OneStep(s, TakeSnapshot);
    actions := [TakeSnapshot];
    if !s.lock {
      var s1 := s.(lock := true, consumer := Holding);
      var s';
      assert Queue(s1) == Queue(s);
      actions, s' := SnapshotFinishes(s, s1, actions);
    }
  }

  lemma TickKeepsSafe(s: State, s': State)
    requires Safe(s) && s' == s.(now := s.now + 1)
    ensures Safe(s')
  {
    StepKeepsSafe(s, Action.Tick);
  }

  lemma BusEmits(address: nat, value: Word, width: nat, ticks: nat)
    requires Offered(address) && (width == 1 || (width == 2 && address % 2 == 0))
    ensures BusEvent(Event(address % U24, value, width, ticks))
  {
    BusMemory.WrapKeepsParity(address);
  }

  // ---------------------------------------------------------------- the arrays

  class EventRing {
    const slots: array<Event>
    var now: nat
    var head: nat
    var tail: nat
    var lock: bool
    var latest: Shadow
    var captures: nat
    var drops: nat
    var lastDrop: nat
    var live: Transaction.Live
    ghost var offered: nat
    ghost var noted: seq<Event>
    ghost var log: seq<Event>
    ghost var departures: seq<Departure>
    ghost var lost: bool
    ghost var producer: Producer
    ghost var consumer: Consumer

    ghost function Abs(): State
      reads this, slots
    {
      State(now, slots[..], head, tail, lock, latest, captures, drops, lastDrop, live,
            offered, noted, log, departures, lost, producer, consumer)
    }

    ghost predicate Valid()
      reads this, slots
    {
      Safe(Abs())
    }

    /** paula_live_init and paula_mirror_enable. */
    constructor (live: Transaction.Live, now: nat)
      requires CoreOk(live.core) && live.core == ResetCore(live.core)
      ensures Valid() && Initial(Abs()) && this.live == live && this.now == now && fresh(slots)
    {
      this.now := now;
      slots := new Event[Ring.CAPACITY](_ => Event(0, {}, 0, 0));
      head, tail, lock, latest := 0, 0, false, BLANK;
      captures, drops, lastDrop, this.live := 0, 0, 0, live;
      offered, noted, log, departures, lost := 0, [], [], [], false;
      producer, consumer := Away, Entering;
      new;
      InitialSafe(Abs());
    }

    /** The loop reads the drop counter as it is entered. */
    method EnterLoop()
      requires Valid() && consumer == Entering
      modifies this`lastDrop, this`consumer
      ensures Valid() && Abs() == old(Abs()).(lastDrop := old(drops), consumer := Free)
    {
      ConsumerKeepsSafe(Abs());
      lastDrop, consumer := drops, Free;
    }

    /** The counter all cores share. */
    method Tick()
      requires Valid()
      modifies this`now
      ensures Valid() && Abs() == old(Abs()).(now := old(now) + 1)
    {
      ghost var was := Abs();
      CountUp();
      TickKeepsSafe(was, Abs());
    }

    method CountUp()
      modifies this`now
      ensures Abs() == old(Abs()).(now := old(now) + 1)
    {
      now := now + 1;
    }

    /** A bus write to an audio register, also while the consumer holds the lock; the bus only
        emits bytes and aligned words. */
    method Capture(address: nat, value: Word, width: nat)
      requires Valid() && producer == Away
      requires width == 1 || (width == 2 && address % 2 == 0)
      modifies this`head, this`lock, this`latest, this`captures, this`drops, slots
      modifies this`offered, this`noted, this`log, this`lost, this`producer
      ensures Valid()
      ensures var e := Event(address % U24, value, width, 0);
              Abs() == if Offered(address) then Offering(old(Abs()), e) else old(Abs())
      ensures offered == old(offered) && address % U24 / 0x1000 == 0xDFF ==>
                forall p: Core, v: Word :: CoreOk(p) ==> WriteRegister(p, address, v) == p
    {
      DroppedWritesNothing(address);
      var a := address % U24;
      if a / 0x1000 != 0xDFF || !IsAudioRegister(a) {
        return;
      }
      var e := Event(a, value, width, 0);
      BusEmits(address, value, width, 0);
      var inside := BeginCapture(e);
      if inside {
        FinishCapture(e);
      }
    }

    /** The try-lock of a capture. */
    method BeginCapture(e: Event) returns (inside: bool)
      requires Valid() && producer == Away && BusEvent(e)
      modifies this`lock, this`drops, this`offered, this`producer
      ensures Valid() && Abs() == Begun(old(Abs()), e) && inside == !old(lock)
    {
      ghost var actions := BeginRuns(Abs(), e);
      RunKeepsSafe(Abs(), actions);
      inside := Enter(e);
    }

    method Enter(e: Event) returns (inside: bool)
      requires Shaped(Abs())
      modifies this`lock, this`drops, this`offered, this`producer
      ensures Abs() == Begun(old(Abs()), e) && inside == !old(lock)
    {
      inside := !lock;
      if lock {
        drops := drops + 1;
      } else {
        lock, producer := true, Locked(e);
      }
      offered := offered + 1;
    }

    /** The rest of it: shadow, ring, counters, and the lock given back. */
    method FinishCapture(e: Event)
      requires Valid() && producer == Locked(e)
      modifies this`head, this`lock, this`latest, this`captures, this`drops, slots
      modifies this`noted, this`log, this`lost, this`producer
      ensures Valid() && Abs() == Finished(old(Abs()))
    {
      ghost var actions := FinishRuns(Abs());
      RunKeepsSafe(Abs(), actions);
      Finish(e);
    }

    method Finish(e: Event)
      requires Shaped(Abs()) && producer == Locked(e)
      modifies this`head, this`lock, this`latest, this`captures, this`drops, slots
      modifies this`noted, this`log, this`lost, this`producer
      ensures Abs() == Finished(old(Abs()))
    {
      Note(e);
      lock, producer := false, Away;
      if Ring.Pending(head, tail) >= Ring.CAPACITY {
        drops, lost := drops + 1, true;
      } else {
        Append(e.(ticks := now));
      }
    }

    method Note(e: Event)
      requires Shaped(Abs())
      modifies this`latest, this`noted
      ensures Abs() == NotedBy(old(Abs()), e)
    {
      latest, noted := Shadowed(latest, e.address, WordOf(e.value, e.width)), noted + [e];
    }

    method Append(e: Event)
      requires Shaped(Abs()) && e.ticks == now
      modifies this`head, this`captures, this`log, slots
      ensures Abs() == Appended(old(Abs()), e)
    {
      slots[head % Ring.CAPACITY] := e;
      head, log, captures := Ring.Next(head), log + [e], captures + 1;
    }

    /** The oldest event, if there is one. */
    method Peek() returns (event: Option<Event>)
      requires Valid()
      ensures event == if Queue(Abs()) == [] then None else Some(Queue(Abs())[0])
    {
      event := Front();
    }

    method Front() returns (event: Option<Event>)
      requires Shaped(Abs())
      ensures event == if Queue(Abs()) == [] then None else Some(Queue(Abs())[0])
    {
      if head == tail {
        return None;
      }
      assert Ring.Pending(head, tail) > 0;
      event := Some(slots[tail % Ring.CAPACITY]);
    }

    method ApplyAndPop()
      requires Valid() && consumer == Free
      modifies this`tail, this`live, this`departures
      ensures Valid() && Abs() == Consumed(old(Abs()))
    {
      ghost var actions := ConsumeRuns(Abs());
      RunKeepsSafe(Abs(), actions);
      Consume();
    }

    method Consume()
      requires Shaped(Abs())
      modifies this`tail, this`live, this`departures
      ensures Abs() == Consumed(old(Abs()))
    {
      if head == tail {
        return;
      }
      var e := slots[tail % Ring.CAPACITY];
      live := live.(core := Applied(live.core, e));
      tail, departures := Ring.Next(tail), departures + [Popped(e)];
    }

    /** Recovery of the consumer's core; it fails while a capture holds the lock. */
    method Resync() returns (ok: bool)
      requires Valid() && consumer == Free
      modifies this`tail, this`lock, this`live, this`lastDrop, this`departures, this`lost, this`consumer
      ensures Valid() && Abs() == Resynced(old(Abs())) && ok == !old(lock)
    {
      ok := BeginSnapshot();
      if ok {
        FinishSnapshot();
      }
    }

    /** The try-lock of a snapshot. */
    method BeginSnapshot() returns (ok: bool)
      requires Valid() && consumer == Free
      modifies this`lock, this`consumer
      ensures Valid() && ok == !old(lock)
      ensures Abs() == if old(lock) then old(Abs()) else old(Abs()).(lock := true, consumer := Holding)
    {
      StepKeepsSafe(Abs(), TakeSnapshot);
      ok := !lock;
      if ok {
        lock, consumer := true, Holding;
      }
    }

    /** The rest of it, and the rebuild. */
    method FinishSnapshot()
      requires Valid() && consumer == Holding
      modifies this`tail, this`lock, this`live, this`lastDrop, this`departures, this`lost, this`consumer
      ensures Valid() && Abs() == Recovered(old(Abs()))
    {
      ghost var actions := RecoverRuns(Abs());
      RunKeepsSafe(Abs(), actions);
      Recover();
    }

    method Recover()
      requires Shaped(Abs())
      modifies this`tail, this`lock, this`live, this`lastDrop, this`departures, this`lost, this`consumer
      ensures Abs() == Recovered(old(Abs()))
    {
      var snapshot := TakeShadow();
      var core := Rebuild(live.core, snapshot);
      live := Transaction.ResetLive(live).(core := core);
    }

    /** Copy the shadow, skip the queue, remember the drop counter, unlock. */
    method TakeShadow() returns (snapshot: Shadow)
      requires Shaped(Abs())
      modifies this`tail, this`lock, this`lastDrop, this`departures, this`lost, this`consumer
      ensures snapshot == latest
      ensures Abs() == old(Abs()).(tail := head, lock := false, lastDrop := drops, lost := false, consumer := Free,
                                   departures := old(departures) + SkippedAll(Queue(old(Abs()))))
    {
      snapshot := latest;
      departures := departures + SkippedAll(Queue(Abs()));
      tail, lock, lastDrop, lost, consumer := head, false, drops, false, Free;
    }

    /** Reset, then the seen registers channel by channel, then the globals with DMA last. */
    static method Rebuild(p: Core, s: Shadow) returns (r: Core)
      requires CoreOk(p) && ShadowOk(s)
      ensures r == Restored(p, s)
    {
      r := ResetCore(p);
      for ch := 0 to CHANNELS
        invariant CoreOk(r)
        invariant RestoredChannels(r, s, ch) == RestoredChannels(ResetCore(p), s, 0)
      {
        r := RebuildChannel(r, s.channels[ch], ch);
      }
      r := RestoredGlobals(r, s);
    }

    static method RebuildChannel(p: Core, s: ChannelShadow, ch: nat) returns (r: Core)
      requires CoreOk(p) && |s.reg| == 6 && ch < CHANNELS
      ensures CoreOk(r) && r == RestoredRegisters(p, s, ch, 0)
    {
      r := p;
      for reg := 0 to 5
        invariant CoreOk(r)
        invariant RestoredRegisters(r, s, ch, reg) == RestoredRegisters(p, s, ch, 0)
      {
        if reg in s.seen {
          r := Applied(r, Event(0xDFF0A0 + 16 * ch + 2 * reg, s.reg[reg], 2, 0));
        }
      }
    }
  }
}
