/** The audio loop over the interleaved event ring: one step for each thing the loop reads or
    does, with the producer and the shared counter moving anywhere between. A pass recovers if
    it must, waits for its frame, applies the events due, looks once more for a backlog, and
    renders or stays silent. */
module Player {
  import opened Words
  import opened PaulaCore
  import opened Registers
  import opened ReplayClock
  import Capture
  import CaptureTheorems
  import Transaction
  import Ring

  const BURST: nat := 128

  /** Why the replay of a pass stopped: enough for one pass, nothing there, or not due yet. */
  datatype Stop = Enough | Empty | Later

  datatype Phase =
    | Entering
    | Starting
    | Trying
    | Resyncing
    | Restarting
    | Waiting
    | Draining(done: nat)
    | Reading(done: nat)
    | Testing(done: nat)
    | Popping(done: nat)
    | Checking(why: Stop)
    | CheckReading(why: Stop)
    | CheckTesting(why: Stop)
    | Rendering
    | Silent
    | Advancing

  /** base, absorbed, seen, lookedAt and held record: the departures before the last resync, the
      writes its shadow stood for, what was captured and counted when the loop last looked at
      the ring, and the stamped event the producer then held, if any. */
  datatype Player = Player(
    ring: Capture.State, clock: Clock, recovery: bool, phase: Phase,
    base: nat, absorbed: seq<Event>, seen: nat, lookedAt: nat, held: Option<Event>)

  datatype Move =
    | Others(action: Capture.Action)
    | Decide(now: nat, drops: nat, fill: nat)
    | Go
    | Mix(after: Transaction.Live)
    | Play(after: Transaction.Live)

  ghost predicate PlayerOk(p: Player) {
    Capture.InRange(p.ring) && ClockOk(p.clock)
  }

  predicate ByOthers(a: Capture.Action) {
    a.Tick? || a.BusCapture? || a.ProducerStep?
  }

  function Latency(frequency: nat): nat {
    frequency / 20
  }

  function MaxLag(frequency: nat): nat {
    frequency / 4
  }

  predicate IsDue(tick: nat, e: Event) {
    Due(tick % U64, e.ticks % U64)
  }

  /** The loop's counter and ring readings may be stale by the time it decides. */
  predicate NeedsResync(p: Player, now: nat, drops: nat, fill: nat) {
    || p.recovery
    || drops % U32 != CaptureTheorems.Dropped(p.ring.lastDrop)
    || fill >= Ring.CAPACITY * 3 / 4
    || Late(p.clock.tick % U64, now % U64, Latency(p.clock.frequency), MaxLag(p.clock.frequency))
  }

  /** The frame is due once the counter has passed its tick by the latency. */
  predicate TimeHasCome(p: Player) {
    Due(p.ring.now % U64, (p.clock.tick + Latency(p.clock.frequency)) % U64)
  }

  // ---------------------------------------------------------------- what a move does to the ring

  predicate FrontIsDue(p: Player) {
    p.ring.consumer.Peeked? && IsDue(p.clock.tick, p.ring.consumer.event)
  }

  /** The ring action of the loop's next step, if it has one. */
  function LoopAction(p: Player): Option<Capture.Action> {
    var empty := p.ring.head == p.ring.tail;
    match p.phase
    case Entering => Some(Capture.ConsumerStep)
    case Trying => Some(Capture.TakeSnapshot)
    case Resyncing => Some(Capture.ConsumerStep)
    case Draining(done) => if done >= BURST || empty then None else Some(Capture.Peek)
    case Reading(_) => Some(Capture.ConsumerStep)
    case Testing(_) => Some(if FrontIsDue(p) then Capture.ConsumerStep else Capture.Decline)
    case Popping(_) => Some(Capture.ConsumerStep)
    case Checking(_) => if empty then None else Some(Capture.Peek)
    case CheckReading(_) => Some(Capture.ConsumerStep)
    case CheckTesting(_) => Some(Capture.Decline)
    case _ => None
  }

  function RingAction(p: Player, m: Move): Option<Capture.Action> {
    match m
    case Others(a) => if ByOthers(a) then Some(a) else None
    case Decide(_, _, _) => None
    case Go => LoopAction(p)
    case Mix(after) => if p.phase.Starting? then Some(Capture.Sound(after)) else None
    case Play(after) => if p.phase.Rendering? then Some(Capture.Sound(after)) else None
  }

  ghost function RingNext(s: Capture.State, a: Option<Capture.Action>): (s': Capture.State)
    requires Capture.InRange(s)
    ensures Capture.InRange(s')
  {
    if a.None? then s else Capture.Step(s, a.value)
  }

  // ---------------------------------------------------------------- what it does to the loop

  /** What a resync absorbs is fixed when the shadow is copied, and the ring's skipped events
      lie before the new base. */
  function Resynced(p: Player, ring: Capture.State): Player {
    p.(ring := ring, phase := if ring.consumer.Free? then Restarting else Resyncing,
       absorbed := if p.ring.consumer.Bounds? then p.ring.noted else p.absorbed,
       base := if p.ring.consumer.Noticed? then |ring.departures| else p.base)
  }

  /** The stamped event the producer has yet to publish. */
  function Held(producer: Capture.Producer): Option<Event> {
    if producer.Stored? then Some(producer.event) else None
  }

  /** The last look before the frame. */
  function LastLook(p: Player, ring: Capture.State, why: Stop): Player {
    p.(ring := ring, seen := |p.ring.log|, lookedAt := p.ring.now, held := Held(p.ring.producer),
       phase := if p.ring.head == p.ring.tail then Rendering else CheckReading(why))
  }

  /** The drop counter is read and the clock started. */
  function Entered(p: Player, ring: Capture.State): (r: Player)
    requires ClockOk(p.clock)
    ensures ClockOk(r.clock)
  {
    p.(ring := ring, phase := Starting,
       clock := Restarted(p.ring.now, p.clock.frequency, Latency(p.clock.frequency)))
  }

  /** The loop's next step, given the ring after it. */
  function LoopNext(p: Player, ring: Capture.State): (r: Player)
    requires ClockOk(p.clock)
    ensures ClockOk(r.clock) && r.ring == ring
  {
    match p.phase
    case Entering => Entered(p, ring)
    case Starting => p.(ring := ring)
    case Trying => p.(ring := ring, phase := if ring.consumer.Holding? then Resyncing else Silent)
    case Resyncing => Resynced(p, ring)
    case Restarting =>
      p.(ring := ring, clock := Restarted(p.ring.now, p.clock.frequency, Latency(p.clock.frequency)),
         recovery := false, phase := Waiting)
    case Waiting => p.(ring := ring, phase := if TimeHasCome(p) then Draining(0) else Waiting)
    case Draining(done) =>
      p.(ring := ring, phase := if done >= BURST then Checking(Enough)
                                else if p.ring.head == p.ring.tail then Checking(Empty) else Reading(done))
    case Reading(done) => p.(ring := ring, phase := Testing(done))
    case Testing(done) => p.(ring := ring, phase := if FrontIsDue(p) then Popping(done) else Checking(Later))
    case Popping(done) => p.(ring := ring, phase := Draining(done + 1))
    case Checking(why) => LastLook(p, ring, why)
    case CheckReading(why) => p.(ring := ring, phase := CheckTesting(why))
    case CheckTesting(why) => p.(ring := ring, phase := if FrontIsDue(p) then Silent else Rendering)
    case Rendering => p.(ring := ring)
    case Silent => p.(ring := ring, phase := Advancing)
    case Advancing => p.(ring := ring, clock := Advanced(p.clock), phase := Starting)
  }

  function Control(p: Player, m: Move, ring: Capture.State): (r: Player)
    requires ClockOk(p.clock)
    ensures ClockOk(r.clock) && r.ring == ring
  {
    match m
    case Others(_) => p.(ring := ring)
    case Mix(_) => p.(ring := ring)
    case Decide(now, drops, fill) =>
      if p.phase != Starting then p.(ring := ring)
      else if NeedsResync(p, now, drops, fill) then p.(ring := ring, recovery := true, phase := Trying)
      else p.(ring := ring, phase := Waiting)
    case Go => LoopNext(p, ring)
    case Play(_) => p.(ring := ring, phase := if p.phase.Rendering? then Advancing else p.phase)
  }

  /** One atomic step of the loop, the producer or the counter. */
  ghost function Next(p: Player, m: Move): (r: Player)
    requires PlayerOk(p)
    ensures PlayerOk(r)
  {
    Control(p, m, RingNext(p.ring, RingAction(p, m)))
  }

  ghost function Plays(p: Player, moves: seq<Move>): (r: Player)
    requires PlayerOk(p)
    ensures PlayerOk(r)
    decreases |moves|
  {
    if moves == [] then p else Plays(Next(p, moves[0]), moves[1..])
  }

  /** Before the loop is entered, over a mirror just enabled. */
  ghost predicate Initial(p: Player) {
    && Capture.Initial(p.ring) && ClockOk(p.clock) && p.phase == Entering && !p.recovery
    && p.base == 0 && p.absorbed == []
  }
}
