/** The register event ring as two interleaved agents. The producer (the bus) takes a try-lock,
    updates the latest-register shadow and appends; the consumer (the renderer) peeks, applies
    and pops without the lock, or takes it to copy the shadow and skip the queue. */
module Capture {
  import opened Words
  import opened PaulaCore
  import opened Registers
  import Transaction
  import Ring

  datatype Producer =
    | Away
    | Refused
    | Locked(event: Event)
    | Noted(event: Event)
    | Full(event: Event)
    | Room(event: Event, at: nat)
    | Stored(event: Event, at: nat)
    | Published
    | Leaving

  datatype Consumer =
    | Entering
    | Free
    | Found
    | Peeked(event: Event)
    | Used(event: Event)
    | Holding
    | Bounds(h: nat)
    | Copied(h: nat, shadow: Shadow)
    | Noticed(h: nat, shadow: Shadow, drops: nat)
    | Moved(shadow: Shadow, drops: nat)
    | Rebuilding(shadow: Shadow, drops: nat)

  /** An event leaves the ring applied and popped, or skipped by a snapshot. */
  datatype Departure = Popped(event: Event) | Skipped(event: Event)

  /** now is the counter all cores share. captures and drops count without wrapping; the
      32-bit counters are their remainders. offered, noted, log, departures and lost only
      record what happened. */
  datatype State = State(
    now: nat, slots: seq<Event>, head: nat, tail: nat, lock: bool, latest: Shadow,
    captures: nat, drops: nat, lastDrop: nat, live: Transaction.Live,
    offered: nat, noted: seq<Event>, log: seq<Event>, departures: seq<Departure>, lost: bool,
    producer: Producer, consumer: Consumer)

  datatype Action =
    | Tick
    | BusCapture(event: Event)
    | ProducerStep
    | Peek
    | Decline
    | TakeSnapshot
    | Sound(after: Transaction.Live)
    | ConsumerStep

  ghost predicate Shaped(s: State) {
    && |s.slots| == Ring.CAPACITY && s.head < U32 && s.tail < U32
    && ShadowOk(s.latest) && CoreOk(s.live.core)
  }

  ghost predicate ProducerInRange(p: Producer) {
    && (p.Locked? || p.Noted? || p.Full? || p.Room? || p.Stored? ==> BusEvent(p.event))
    && (p.Room? || p.Stored? ==> p.at < U32)
  }

  ghost predicate ConsumerInRange(c: Consumer) {
    && (c.Copied? || c.Noticed? || c.Moved? || c.Rebuilding? ==> ShadowOk(c.shadow))
    && (c.Bounds? || c.Copied? || c.Noticed? ==> c.h < U32)
  }

  ghost predicate InRange(s: State) {
    Shaped(s) && ProducerInRange(s.producer) && ConsumerInRange(s.consumer)
  }

  /** paula_live_init, then paula_mirror_enable, over any stale slots; the loop is not entered. */
  ghost predicate Initial(s: State) {
    && Shaped(s)
    && s.head == 0 && s.tail == 0 && !s.lock && s.latest == BLANK
    && s.captures == 0 && s.drops == 0 && s.lastDrop == 0
    && s.live.core == ResetCore(s.live.core)
    && s.offered == 0 && s.noted == [] && s.log == [] && s.departures == [] && !s.lost
    && s.producer == Away && s.consumer == Entering
  }

  function ProducerNext(s: State): (s': State)
    requires InRange(s)
    ensures InRange(s')
  {
    match s.producer
    case Away => s
    case Refused => s.(drops := s.drops + 1, producer := Away)
    case Locked(e) =>
      s.(latest := Shadowed(s.latest, e.address, WordOf(e.value, e.width)),
         noted := s.noted + [e], producer := Noted(e))
    case Noted(e) =>
      if Ring.Pending(s.head, s.tail) >= Ring.CAPACITY then s.(lost := true, producer := Full(e))
      else s.(producer := Room(e, s.head))
    case Full(e) => s.(drops := s.drops + 1, producer := Leaving)
    case Room(e, at) =>
      var stamped := e.(ticks := s.now);
      s.(slots := s.slots[at % Ring.CAPACITY := stamped], producer := Stored(stamped, at))
    case Stored(e, at) => s.(head := Ring.Next(at), log := s.log + [e], producer := Published)
    case Published => s.(captures := s.captures + 1, producer := Leaving)
    case Leaving => s.(lock := false, producer := Away)
  }

  function SkippedAll(queue: seq<Event>): (r: seq<Departure>)
    ensures |r| == |queue|
    ensures forall i :: 0 <= i < |queue| ==> r[i] == Skipped(queue[i])
  {
    seq(|queue|, i requires 0 <= i < |queue| => Skipped(queue[i]))
  }

  function Rebuilt(v: Transaction.Live, shadow: Shadow): (r: Transaction.Live)
    requires CoreOk(v.core) && ShadowOk(shadow)
    ensures CoreOk(r.core)
  {
    Transaction.ResetLive(v).(core := Restored(v.core, shadow))
  }

  function ConsumerNext(s: State): (s': State)
    requires InRange(s)
    ensures InRange(s')
  {
    match s.consumer
    case Entering => s.(lastDrop := s.drops, consumer := Free)
    case Free => s
    case Found => s.(consumer := Peeked(s.slots[s.tail % Ring.CAPACITY]))
    case Peeked(e) => s.(live := s.live.(core := Applied(s.live.core, e)), consumer := Used(e))
    case Used(e) =>
      if s.head == s.tail then s.(consumer := Free)
      else s.(tail := Ring.Next(s.tail), departures := s.departures + [Popped(e)], consumer := Free)
    case Holding => s.(consumer := Bounds(s.head))
    case Bounds(h) => s.(lost := false, consumer := Copied(h, s.latest))
    case Copied(h, shadow) => s.(consumer := Noticed(h, shadow, s.drops))
    case Noticed(h, shadow, drops) =>
      s.(departures := s.departures + SkippedAll(Ring.Live(s.slots, s.head, s.tail)),
         tail := h, consumer := Moved(shadow, drops))
    case Moved(shadow, drops) => s.(lock := false, consumer := Rebuilding(shadow, drops))
    case Rebuilding(shadow, drops) =>
      s.(live := Rebuilt(s.live, shadow), lastDrop := drops, consumer := Free)
  }

  /** Playing may change anything but the latched registers, as frames and mixer changes do. */
  ghost predicate OnlySounds(v: Transaction.Live, after: Transaction.Live)
    requires CoreOk(v.core)
  {
    CoreOk(after.core) && LatchesOf(after.core) == LatchesOf(v.core)
  }

  /** One atomic step. An action its agent cannot take now changes nothing, so every sequence
      of actions is a run and every interleaving is a sequence. */
  ghost function Step(s: State, a: Action): (s': State)
    requires InRange(s)
    ensures InRange(s')
  {
    match a
    case Tick => s.(now := s.now + 1)
    case BusCapture(e) =>
      if s.producer != Away || !BusEvent(e) then s
      else if s.lock then s.(offered := s.offered + 1, producer := Refused)
      else s.(offered := s.offered + 1, lock := true, producer := Locked(e))
    case ProducerStep => ProducerNext(s)
    case Peek => if s.consumer == Free && s.head != s.tail then s.(consumer := Found) else s
    case Decline => if s.consumer.Peeked? then s.(consumer := Free) else s
    case TakeSnapshot =>
      if s.consumer != Free || s.lock then s else s.(lock := true, consumer := Holding)
    case Sound(after) =>
      if s.consumer == Free && OnlySounds(s.live, after) then s.(live := after) else s
    case ConsumerStep => ConsumerNext(s)
  }

  ghost function Run(s: State, actions: seq<Action>): (s': State)
    requires InRange(s)
    ensures InRange(s')
    decreases |actions|
  {
    if actions == [] then s else Run(Step(s, actions[0]), actions[1..])
  }
}
