/** The replay of one pass as the loop is written, with the producer standing still: a burst of
    due events applied and popped, then one more look. It is one run of the audio loop. */
module Replay {
  import opened Words
  import opened PaulaCore
  import opened Registers
  import opened Player
  import Capture
  import CaptureSafety
  import EventRing
  import LivePaula
  import Ring

  // ---------------------------------------------------------------- what a pass does

  predicate FrontDue(s: Capture.State, tick: nat)
    requires Capture.Shaped(s)
  {
    CaptureSafety.Queue(s) != [] && IsDue(tick, CaptureSafety.Queue(s)[0])
  }

  /** Apply and pop while the oldest event is due, from the done-th event of the burst on. */
  function Drained(s: Capture.State, tick: nat, done: nat): (s': Capture.State)
    requires Capture.Shaped(s) && done <= BURST
    ensures Capture.Shaped(s')
    decreases BURST - done, s
  {
    if done == BURST || !FrontDue(s, tick) then s else Drained(EventRing.Consumed(s), tick, done + 1)
  }

  /** How many events that is. */
  function DueCount(queue: seq<Event>, tick: nat, done: nat): (k: nat)
    requires done <= BURST
    ensures k <= |queue| && done + k <= BURST
    decreases BURST - done, queue
  {
    if done == BURST || queue == [] || !IsDue(tick, queue[0]) then 0
    else 1 + DueCount(queue[1..], tick, done + 1)
  }

  function AllPopped(events: seq<Event>): (r: seq<Capture.Departure>)
    ensures |r| == |events|
    ensures forall i :: 0 <= i < |r| ==> r[i] == Capture.Popped(events[i])
  {
    seq(|events|, i requires 0 <= i < |events| => Capture.Popped(events[i]))
  }

  lemma ConsumedQueue(s: Capture.State)
    requires Capture.Shaped(s) && CaptureSafety.Queue(s) != []
    ensures var q, s' := CaptureSafety.Queue(s), EventRing.Consumed(s);
            && CaptureSafety.Queue(s') == q[1..]
            && s'.departures == s.departures + [Capture.Popped(q[0])]
            && s'.live.core == Applied(s.live.core, q[0]) && s'.log == s.log && s'.noted == s.noted
  {
    assert Ring.Pending(s.head, s.tail) > 0;
    Ring.PopRemovesFirst(s.slots, s.head, s.tail);
  }

  /** The events a pass takes are all due, and it stops for a reason. */
  lemma {:induction false} TakenAreDue(queue: seq<Event>, tick: nat, done: nat)
    requires done <= BURST
    ensures var k := DueCount(queue, tick, done);
            && (forall i :: 0 <= i < k ==> IsDue(tick, queue[i]))
            && (done + k == BURST || k == |queue| || !IsDue(tick, queue[k]))
    decreases BURST - done
  {
    if done < BURST && queue != [] && IsDue(tick, queue[0]) {
      TakenAreDue(queue[1..], tick, done + 1);
      var k := DueCount(queue[1..], tick, done + 1);
      assert forall i :: 1 <= i < k + 1 ==> queue[i] == queue[1..][i - 1];
    }
  }

  /** A pass applies and pops exactly the due events at the front of the queue, at most a burst
      of them, in order, and touches no other event. */
  lemma {:induction false} PassTakesThePrefix(s: Capture.State, tick: nat, done: nat)
    requires Capture.Shaped(s) && done <= BURST
    ensures var q, r := CaptureSafety.Queue(s), Drained(s, tick, done);
            var k := DueCount(q, tick, done);
            && CaptureSafety.Queue(r) == q[k..]
            && r.departures == s.departures + AllPopped(q[..k])
            && r.live.core == AppliedAll(s.live.core, q[..k])
            && r.log == s.log && r.noted == s.noted
    decreases BURST - done
  {
    var q := CaptureSafety.Queue(s);
    if done == BURST || !FrontDue(s, tick) {
      assert q[..0] == [];
    } else {
      ConsumedQueue(s);
      PassTakesThePrefix(EventRing.Consumed(s), tick, done + 1);
      PrefixSteps(q, s.departures, s.live.core, DueCount(q[1..], tick, done + 1));
    }
  }

  lemma PrefixSteps(q: seq<Event>, departures: seq<Capture.Departure>, core: Core, k: nat)
    requires k < |q| && CoreOk(core)
    ensures q[1..][k..] == q[k + 1..]
    ensures departures + [Capture.Popped(q[0])] + AllPopped(q[1..][..k]) == departures + AllPopped(q[..k + 1])
    ensures AppliedAll(Applied(core, q[0]), q[1..][..k]) == AppliedAll(core, q[..k + 1])
  {
    assert q[..k + 1][1..] == q[1..][..k] && q[..k + 1][0] == q[0];
    assert [Capture.Popped(q[0])] + AllPopped(q[1..][..k]) == AllPopped(q[..k + 1]);
  }

  // ---------------------------------------------------------------- it is a run of the loop

  lemma {:induction false} PlaysSplit(p: Player, first: seq<Move>, rest: seq<Move>)
    requires PlayerOk(p)
    ensures Plays(p, first + rest) == Plays(Plays(p, first), rest)
    decreases |first|
  {
    if first == [] {
      assert first + rest == rest;
    } else {
      assert (first + rest)[1..] == first[1..] + rest;
      PlaysSplit(Next(p, first[0]), first[1..], rest);
    }
  }

  lemma GoOn(p: Player, moves: seq<Move>) returns (longer: seq<Move>, p': Player)
    requires PlayerOk(p)
    ensures longer == moves + [Go] && p' == Plays(p, longer) == Next(Plays(p, moves), Go)
  {
    longer := moves + [Go];
    PlaysSplit(p, moves, [Go]);
    assert Plays(Plays(p, moves), [Go]) == Plays(Next(Plays(p, moves), Go), [Go][1..]);
    p' := Plays(p, longer);
  }

  lemma PeekGo(p: Player)
    requires PlayerOk(p) && p.phase.Draining? && p.phase.done < BURST && p.ring.consumer.Free?
    requires p.ring.head != p.ring.tail
    ensures Next(p, Go) == p.(ring := p.ring.(consumer := Capture.Found), phase := Reading(p.phase.done))
  {
  }

  lemma ReadGo(p: Player)
    requires PlayerOk(p) && p.phase.Reading? && p.ring.consumer.Found?
    ensures Next(p, Go) == p.(ring := p.ring.(consumer := Capture.Peeked(p.ring.slots[p.ring.tail % Ring.CAPACITY])),
                              phase := Testing(p.phase.done))
  {
  }

  lemma ApplyGo(p: Player)
    requires PlayerOk(p) && p.phase.Testing? && FrontIsDue(p)
    ensures var e := p.ring.consumer.event;
            Next(p, Go) ==
            p.(ring := p.ring.(live := p.ring.live.(core := Applied(p.ring.live.core, e)), consumer := Capture.Used(e)),
               phase := Popping(p.phase.done))
  {
  }

  lemma PopGo(p: Player)
    requires PlayerOk(p) && p.phase.Popping? && p.ring.consumer.Used? && p.ring.head != p.ring.tail
    ensures Next(p, Go) ==
            p.(ring := p.ring.(tail := Ring.Next(p.ring.tail), consumer := Capture.Free,
                               departures := p.ring.departures + [Capture.Popped(p.ring.consumer.event)]),
               phase := Draining(p.phase.done + 1))
  {
    EventRing.PopStep(p.ring);
  }

  lemma DeclineGo(p: Player)
    requires PlayerOk(p) && p.phase.Testing? && p.ring.consumer.Peeked? && !FrontIsDue(p)
    ensures Next(p, Go) == p.(ring := p.ring.(consumer := Capture.Free), phase := Checking(Later))
  {
  }

  function Looked(p: Player): Player
    requires PlayerOk(p) && p.phase.Draining?
  {
    p.(ring := p.ring.(consumer := Capture.Peeked(p.ring.slots[p.ring.tail % Ring.CAPACITY])),
       phase := Testing(p.phase.done))
  }

  lemma LookRuns(p: Player, moves: seq<Move>, p1: Player) returns (longer: seq<Move>)
    requires PlayerOk(p) && p1 == Plays(p, moves) && p1.phase.Draining? && p1.phase.done < BURST
    requires p1.ring.consumer.Free? && p1.ring.head != p1.ring.tail
    ensures Plays(p, longer) == Looked(p1)
  {
    var p';
    PeekGo(p1);
    longer, p' := GoOn(p, moves);
    ReadGo(p');
    longer, p' := GoOn(p, longer);
  }

  function Taken(p: Player): Player
    requires PlayerOk(p) && p.phase.Testing? && FrontIsDue(p)
  {
    var e := p.ring.consumer.event;
    p.(ring := p.ring.(live := p.ring.live.(core := Applied(p.ring.live.core, e)),
                       tail := Ring.Next(p.ring.tail), consumer := Capture.Free,
                       departures := p.ring.departures + [Capture.Popped(e)]),
       phase := Draining(p.phase.done + 1))
  }

  lemma TakeRuns(p: Player, moves: seq<Move>, p1: Player) returns (longer: seq<Move>)
    requires PlayerOk(p) && p1 == Plays(p, moves) && p1.phase.Testing? && FrontIsDue(p1)
    requires p1.ring.head != p1.ring.tail
    ensures Plays(p, longer) == Taken(p1)
  {
    var p';
    ApplyGo(p1);
    longer, p' := GoOn(p, moves);
    PopGo(p');
    AppliedThenPopped(p1, p');
    longer, p' := GoOn(p, longer);
  }

  lemma AppliedThenPopped(p: Player, q: Player)
    requires PlayerOk(p) && PlayerOk(q) && p.phase.Testing? && FrontIsDue(p) && p.ring.head != p.ring.tail
    requires q == Next(p, Go)
    ensures Next(q, Go) == Taken(p)
  {
    ApplyGo(p);
    PopGo(q);
  }

  lemma FrontOf(s: Capture.State)
    requires Capture.Shaped(s) && CaptureSafety.Queue(s) != []
    ensures s.head != s.tail && CaptureSafety.Queue(s)[0] == s.slots[s.tail % Ring.CAPACITY]
  {
    assert Ring.Pending(s.head, s.tail) > 0;
  }

  /** One due event: looked at, tested, applied and popped. */
  lemma OneEventRuns(p: Player, moves: seq<Move>, p1: Player) returns (longer: seq<Move>)
    requires PlayerOk(p) && p1 == Plays(p, moves) && p1.phase.Draining? && p1.phase.done < BURST
    requires p1.ring.consumer.Free? && FrontDue(p1.ring, p1.clock.tick)
    ensures Plays(p, longer) == p1.(ring := EventRing.Consumed(p1.ring), phase := Draining(p1.phase.done + 1))
  {
    longer := LookRunsDue(p, moves, p1);
    longer := TakeRuns(p, longer, Looked(p1));
    TakenIsConsumed(p1);
  }

  lemma LookRunsDue(p: Player, moves: seq<Move>, p1: Player) returns (longer: seq<Move>)
    requires PlayerOk(p) && p1 == Plays(p, moves) && p1.phase.Draining? && p1.phase.done < BURST
    requires p1.ring.consumer.Free? && FrontDue(p1.ring, p1.clock.tick)
    ensures Plays(p, longer) == Looked(p1) && PlayerOk(Looked(p1)) && FrontIsDue(Looked(p1))
    ensures p1.ring.head != p1.ring.tail
  {
    FrontOf(p1.ring);
    longer := LookRuns(p, moves, p1);
  }

  lemma TakenIsConsumed(p: Player)
    requires PlayerOk(p) && p.phase.Draining? && p.ring.consumer.Free? && p.ring.head != p.ring.tail
    requires FrontIsDue(Looked(p))
    ensures Taken(Looked(p)) == p.(ring := EventRing.Consumed(p.ring), phase := Draining(p.phase.done + 1))
  {
  }

  lemma StopGo(p: Player)
    requires PlayerOk(p) && p.phase.Draining? && (p.phase.done >= BURST || p.ring.head == p.ring.tail)
    ensures Next(p, Go) == p.(phase := Checking(if p.phase.done >= BURST then Enough else Empty))
  {
  }

  /** The drain ends at its burst, at an empty ring, or at an event not yet due. */
  lemma StopRuns(p: Player, moves: seq<Move>, p1: Player) returns (longer: seq<Move>, why: Stop)
    requires PlayerOk(p) && p1 == Plays(p, moves) && p1.phase.Draining? && p1.phase.done <= BURST
    requires p1.ring.consumer.Free? && (p1.phase.done == BURST || !FrontDue(p1.ring, p1.clock.tick))
    ensures Plays(p, longer) == p1.(phase := Checking(why))
  {
    if p1.phase.done == BURST || p1.ring.head == p1.ring.tail {
      why := if p1.phase.done == BURST then Enough else Empty;
      var p';
      StopGo(p1);
      longer, p' := GoOn(p, moves);
    } else {
      why := Later;
      longer := LaterRuns(p, moves, p1);
    }
  }

  lemma LaterRuns(p: Player, moves: seq<Move>, p1: Player) returns (longer: seq<Move>)
    requires PlayerOk(p) && p1 == Plays(p, moves) && p1.phase.Draining? && p1.phase.done < BURST
    requires p1.ring.consumer.Free? && p1.ring.head != p1.ring.tail && !FrontDue(p1.ring, p1.clock.tick)
    ensures Plays(p, longer) == p1.(phase := Checking(Later))
  {
    QueueNotEmpty(p1.ring);
    FrontOf(p1.ring);
    longer := LookRuns(p, moves, p1);
    DeclineGo(Looked(p1));
    var p';
    longer, p' := GoOn(p, longer);
  }

  lemma QueueNotEmpty(s: Capture.State)
    requires Capture.Shaped(s) && s.head != s.tail
    ensures CaptureSafety.Queue(s) != []
  {
    assert Ring.Pending(s.head, s.tail) > 0;
  }

  lemma DrainedStep(p1: Player, p2: Player, why: Stop)
    requires PlayerOk(p1) && p1.phase.Draining? && p1.phase.done < BURST && FrontDue(p1.ring, p1.clock.tick)
    requires p2 == p1.(ring := EventRing.Consumed(p1.ring), phase := Draining(p1.phase.done + 1))
    ensures p2.(ring := Drained(p2.ring, p2.clock.tick, p2.phase.done), phase := Checking(why))
            == p1.(ring := Drained(p1.ring, p1.clock.tick, p1.phase.done), phase := Checking(why))
  {
  }

  /** The drain of a pass, nobody else moving, is a run of the loop with the same result. */
  lemma {:induction false} DrainRuns(p: Player, moves: seq<Move>, p1: Player)
    returns (longer: seq<Move>, why: Stop)
    requires PlayerOk(p) && p1 == Plays(p, moves) && p1.phase.Draining? && p1.phase.done <= BURST
    requires p1.ring.consumer.Free?
    ensures Plays(p, longer) == p1.(ring := Drained(p1.ring, p1.clock.tick, p1.phase.done), phase := Checking(why))
    decreases BURST - p1.phase.done
  {
    if p1.phase.done == BURST || !FrontDue(p1.ring, p1.clock.tick) {
      longer, why := StopRuns(p, moves, p1);
    } else {
      longer := OneEventRuns(p, moves, p1);
      var p2 := Plays(p, longer);
      longer, why := DrainRuns(p, longer, p2);
      DrainedStep(p1, p2, why);
    }
  }

  // ---------------------------------------------------------------- the loops as written

  /** poc_apply_live_event on the live mirror. */
  method ApplyLiveEvent(live: LivePaula.LivePaula, e: Event)
    requires live.Valid()
    modifies live.core
    ensures live.Valid() && live.core.Abs() == Applied(old(live.core.Abs()), e)
  {
    if e.width != 1 && e.width != 2 {
      return;
    }
    if e.width == 2 && e.address % 2 == 1 {
      return;
    }
    live.Write(0xDFF000 + RegisterOf(e.address), WordOf(e.value, e.width));
  }

  /** The replay loop of one pass on the ring, and its backlog test. */
  method ReplayEvents(ring: EventRing.EventRing, tick: nat) returns (backlog: bool)
    requires ring.Valid() && ring.consumer == Capture.Free
    modifies ring`tail, ring`live, ring`departures
    ensures ring.Valid() && ring.Abs() == Drained(old(ring.Abs()), tick, 0)
    ensures backlog <==> FrontDue(ring.Abs(), tick)
  {
    ghost var goal := Drained(ring.Abs(), tick, 0);
    var processed, looking := 0, true;
    while looking && processed < BURST
      invariant ring.Valid() && ring.consumer == Capture.Free && processed <= BURST
      invariant (if looking then Drained(ring.Abs(), tick, processed) else ring.Abs()) == goal
      decreases looking, BURST - processed
    {
      ghost var before := ring.Abs();
      looking := ReplayOne(ring, tick);
      DrainedOnce(before, tick, processed);
      if looking {
        processed := processed + 1;
      }
    }
    backlog := LookAgain(ring, tick);
  }

  lemma DrainedOnce(s: Capture.State, tick: nat, done: nat)
    requires Capture.Shaped(s) && done < BURST
    ensures Drained(s, tick, done) ==
            if FrontDue(s, tick) then Drained(EventRing.Consumed(s), tick, done + 1) else s
  {
  }

  /** The oldest event, if it is due. */
  method ReplayOne(ring: EventRing.EventRing, tick: nat) returns (due: bool)
    requires ring.Valid() && ring.consumer == Capture.Free
    modifies ring`tail, ring`live, ring`departures
    ensures ring.Valid() && due == FrontDue(old(ring.Abs()), tick)
    ensures ring.Abs() == if due then EventRing.Consumed(old(ring.Abs())) else old(ring.Abs())
  {
    due := LookAgain(ring, tick);
    if due {
      ring.ApplyAndPop();
    }
  }

  method LookAgain(ring: EventRing.EventRing, tick: nat) returns (due: bool)
    requires ring.Valid()
    ensures due == FrontDue(ring.Abs(), tick)
  {
    var front := ring.Peek();
    due := front.Some? && IsDue(tick, front.value);
  }
}
