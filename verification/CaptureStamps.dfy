/** The stamps of captured events: they follow the shared counter in capture order, because an
    event is stamped under the lock, between the check for room and its publication. */
module CaptureStamps {
  import opened Words
  import opened Registers
  import opened Capture
  import opened CaptureSafety

  ghost predicate Ordered(events: seq<Event>) {
    forall i, j :: 0 <= i < j < |events| ==> events[i].ticks <= events[j].ticks
  }

  ghost predicate AllBefore(events: seq<Event>, t: nat) {
    forall i :: 0 <= i < |events| ==> events[i].ticks <= t
  }

  /** The captured sequence is in stamp order, nothing in it is from the future, and neither is
      the event that is stored and not yet published. */
  ghost predicate Stamped(s: State) {
    && Ordered(s.log) && AllBefore(s.log, s.now)
    && (s.producer.Stored? ==> s.producer.event.ticks <= s.now && AllBefore(s.log, s.producer.event.ticks))
  }

  lemma OrderedAppends(events: seq<Event>, e: Event)
    requires Ordered(events) && AllBefore(events, e.ticks)
    ensures Ordered(events + [e])
  {
  }

  lemma ProducerKeepsStamps(s: State)
    requires InRange(s) && Stamped(s)
    ensures Stamped(ProducerNext(s))
  {
    if s.producer.Stored? {
      OrderedAppends(s.log, s.producer.event);
    }
  }

  lemma ConsumerFrame(s: State)
    requires InRange(s)
    ensures var s' := ConsumerNext(s);
            s'.now == s.now && s'.log == s.log && s'.producer == s.producer && s'.noted == s.noted
  {
    var s' := ConsumerNext(s);
    if s.consumer.Peeked? || s.consumer.Rebuilding? || s.consumer.Used? || s.consumer.Noticed? {
      assert s'.log == s.log;
    }
  }

  lemma StepKeepsStamps(s: State, a: Action)
    requires InRange(s) && Stamped(s)
    ensures Stamped(Step(s, a))
  {
    var s' := Step(s, a);
    match a
    case ProducerStep => ProducerKeepsStamps(s);
    case ConsumerStep => ConsumerFrame(s);
    case Tick => assert s' == s.(now := s.now + 1);
    case _ =>
      assert s'.log == s.log && s'.now == s.now;
      assert s'.producer == s.producer || !s'.producer.Stored?;
  }

  /** Over every run the captured events are in stamp order and none is from the future. */
  lemma {:induction false} StampsFollowTheCounter(s: State, actions: seq<Action>)
    requires InRange(s) && Stamped(s)
    ensures Stamped(Run(s, actions))
    decreases |actions|
  {
    if actions != [] {
      StepKeepsStamps(s, actions[0]);
      StampsFollowTheCounter(Step(s, actions[0]), actions[1..]);
    }
  }

  lemma InitialStamped(s: State)
    requires Initial(s)
    ensures Stamped(s)
  {
  }
}
