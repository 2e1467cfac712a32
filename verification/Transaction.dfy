/** Transactional rendering: a frame is rendered speculatively and, if any sample byte it
    read was missing, the whole core is put back. */
module Transaction {
  import opened Words
  import opened PaulaCore
  import opened PaulaTimeline

  // ---------------------------------------------------------------- the sample callback

  /** Chip RAM as a frame sees it, and which of the frame's reads find their page ready. */
  type Ram = nat -> Byte
  type Hits = (nat, nat) -> bool

  /** A renderer that always sees RAM. Addresses above chip RAM read as zero. */
  function RamReader(ram: Ram): Reader {
    (i: nat, a: nat) => if a < CHIP_LIMIT then ram(a) else 0
  }

  /** The cached callback: a miss is answered with a synthetic zero. */
  function CacheReader(ram: Ram, hit: Hits): Reader {
    (i: nat, a: nat) => if a < CHIP_LIMIT && hit(i, a) then ram(a) else 0
  }

  ghost predicate Missed(fetched: seq<nat>, hit: Hits) {
    exists i :: 0 <= i < |fetched| && fetched[i] < CHIP_LIMIT && !hit(i, fetched[i])
  }

  // ---------------------------------------------------------------- the live mirror

  datatype Live = Live(
    core: Core, masterGain: real, masterTarget: real, lastMixer: nat,
    waiting: bool, gate: real, lastLeft: real, lastRight: real,
    countdown: nat, virtualIrqs: nat)

  ghost predicate LiveOk(v: Live) {
    CoreOk(v.core)
  }

  predicate MixerValid(word: nat) {
    && word / 0x8000_0000 == 1 && word % 0x8000_0000 / 0x8_0000 == 0
    && word % 128 <= 100 && word / 128 % 128 <= 100
  }

  function MixerMuted(word: nat): (m: seq<bool>)
    ensures |m| == CHANNELS
  {
    var mask := word / 0x8000 % 16;
    [mask % 2 == 1, mask / 2 % 2 == 1, mask / 4 % 2 == 1, mask / 8 == 1]
  }

  /** A stereo separation outside 0..1 is clamped. */
  function Clamped(s: real): real {
    if s < 0.0 then 0.0 else if s > 1.0 then 1.0 else s
  }

  /** The core's share of a mixer request. */
  function CoreMixed(p: Core, word: nat): (r: Core)
    requires CoreOk(p)
    ensures CoreOk(r)
  {
    p.(stereoSep := Clamped((word / 128 % 128) as real * 0.01),
       interp := if word / 0x4000 % 2 == 1 then Linear else Nearest,
       muted := MixerMuted(word))
  }

  function MixerApplied(v: Live, word: nat): (r: Live)
    requires LiveOk(v)
    ensures LiveOk(r)
  {
    if word == v.lastMixer || !MixerValid(word) then v
    else v.(masterTarget := (word % 128) as real * 0.01, core := CoreMixed(v.core, word), lastMixer := word)
  }

  function Written(v: Live, address: nat, value: Word): (r: Live)
    requires LiveOk(v)
    ensures LiveOk(r)
  {
    v.(core := WriteRegister(v.core, address, value))
  }

  /** A resync wipes the core and the cache-wait state; gains survive. */
  function ResetLive(v: Live): (r: Live)
    requires LiveOk(v)
    ensures LiveOk(r)
  {
    v.(core := ResetCore(v.core), waiting := false, gate := 1.0,
       lastLeft := 0.0, lastRight := 0.0, countdown := 0)
  }

  function Scaled(x: real, gain: real): real {
    x * gain
  }

  function Lowered(gate: real): real {
    if gate - 1.0 / 96.0 < 0.0 then 0.0 else gate - 1.0 / 96.0
  }

  function Raised(gate: real): real {
    if gate >= 1.0 then gate
    else if gate + 1.0 / 96.0 > 1.0 then 1.0
    else gate + 1.0 / 96.0
  }

  /** One sweep of lookahead every 32 frames, and at once when a wait begins. */
  function Counted(v: Live): (r: Live) {
    v.(countdown := (if v.countdown == 0 then 32 else v.countdown) - 1)
  }

  function RolledBack(v: Live): Live {
    v.(waiting := true, countdown := if v.waiting then v.countdown else 0, gate := Lowered(v.gate))
  }

  function CommittedFrame(v: Live, f: Frame): Live {
    var gain := Ramped(v.masterGain, v.masterTarget);
    v.(core := f.exec.core, masterGain := gain, waiting := false, gate := Raised(v.gate),
       lastLeft := Scaled(Left(f.parts), gain), lastRight := Scaled(Right(f.parts), gain),
       virtualIrqs := v.virtualIrqs + f.exec.irqs)
  }

  ghost function LiveFrame(v: Live, ram: Ram, hit: Hits): (r: Live)
    requires LiveOk(v)
    ensures LiveOk(r)
  {
    var f := RenderFrame(v.core, CacheReader(ram, hit));
    if Missed(f.exec.fetched, hit) then RolledBack(Counted(v)) else CommittedFrame(Counted(v), f)
  }

  // ---------------------------------------------------------------- the ideal renderer

  datatype Ideal = Ideal(
    core: Core, masterGain: real, masterTarget: real, lastMixer: nat,
    left: real, right: real, virtualIrqs: nat)

  function View(v: Live): Ideal {
    Ideal(v.core, v.masterGain, v.masterTarget, v.lastMixer, v.lastLeft, v.lastRight, v.virtualIrqs)
  }

  function IdealFrame(d: Ideal, ram: Ram): (r: Ideal)
    requires CoreOk(d.core)
    ensures CoreOk(r.core)
  {
    var f := RenderFrame(d.core, RamReader(ram));
    var gain := Ramped(d.masterGain, d.masterTarget);
    d.(core := f.exec.core, masterGain := gain,
       left := Scaled(Left(f.parts), gain), right := Scaled(Right(f.parts), gain),
       virtualIrqs := d.virtualIrqs + f.exec.irqs)
  }

  // ---------------------------------------------------------------- events

  datatype Event =
    | FrameDue(ram: Ram, hit: Hits)
    | RegisterWrite(address: nat, value: Word)
    | MixerRequest(word: nat)
    | Resync

  ghost function LiveStep(v: Live, e: Event): (r: Live)
    requires LiveOk(v)
    ensures LiveOk(r)
  {
    match e
    case FrameDue(ram, hit) => LiveFrame(v, ram, hit)
    case RegisterWrite(address, value) => Written(v, address, value)
    case MixerRequest(word) => MixerApplied(v, word)
    case Resync => ResetLive(v)
  }

  function IdealStep(d: Ideal, e: Event): (r: Ideal)
    requires CoreOk(d.core)
    ensures CoreOk(r.core)
  {
    match e
    case FrameDue(ram, _) => IdealFrame(d, ram)
    case RegisterWrite(address, value) => d.(core := WriteRegister(d.core, address, value))
    case MixerRequest(word) =>
      if word == d.lastMixer || !MixerValid(word) then d
      else d.(masterTarget := (word % 128) as real * 0.01, core := CoreMixed(d.core, word), lastMixer := word)
    case Resync => d.(core := ResetCore(d.core), left := 0.0, right := 0.0)
  }

  /** The event is a frame that some missing page rolls back. */
  ghost predicate Fails(v: Live, e: Event)
    requires LiveOk(v)
  {
    e.FrameDue? && Missed(RenderFrame(v.core, CacheReader(e.ram, e.hit)).exec.fetched, e.hit)
  }

  /** The states a run passes through, one after each event. */
  ghost function LiveRun(v: Live, events: seq<Event>): (states: seq<Live>)
    requires LiveOk(v)
    ensures |states| == |events|
    decreases |events|
  {
    if events == [] then []
    else [LiveStep(v, events[0])] + LiveRun(LiveStep(v, events[0]), events[1..])
  }

  function IdealRun(d: Ideal, events: seq<Event>): (states: seq<Ideal>)
    requires CoreOk(d.core)
    ensures |states| == |events|
    decreases |events|
  {
    if events == [] then []
    else [IdealStep(d, events[0])] + IdealRun(IdealStep(d, events[0]), events[1..])
  }

  /** The events left when rolled-back frames are deleted. */
  ghost function Kept(v: Live, events: seq<Event>): seq<Event>
    requires LiveOk(v)
    decreases |events|
  {
    if events == [] then []
    else
      var rest := Kept(LiveStep(v, events[0]), events[1..]);
      if Fails(v, events[0]) then rest else [events[0]] + rest
  }

  /** The views of the run's states when those after rolled-back frames are deleted. */
  ghost function KeptViews(v: Live, events: seq<Event>): seq<Ideal>
    requires LiveOk(v)
    decreases |events|
  {
    if events == [] then []
    else
      var next := LiveStep(v, events[0]);
      var rest := KeptViews(next, events[1..]);
      if Fails(v, events[0]) then rest else [View(next)] + rest
  }

  // ---------------------------------------------------------------- refinement

  /** A frame without a miss is the ideal frame: state, output, gain step and interrupts. */
  lemma CommittedFrameIsIdeal(v: Live, ram: Ram, hit: Hits)
    requires LiveOk(v) && !Fails(v, FrameDue(ram, hit))
    ensures View(LiveFrame(v, ram, hit)) == IdealFrame(View(v), ram)
  {
    FrameDependsOnItsReads(v.core, CacheReader(ram, hit), RamReader(ram));
  }

  /** A rolled-back frame changes nothing an ideal renderer has. */
  lemma RolledBackFrameIsInvisible(v: Live, ram: Ram, hit: Hits)
    requires LiveOk(v) && Fails(v, FrameDue(ram, hit))
    ensures View(LiveFrame(v, ram, hit)) == View(v)
  {
  }

  lemma StepRefines(v: Live, e: Event)
    requires LiveOk(v)
    ensures View(LiveStep(v, e)) == if Fails(v, e) then View(v) else IdealStep(View(v), e)
  {
    if e.FrameDue? {
      if Fails(v, e) {
        RolledBackFrameIsInvisible(v, e.ram, e.hit);
      } else {
        CommittedFrameIsIdeal(v, e.ram, e.hit);
      }
    }
  }

  /** Transactional rendering refines the ideal renderer: for any mix of misses, page
      arrivals, register writes, mixer changes and resyncs, deleting the rolled-back frames
      leaves exactly the ideal run: core states, pre-gate outputs, master-gain steps and
      virtual interrupt count after every step. */
  lemma {:induction false} LiveRefinesIdeal(v: Live, events: seq<Event>)
    requires LiveOk(v)
    ensures KeptViews(v, events) == IdealRun(View(v), Kept(v, events))
    decreases |events|
  {
    if events != [] {
      var next := LiveStep(v, events[0]);
      StepRefines(v, events[0]);
      LiveRefinesIdeal(next, events[1..]);
      if !Fails(v, events[0]) {
        var kept := Kept(v, events);
        assert kept[0] == events[0] && kept[1..] == Kept(next, events[1..]);
      }
    }
  }

  // ---------------------------------------------------------------- the output gate

  /** The state a run ends in. */
  ghost function LiveEnd(v: Live, events: seq<Event>): (r: Live)
    requires LiveOk(v)
    ensures LiveOk(r)
    decreases |events|
  {
    if events == [] then v else LiveEnd(LiveStep(v, events[0]), events[1..])
  }

  /** Every event of the run is a frame that a missing page rolls back. */
  ghost predicate AllFail(v: Live, events: seq<Event>)
    requires LiveOk(v)
    decreases |events|
  {
    events == [] || (Fails(v, events[0]) && AllFail(LiveStep(v, events[0]), events[1..]))
  }

  function Faded(gate: real, n: nat): real {
    if gate - n as real / 96.0 < 0.0 then 0.0 else gate - n as real / 96.0
  }

  lemma FadedOnce(gate: real, n: nat)
    requires 0.0 <= gate
    ensures 0.0 <= Lowered(gate) <= gate || Lowered(gate) == 0.0
    ensures Faded(Lowered(gate), n) == Faded(gate, n + 1)
  {
    assert (n + 1) as real == n as real + 1.0;
  }

  /** n rolled-back frames in a row take the gate down by n/96, never below silence, and leave
      everything an ideal renderer has as it was. */
  lemma {:induction false} GateFades(v: Live, events: seq<Event>)
    requires LiveOk(v) && 0.0 <= v.gate && AllFail(v, events)
    ensures LiveEnd(v, events).gate == Faded(v.gate, |events|) && View(LiveEnd(v, events)) == View(v)
    decreases |events|
  {
    if events != [] {
      var e := events[0];
      RolledBackFrameIsInvisible(v, e.ram, e.hit);
      FailingGate(v, e);
      FadedOnce(v.gate, |events| - 1);
      GateFades(LiveStep(v, e), events[1..]);
    }
  }

  lemma FailingGate(v: Live, e: Event)
    requires LiveOk(v) && 0.0 <= v.gate && Fails(v, e)
    ensures LiveStep(v, e).gate == Lowered(v.gate) && 0.0 <= LiveStep(v, e).gate
  {
    FrameMovesGate(v, RenderFrame(v.core, CacheReader(e.ram, e.hit)));
  }

  lemma GateStaysInRange(v: Live, e: Event)
    requires LiveOk(v) && 0.0 <= v.gate <= 1.0
    ensures 0.0 <= LiveStep(v, e).gate <= 1.0
  {
    if e.FrameDue? {
      FrameMovesGate(v, RenderFrame(v.core, CacheReader(e.ram, e.hit)));
    }
  }

  lemma FrameMovesGate(v: Live, f: Frame)
    ensures RolledBack(Counted(v)).gate == Lowered(v.gate)
    ensures CommittedFrame(Counted(v), f).gate == Raised(v.gate)
  {
  }
}
