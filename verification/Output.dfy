/** What the live mirror puts out: the gains on the last valid frame, how they move, and what a
    mixer request means. */
module Output {
  import opened Words
  import opened PaulaCore
  import opened PaulaMix
  import opened Transaction
  import opened Arith

  // ---------------------------------------------------------------- the output gains

  function OutLeft(v: Live): real {
    v.lastLeft * v.gate
  }

  function OutRight(v: Live): real {
    v.lastRight * v.gate
  }

  /** Rolled-back frames repeat the last valid output ever more quietly; from full level the 96th
      is silent. */
  lemma FramesFade(v: Live, events: seq<Event>)
    requires LiveOk(v) && 0.0 <= v.gate <= 1.0 && AllFail(v, events)
    ensures var r, n := LiveEnd(v, events), |events|;
            && r.gate == (if v.gate <= n as real / 96.0 then 0.0 else v.gate - n as real / 96.0)
            && r.lastLeft == v.lastLeft && r.lastRight == v.lastRight
            && (n >= 96 ==> OutLeft(r) == 0.0 && OutRight(r) == 0.0)
  {
    GateFades(v, events);
    FadedFully(v.gate, |events|);
    ShutIsSilent(LiveEnd(v, events));
  }

  lemma ShutIsSilent(v: Live)
    ensures v.gate == 0.0 ==> OutLeft(v) == 0.0 && OutRight(v) == 0.0
  {
  }

  lemma FadedFully(gate: real, n: nat)
    requires 0.0 <= gate <= 1.0
    ensures Faded(gate, n) == if gate <= n as real / 96.0 then 0.0 else gate - n as real / 96.0
    ensures n >= 96 ==> Faded(gate, n) == 0.0
  {
    if n >= 96 {
      assert n as real >= 96.0;
    }
  }

  ghost predicate AllCommit(v: Live, events: seq<Event>)
    requires LiveOk(v)
    decreases |events|
  {
    events == []
    || (events[0].FrameDue? && !Fails(v, events[0]) && AllCommit(LiveStep(v, events[0]), events[1..]))
  }

  /** A committed frame puts out its mix times the master gain, which moves toward its target;
      the gate opens one step, and the interrupts of the frame are counted. */
  lemma CommittedOutput(v: Live, e: Event)
    requires LiveOk(v) && e.FrameDue? && !Fails(v, e)
    ensures var r, f := LiveStep(v, e), RenderFrame(v.core, CacheReader(e.ram, e.hit));
            && r.lastLeft == Left(f.parts) * r.masterGain && r.lastRight == Right(f.parts) * r.masterGain
            && r.masterGain == Approached(v.masterGain, v.masterTarget, 1)
            && r.masterTarget == v.masterTarget && r.virtualIrqs == v.virtualIrqs + f.exec.irqs && !r.waiting
            && (0.0 <= v.gate <= 1.0 ==> r.gate == Approached(v.gate, 1.0, 1))
  {
  }

  lemma ApproachedOn(from: real, to: real, n: nat)
    ensures Approached(Approached(from, to, 1), to, n) == Approached(from, to, n + 1)
  {
    assert (n + 1) as real == n as real + 1.0;
  }

  lemma ApproachedStays(from: real, to: real, n: nat)
    requires 0.0 <= from <= 1.0 && 0.0 <= to <= 1.0
    ensures 0.0 <= Approached(from, to, n) <= 1.0
  {
  }

  /** Committed frames in a row open the gate and move the master gain in straight lines, full
      range in 96 frames. */
  lemma {:induction false} FramesOpen(v: Live, events: seq<Event>)
    requires LiveOk(v) && 0.0 <= v.gate <= 1.0 && AllCommit(v, events)
    ensures var r, n := LiveEnd(v, events), |events|;
            && r.gate == Approached(v.gate, 1.0, n)
            && r.masterGain == Approached(v.masterGain, v.masterTarget, n) && r.masterTarget == v.masterTarget
    decreases |events|
  {
    if events != [] {
      var next := LiveStep(v, events[0]);
      CommittedOutput(v, events[0]);
      ApproachedStays(v.gate, 1.0, 1);
      FramesOpen(next, events[1..]);
      ApproachedOn(v.gate, 1.0, |events| - 1);
      ApproachedOn(v.masterGain, v.masterTarget, |events| - 1);
    }
  }

  lemma {:induction false} LiveRunsOn(v: Live, events: seq<Event>, e: Event)
    requires LiveOk(v)
    ensures LiveEnd(v, events + [e]) == LiveStep(LiveEnd(v, events), e)
    decreases |events|
  {
    if events == [] {
      assert [e][1..] == [] && events + [e] == [e];
      assert LiveEnd(v, [e]) == LiveEnd(LiveStep(v, e), []);
    } else {
      assert (events + [e])[1..] == events[1..] + [e];
      LiveRunsOn(LiveStep(v, events[0]), events[1..], e);
    }
  }

  /** With the master volume at zero the output is silent from the 96th committed frame on. */
  lemma MasterSilences(v: Live, events: seq<Event>, e: Event)
    requires LiveOk(v) && 0.0 <= v.gate <= 1.0 && 0.0 <= v.masterGain <= 1.0 && v.masterTarget == 0.0
    requires |events| >= 95 && AllCommit(v, events)
    requires e.FrameDue? && !Fails(LiveEnd(v, events), e)
    ensures var r := LiveEnd(v, events + [e]);
            r.masterGain == 0.0 && OutLeft(r) == 0.0 && OutRight(r) == 0.0
  {
    var q := LiveEnd(v, events);
    FramesOpen(v, events);
    CommittedOutput(q, e);
    LiveRunsOn(v, events, e);
    assert |events| as real >= 95.0;
    assert 0.0 <= q.masterGain <= 1.0 / 96.0;
  }

  /** A resync is silent at once and makes a sweep due; the master gain survives it. */
  lemma ResyncSilences(v: Live)
    requires LiveOk(v)
    ensures var r := LiveStep(v, Resync);
            && OutLeft(r) == 0.0 && OutRight(r) == 0.0 && r.gate == 1.0 && !r.waiting && r.countdown == 0
            && r.masterGain == v.masterGain && r.masterTarget == v.masterTarget && r.lastMixer == v.lastMixer
  {
  }

  // ---------------------------------------------------------------- mixer requests

  function Bit(b: bool): nat {
    if b then 1 else 0
  }

  /** A request: master and stereo in percent, linear interpolation, and who is muted. */
  datatype Settings = Settings(
    master: nat, stereo: nat, linear: bool, mute0: bool, mute1: bool, mute2: bool, mute3: bool)

  predicate SettingsOk(s: Settings) {
    s.master <= 100 && s.stereo <= 100
  }

  /** paula_mixer_pack: bit 31, master from bit 0, stereo from 7, linear at 14, mutes from 15. */
  function Packed(s: Settings): nat {
    0x8000_0000 + s.master + 0x80 * s.stereo + 0x4000 * Bit(s.linear)
    + 0x8000 * Bit(s.mute0) + 0x1_0000 * Bit(s.mute1) + 0x2_0000 * Bit(s.mute2) + 0x4_0000 * Bit(s.mute3)
  }

  lemma PackedFields(s: Settings)
    requires SettingsOk(s)
    ensures var w := Packed(s);
            && w % 128 == s.master && w / 128 % 128 == s.stereo && (w / 0x4000 % 2 == 1 <==> s.linear)
            && w / 0x8000 % 16 == Bit(s.mute0) + 2 * Bit(s.mute1) + 4 * Bit(s.mute2) + 8 * Bit(s.mute3)
            && w / 0x8000_0000 == 1 && w % 0x8000_0000 / 0x8_0000 == 0
  {
    var w, mask := Packed(s), Bit(s.mute0) + 2 * Bit(s.mute1) + 4 * Bit(s.mute2) + 8 * Bit(s.mute3);
    var levels, tail := s.master + 0x80 * s.stereo, Bit(s.linear) + 2 * mask + 0x2_0000;
    Quotient(w, 0x80, s.stereo + 0x80 * tail, s.master);
    Quotient(s.stereo + 0x80 * tail, 0x80, tail, s.stereo);
    Quotient(w, 0x4000, tail, levels);
    Quotient(w, 0x8000, mask + 0x1_0000, levels + 0x4000 * Bit(s.linear));
    Quotient(w, 0x8000_0000, 1, w - 0x8000_0000);
  }

  lemma MutedFields(w: nat, m0: bool, m1: bool, m2: bool, m3: bool)
    requires w / 0x8000 % 16 == Bit(m0) + 2 * Bit(m1) + 4 * Bit(m2) + 8 * Bit(m3)
    ensures MixerMuted(w) == [m0, m1, m2, m3]
  {
  }

  /** A packed request is valid and takes effect as it was meant, each channel's mute in its
      place, unless it repeats the last one; and nothing else changes. */
  lemma RequestMeans(v: Live, s: Settings)
    requires LiveOk(v) && SettingsOk(s)
    ensures MixerValid(Packed(s))
    ensures var r := LiveStep(v, MixerRequest(Packed(s)));
            if v.lastMixer == Packed(s) then r == v
            else
              && r == v.(masterTarget := s.master as real * 0.01, lastMixer := Packed(s), core := r.core)
              && r.core == v.core.(stereoSep := s.stereo as real * 0.01,
                                   interp := if s.linear then Linear else Nearest,
                                   muted := [s.mute0, s.mute1, s.mute2, s.mute3])
  {
    PackedFields(s);
    MutedFields(Packed(s), s.mute0, s.mute1, s.mute2, s.mute3);
  }

  /** A 32-bit word is a valid request exactly when it is packed from settings in range; any
      other changes nothing. */
  lemma ValidIff(v: Live, w: nat)
    requires LiveOk(v) && w < U32
    ensures MixerValid(w) <==> exists s :: SettingsOk(s) && Packed(s) == w
    ensures !MixerValid(w) ==> LiveStep(v, MixerRequest(w)) == v
  {
    if MixerValid(w) {
      var s := Unpacked(w);
      UnpackedPacks(w);
      assert SettingsOk(s) && Packed(s) == w;
    }
    if s :| SettingsOk(s) && Packed(s) == w {
      PackedFields(s);
    }
  }

  function Unpacked(w: nat): Settings {
    Settings(w % 128, w / 0x80 % 128, w / 0x4000 % 2 == 1,
             w / 0x8000 % 2 == 1, w / 0x1_0000 % 2 == 1, w / 0x2_0000 % 2 == 1, w / 0x4_0000 % 2 == 1)
  }

  lemma UnpackedPacks(w: nat)
    requires w < U32 && MixerValid(w)
    ensures SettingsOk(Unpacked(w)) && Packed(Unpacked(w)) == w
  {
    var high := w / 0x4000;
    assert w / 0x80 / 0x80 == high && w == 0x4000 * high + 0x80 * (w / 0x80 % 0x80) + w % 0x80;
    HighBits(w, high);
  }

  /** The request above its levels: one bit for the interpolation, four for the mutes. */
  lemma HighBits(w: nat, high: nat)
    requires w < U32 && MixerValid(w) && high == w / 0x4000
    ensures high == 0x2_0000 + high % 2 + 2 * (w / 0x8000 % 2) + 4 * (w / 0x1_0000 % 2)
                    + 8 * (w / 0x2_0000 % 2) + 16 * (w / 0x4_0000 % 2)
  {
    var b, c, d := w / 0x8000, w / 0x1_0000, w / 0x2_0000;
    assert high / 2 == b && b / 2 == c && c / 2 == d && d / 2 == w / 0x4_0000;
    assert w / 0x4_0000 / 2 == 4096;
  }
}
