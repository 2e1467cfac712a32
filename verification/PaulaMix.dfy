/** What reaches the two sides of the output: which channel goes where, how loud, and how fast
    volume, panning and muting move. */
module PaulaMix {
  import opened PaulaCore
  import opened PaulaTimeline
  import LookaheadFrames

  // ---------------------------------------------------------------- the parts of a frame

  /** The settings a frame's parts carry: those at its start, ramped by one step. */
  ghost predicate PartIs(p: Core, part: Part, ch: nat)
    requires CoreOk(p) && ch < CHANNELS
  {
    && part.ch == ch && part.interp == p.interp && part.muted == p.muted[ch]
    && part.mixGain == Ramped(p.mixGain[ch], if p.muted[ch] then 0.0 else 1.0)
    && part.stereo == Ramped(p.stereoCurrent, p.stereoSep)
  }

  /** What the mix of the first ch channels has settled. */
  ghost predicate MixedBelow(p: Core, f: Frame, ch: nat)
    requires CoreOk(p) && ch <= CHANNELS
  {
    var q := f.exec.core;
    && CoreOk(q) && |f.parts| == ch
    && q.muted == p.muted && q.interp == p.interp && q.stereoSep == p.stereoSep
    && q.stereoCurrent == Ramped(p.stereoCurrent, p.stereoSep)
    && (forall i :: 0 <= i < ch ==> PartIs(p, f.parts[i], i) && q.mixGain[i] == f.parts[i].mixGain)
    && (forall i :: ch <= i < CHANNELS ==> q.mixGain[i] == p.mixGain[i])
  }

  lemma {:induction false} TicksKeepMix(e: Exec, ch: nat, read: Reader)
    requires ExecOk(e) && ch < CHANNELS
    ensures var p, q := e.core, Ticks(e, ch, read).core;
            && q.muted == p.muted && q.interp == p.interp && q.stereoSep == p.stereoSep
            && q.stereoCurrent == p.stereoCurrent && q.mixGain == p.mixGain
    decreases Phase(e, ch).Floor
  {
    if Phase(e, ch) >= 1.0 {
      var d := WithPhase(e, ch, Phase(e, ch) - 1.0);
      TickKeepsMix(d, ch, read);
      TicksKeepMix(Advance(d, ch, read), ch, read);
    }
  }

  lemma TickKeepsMix(e: Exec, ch: nat, read: Reader)
    requires ExecOk(e) && ch < CHANNELS
    ensures var p, q := e.core, Advance(e, ch, read).core;
            && q.muted == p.muted && q.interp == p.interp && q.stereoSep == p.stereoSep
            && q.stereoCurrent == p.stereoCurrent && q.mixGain == p.mixGain
  {
  }

  lemma MixOne(p: Core, f: Frame, ch: nat, read: Reader)
    requires CoreOk(p) && ch < CHANNELS && MixedBelow(p, f, ch)
    ensures MixedBelow(p, MixChannel(f, ch, read), ch + 1)
  {
    TicksKeepMix(Started(f.exec, ch), ch, read);
  }

  lemma {:induction false} MixRest(p: Core, f: Frame, ch: nat, read: Reader)
    requires CoreOk(p) && ch <= CHANNELS && MixedBelow(p, f, ch)
    ensures MixedBelow(p, MixFrom(f, ch, read), CHANNELS)
    decreases CHANNELS - ch
  {
    if ch < CHANNELS {
      MixOne(p, f, ch, read);
      MixRest(p, MixChannel(f, ch, read), ch + 1, read);
    }
  }

  /** A frame has one part for each channel in order, with the settings of its start. */
  lemma FrameParts(p: Core, read: Reader)
    requires CoreOk(p)
    ensures MixedBelow(p, RenderFrame(p, read), CHANNELS)
  {
    MixRest(p, FrameStart(p), 0, read);
  }

  /** Part i is what channel i was left with, before its gain moved. */
  ghost predicate HeardBelow(p: Core, f: Frame, ch: nat)
    requires CoreOk(p) && ch <= CHANNELS
  {
    var q := f.exec.core;
    && CoreOk(q) && |f.parts| == ch
    && (forall i :: 0 <= i < ch ==> q.channels[i] == Glided(f.parts[i].heard))
    && (forall i :: ch <= i < CHANNELS ==> q.channels[i] == p.channels[i])
  }

  lemma HeardOne(p: Core, f: Frame, ch: nat, read: Reader)
    requires CoreOk(p) && ch < CHANNELS && HeardBelow(p, f, ch)
    ensures HeardBelow(p, MixChannel(f, ch, read), ch + 1)
  {
    LookaheadFrames.TicksFrame(Started(f.exec, ch), ch, read);
  }

  lemma {:induction false} HeardRest(p: Core, f: Frame, ch: nat, read: Reader)
    requires CoreOk(p) && ch <= CHANNELS && HeardBelow(p, f, ch)
    ensures HeardBelow(p, MixFrom(f, ch, read), CHANNELS)
    decreases CHANNELS - ch
  {
    if ch < CHANNELS {
      HeardOne(p, f, ch, read);
      HeardRest(p, MixChannel(f, ch, read), ch + 1, read);
    }
  }

  /** A channel that is not muted sounds as the frame leaves it: its samples and phase after the
      frame's ticks, at its gain after the glide. */
  lemma HeardIsPlayed(p: Core, read: Reader, ch: nat)
    requires CoreOk(p) && ch < CHANNELS && !p.muted[ch]
    ensures var f := RenderFrame(p, read);
            var c := f.exec.core.channels[ch];
            |f.parts| == 4 && Voice(f.parts[ch]) == Resample(c, p.interp) * c.gain
  {
    FrameParts(p, read);
    HeardRest(p, FrameStart(p), 0, read);
    var f := RenderFrame(p, read);
    assert PartIs(p, f.parts[ch], ch);
    assert f.exec.core.channels[ch] == Glided(f.parts[ch].heard);
  }

  // ---------------------------------------------------------------- panning

  /** What a part is worth before panning. */
  function Worth(part: Part): real {
    Voice(part) * part.mixGain
  }

  lemma BothSides(part: Part)
    ensures LeftOf(part) + RightOf(part) == Worth(part)
    ensures part.stereo == 0.0 ==> LeftOf(part) == RightOf(part) == Worth(part) / 2.0
  {
    var w, b := Worth(part), Bleed(part.stereo);
    assert w * (1.0 - b) + w * b == w;
  }

  /** Hard pan: channels 0 and 3 go left, 1 and 2 go right, and nothing crosses. */
  lemma HardPan(part: Part)
    requires part.stereo == 1.0
    ensures part.ch == 0 || part.ch == 3 ==> LeftOf(part) == Worth(part) && RightOf(part) == 0.0
    ensures part.ch == 1 || part.ch == 2 ==> LeftOf(part) == 0.0 && RightOf(part) == Worth(part)
  {
    assert Bleed(1.0) == 0.0;
  }

  lemma FourParts(parts: seq<Part>)
    requires |parts| == 4
    ensures Left(parts) == LeftOf(parts[0]) + LeftOf(parts[1]) + LeftOf(parts[2]) + LeftOf(parts[3])
    ensures Right(parts) == RightOf(parts[0]) + RightOf(parts[1]) + RightOf(parts[2]) + RightOf(parts[3])
  {
    var three, two, one := parts[..3], parts[..2], parts[..1];
    assert three[..2] == two && two[..1] == one && one[..0] == [];
    assert Left(one) == LeftOf(parts[0]) && Right(one) == RightOf(parts[0]);
    assert Left(two) == Left(one) + LeftOf(parts[1]) && Right(two) == Right(one) + RightOf(parts[1]);
    assert Left(three) == Left(two) + LeftOf(parts[2]) && Right(three) == Right(two) + RightOf(parts[2]);
  }

  /** The two sides of any frame add up to what its four channels are worth; at full separation
      the left is channels 0 and 3 and the right channels 1 and 2, and without separation the
      sides are equal. */
  lemma FramePanning(p: Core, read: Reader)
    requires CoreOk(p)
    ensures var parts := RenderFrame(p, read).parts;
            && |parts| == 4
            && Left(parts) + Right(parts) == Worth(parts[0]) + Worth(parts[1]) + Worth(parts[2]) + Worth(parts[3])
            && (p.stereoCurrent == p.stereoSep == 1.0 ==>
                  Left(parts) == Worth(parts[0]) + Worth(parts[3])
                  && Right(parts) == Worth(parts[1]) + Worth(parts[2]))
            && (p.stereoCurrent == p.stereoSep == 0.0 ==> Left(parts) == Right(parts))
  {
    var parts := RenderFrame(p, read).parts;
    FrameParts(p, read);
    FourParts(parts);
    forall i | 0 <= i < 4
      ensures LeftOf(parts[i]) + RightOf(parts[i]) == Worth(parts[i])
      ensures p.stereoCurrent == p.stereoSep == 0.0 ==> LeftOf(parts[i]) == RightOf(parts[i])
    {
      BothSides(parts[i]);
    }
    if p.stereoCurrent == p.stereoSep == 1.0 {
      forall i | 0 <= i < 4
        ensures i == 0 || i == 3 ==> LeftOf(parts[i]) == Worth(parts[i]) && RightOf(parts[i]) == 0.0
        ensures i == 1 || i == 2 ==> LeftOf(parts[i]) == 0.0 && RightOf(parts[i]) == Worth(parts[i])
      {
        assert PartIs(p, parts[i], i);
        HardPan(parts[i]);
      }
    }
  }

  /** A muted channel is worth nothing, from the frame on. */
  lemma MutedIsSilent(p: Core, read: Reader, ch: nat)
    requires CoreOk(p) && ch < CHANNELS && p.muted[ch]
    ensures var parts := RenderFrame(p, read).parts;
            ch < |parts| && Worth(parts[ch]) == 0.0
  {
    FrameParts(p, read);
  }

  /** At full separation a side whose two channels are muted is silent. */
  lemma HardPanned(p: Core, read: Reader)
    requires CoreOk(p)
    ensures var f := RenderFrame(p, read);
            p.stereoCurrent == p.stereoSep == 1.0 ==>
              && (p.muted[1] && p.muted[2] ==> Right(f.parts) == 0.0)
              && (p.muted[0] && p.muted[3] ==> Left(f.parts) == 0.0)
  {
    FramePanning(p, read);
    forall ch | 0 <= ch < CHANNELS && p.muted[ch]
      ensures Worth(RenderFrame(p, read).parts[ch]) == 0.0
    {
      MutedIsSilent(p, read, ch);
    }
  }

  // ---------------------------------------------------------------- loudness

  /** A channel at constant sample s and settled gain sounds s/128 of the volume in 64ths, and
      volumes above 64 sound as 64. */
  lemma LevelIs(part: Part, s: int)
    requires !part.muted && part.heard.curOut == part.heard.nextOut == s
    requires part.heard.gain == VolumeToGain(part.heard.volume)
    ensures 128.0 * 64.0 * Voice(part)
            == s as real * (if part.heard.volume > 64 then 64.0 else part.heard.volume as real)
  {
  }

  /** Without interpolation the current sample is heard; with it a point between current and next
      that moves from the one to the other with the phase. */
  lemma ResampleBetween(c: Channel)
    ensures 128.0 * Resample(c, Nearest) == c.curOut as real
    ensures 128.0 * Resample(c, Linear) == (1.0 - c.phase) * c.curOut as real + c.phase * c.nextOut as real
  {
  }

  // ---------------------------------------------------------------- how fast the settings move

  /** A value moved toward a target by at most 1/96 a frame, after n frames. */
  function Approached(from: real, to: real, n: nat): real {
    var reach := n as real / 96.0;
    if to - from > reach then from + reach
    else if to - from < 0.0 - reach then from - reach
    else to
  }

  lemma RampedOn(from: real, to: real, n: nat)
    ensures Ramped(Approached(from, to, n), to) == Approached(from, to, n + 1)
  {
    assert (n + 1) as real == n as real + 1.0;
  }

  /** Panning and muting move in a straight line to their setting, 96 frames for the full range,
      in any number of frames. */
  lemma {:induction false} FramesRamp(p: Core, readers: seq<Reader>, ch: nat)
    requires CoreOk(p) && ch < CHANNELS
    ensures var q, n := LookaheadFrames.Frames(p, readers), |readers|;
            && q.stereoSep == p.stereoSep && q.muted == p.muted && q.interp == p.interp
            && q.stereoCurrent == Approached(p.stereoCurrent, p.stereoSep, n)
            && q.mixGain[ch] == Approached(p.mixGain[ch], if p.muted[ch] then 0.0 else 1.0, n)
    decreases |readers|
  {
    if readers != [] {
      var last := |readers| - 1;
      FramesRamp(p, readers[..last], ch);
      FrameRamps(LookaheadFrames.Frames(p, readers[..last]), readers[last], ch);
      RampedOn(p.stereoCurrent, p.stereoSep, last);
      RampedOn(p.mixGain[ch], if p.muted[ch] then 0.0 else 1.0, last);
    }
  }

  lemma FrameRamps(p: Core, read: Reader, ch: nat)
    requires CoreOk(p) && ch < CHANNELS
    ensures var q := RenderFrame(p, read).exec.core;
            && q.stereoSep == p.stereoSep && q.muted == p.muted && q.interp == p.interp
            && q.stereoCurrent == Ramped(p.stereoCurrent, p.stereoSep)
            && q.mixGain[ch] == Ramped(p.mixGain[ch], if p.muted[ch] then 0.0 else 1.0)
  {
    FrameParts(p, read);
  }

  function Power(x: real, n: nat): real {
    if n == 0 then 1.0 else Power(x, n - 1) * x
  }

  /** What n frames leave of a distance. */
  function Shrunk(gap: real, n: nat): real {
    if n == 0 then gap else Shrunk(gap, n - 1) * 0.9896373989
  }

  lemma TickKeepsGain(e: Exec, ch: nat, read: Reader)
    requires ExecOk(e) && ch < CHANNELS
    ensures var c, d := e.core.channels[ch], Advance(e, ch, read).core.channels[ch];
            d.gain == c.gain && d.volume == c.volume
  {
  }

  lemma {:induction false} TicksKeepGain(e: Exec, ch: nat, read: Reader)
    requires ExecOk(e) && ch < CHANNELS
    ensures var c, d := e.core.channels[ch], Ticks(e, ch, read).core.channels[ch];
            d.gain == c.gain && d.volume == c.volume
    decreases Phase(e, ch).Floor
  {
    if Phase(e, ch) >= 1.0 {
      var d := WithPhase(e, ch, Phase(e, ch) - 1.0);
      TickKeepsGain(d, ch, read);
      TicksKeepGain(Advance(d, ch, read), ch, read);
    }
  }

  /** The distance of a channel's gain from its volume in 64ths, volumes above 64 counting 64. */
  function Gap(c: Channel): real {
    (if c.volume > 64 then 64.0 else c.volume as real) - 64.0 * c.gain
  }

  /** One frame's share of the glide. */
  lemma GlideOne(f: Frame, ch: nat, read: Reader)
    requires ExecOk(f.exec) && ch < CHANNELS
    ensures var p, q := f.exec.core, MixChannel(f, ch, read).exec.core;
            && Gap(q.channels[ch]) == Gap(p.channels[ch]) * 0.9896373989
            && forall o :: 0 <= o < CHANNELS && o != ch ==> q.channels[o] == p.channels[o]
  {
    TicksKeepGain(Started(f.exec, ch), ch, read);
    LookaheadFrames.TicksFrame(Started(f.exec, ch), ch, read);
  }

  lemma {:induction false} GlideRest(f: Frame, ch: nat, read: Reader, o: nat)
    requires ExecOk(f.exec) && ch <= CHANNELS && o < CHANNELS
    ensures Gap(MixFrom(f, ch, read).exec.core.channels[o])
            == Gap(f.exec.core.channels[o]) * if o < ch then 1.0 else 0.9896373989
    decreases CHANNELS - ch
  {
    if ch < CHANNELS {
      GlideOne(f, ch, read);
      GlideRest(MixChannel(f, ch, read), ch + 1, read, o);
    }
  }

  /** The gain glides to the volume: each frame leaves 0.9896373989 of the distance, so that it
      never passes the volume, in any number of frames. */
  lemma {:induction false} FramesGlide(p: Core, readers: seq<Reader>, ch: nat)
    requires CoreOk(p) && ch < CHANNELS
    ensures Gap(LookaheadFrames.Frames(p, readers).channels[ch]) == Shrunk(Gap(p.channels[ch]), |readers|)
    decreases |readers|
  {
    if readers != [] {
      var last := |readers| - 1;
      FramesGlide(p, readers[..last], ch);
      FrameGlides(LookaheadFrames.Frames(p, readers[..last]), readers[last], ch);
    }
  }

  lemma FrameGlides(q: Core, read: Reader, ch: nat)
    requires CoreOk(q) && ch < CHANNELS
    ensures Gap(RenderFrame(q, read).exec.core.channels[ch]) == Gap(q.channels[ch]) * 0.9896373989
  {
    GlideRest(FrameStart(q), 0, read, ch);
    assert FrameStart(q).exec.core.channels == q.channels;
  }

  lemma {:induction false} ShrunkIs(gap: real, n: nat)
    ensures Shrunk(gap, n) == gap * Power(0.9896373989, n)
  {
    if n > 0 {
      ShrunkIs(gap, n - 1);
      var x := Power(0.9896373989, n - 1);
      assert gap * x * 0.9896373989 == gap * (x * 0.9896373989);
    }
  }

  /** One second of frames plays the clock divided by the period of samples. */
  lemma SecondOfTicks(period: nat)
    requires period > 0
    ensures LookaheadFrames.Total(PhaseStep(period), 48000) * period as real == 3546895.0
  {
    LookaheadFrames.TotalIs(PhaseStep(period), 48000);
    var d := period as real;
    var q := CLOCK_HZ / d;
    assert q * d == CLOCK_HZ;
    assert PhaseStep(period) * 48000.0 == q;
  }
}
