/** The live mirror as the C++ file holds it: one core object and the output state around
    it, mutated frame by frame, with the core saved before a frame and put back on a miss. */
module LivePaula {
  import opened Words
  import opened PaulaCore
  import opened Transaction
  import opened Lookahead
  import opened MirrorFrames
  import Paula
  import PageCache
  import Recovery
  import Mirror

  /** Asking for two plans one after the other is asking for both. */
  lemma {:induction false} PlannedJoins(s: PageCache.State, first: seq<Range>, rest: seq<Range>)
    requires PageCache.Shaped(s)
    ensures Planned(s, first + rest) == Planned(Planned(s, first), rest)
    decreases |first|
  {
    if first == [] {
      assert first + rest == rest;
    } else {
      assert (first + rest)[1..] == first[1..] + rest;
      PlannedJoins(Mirror.Prefetched(s, first[0].address, first[0].length), first[1..], rest);
    }
  }

  lemma PlannedOne(s: PageCache.State, r: Range)
    requires PageCache.Shaped(s)
    ensures Planned(s, [r]) == Mirror.Prefetched(s, r.address, r.length)
  {
    assert [r][1..] == [];
  }

  lemma ChannelPlanIs(f: FetchState, bytes: nat, remaining: nat)
    requires bytes == if f.wordsLeft > 512 then 1024 else f.wordsLeft * 2
    requires remaining == Min(1024 - bytes, if f.loopWords > 512 then 1024 else f.loopWords * 2)
    ensures ChannelPlan(f) ==
            if !f.enabled then []
            else (if bytes > 0 then [Range(f.cursor, bytes)] else [])
                 + (if bytes < 1024 && f.loopWords > 0 then [Range(f.loop, remaining)] else [])
  {
  }

  lemma PlanStep(p: Core, ch: nat, s: PageCache.State)
    requires CoreOk(p) && ch < CHANNELS && PageCache.Shaped(s)
    ensures Planned(s, PlanFrom(p, ch)) == Planned(Planned(s, ChannelPlan(FetchStateOf(p, ch))), PlanFrom(p, ch + 1))
  {
    PlannedJoins(s, ChannelPlan(FetchStateOf(p, ch)), PlanFrom(p, ch + 1));
  }

  class LivePaula {
    const core: Paula.Paula
    var masterGain: real
    var masterTarget: real
    var lastMixer: nat
    var waiting: bool
    var gate: real
    var lastLeft: real
    var lastRight: real
    var countdown: nat
    var virtualIrqs: nat

    ghost function Abs(): Live
      reads this, core
    {
      Live(core.Abs(), masterGain, masterTarget, lastMixer, waiting, gate, lastLeft, lastRight,
                countdown, virtualIrqs)
    }

    ghost predicate Valid()
      reads this, core
    {
      core.Valid()
    }

    /** paula_live_init. */
    constructor ()
      ensures Valid() && fresh(core)
      ensures Abs() == Live(Core(seq(CHANNELS, _ => RESET_CHANNEL), {}, {}, {}, {}, Nearest, 1.0, 1.0,
                                      [false, false, false, false], [1.0, 1.0, 1.0, 1.0]),
                                 1.0, 1.0, 0, false, 1.0, 0.0, 0.0, 0, 0)
    {
      core := new Paula.Paula();
      masterGain, masterTarget, lastMixer := 1.0, 1.0, 0;
      waiting, gate, lastLeft, lastRight := false, 1.0, 0.0, 0.0;
      countdown, virtualIrqs := 0, 0;
      new;
      core.stereoSep := Clamped(1.0);
      core.interp := Nearest;
    }

    method Reset()
      requires Valid()
      modifies this, core
      ensures Valid() && Abs() == ResetLive(old(Abs()))
    {
      core.Reset();
      waiting, gate, lastLeft, lastRight, countdown := false, 1.0, 0.0, 0.0, 0;
    }

    method Write(address: nat, value: Word)
      requires Valid()
      modifies core
      ensures Valid() && Abs() == Written(old(Abs()), address, value)
    {
      core.WriteRegister16(address, value);
    }

    method MixerApply(word: nat)
      requires Valid()
      modifies this`masterTarget, this`lastMixer, core`stereoSep, core`interp, core`muted
      ensures Valid() && Abs() == MixerApplied(old(Abs()), word)
    {
      if word == lastMixer || !MixerValid(word) {
        return;
      }
      var master, stereo, linear := word % 128, word / 128 % 128, word / 0x4000 % 2;
      masterTarget := master as real * 0.01;
      core.stereoSep := Clamped(stereo as real * 0.01);
      core.interp := if linear == 1 then Linear else Nearest;
      core.muted := MixerMuted(word);
      lastMixer := word;
    }

    /** One lookahead sweep, channel by channel. */
    method Prefetch(mirror: Mirror.ChipMirror)
      requires Valid() && mirror.Valid()
      modifies mirror`head, mirror.meta, mirror.requests
      ensures mirror.Valid() && mirror.Abs() == Planned(old(mirror.Abs()), PlanFrom(core.Abs(), 0))
    {
      ghost var p, start := core.Abs(), mirror.Abs();
      for ch := 0 to CHANNELS
        invariant mirror.Valid() && core.Abs() == p
        invariant Planned(mirror.Abs(), PlanFrom(p, ch)) == Planned(start, PlanFrom(p, 0))
      {
        PlanStep(p, ch, mirror.Abs());
        var f := core.FetchState(ch);
        Ask(mirror, f);
      }
    }

    /** The rest of the block, and the loop if the block ends inside the window. */
    static method Ask(mirror: Mirror.ChipMirror, f: FetchState)
      requires mirror.Valid()
      modifies mirror`head, mirror.meta, mirror.requests
      ensures mirror.Valid() && mirror.Abs() == Planned(old(mirror.Abs()), ChannelPlan(f))
    {
      var bytes := if f.wordsLeft > 512 then 1024 else f.wordsLeft * 2;
      var remaining := 1024 - bytes;
      var loopBytes := if f.loopWords > 512 then 1024 else f.loopWords * 2;
      if remaining > loopBytes {
        remaining := loopBytes;
      }
      var loops := bytes < 1024 && f.loopWords > 0;
      ChannelPlanIs(f, bytes, remaining);
      if f.enabled {
        AskBoth(mirror, Range(f.cursor, bytes), bytes > 0, Range(f.loop, remaining), loops);
      }
    }

    static method AskBoth(mirror: Mirror.ChipMirror, block: Range, hasBlock: bool, loop: Range, loops: bool)
      requires mirror.Valid()
      modifies mirror`head, mirror.meta, mirror.requests
      ensures mirror.Valid()
      ensures mirror.Abs() ==
              Planned(old(mirror.Abs()), (if hasBlock then [block] else []) + (if loops then [loop] else []))
    {
      PlannedJoins(mirror.Abs(), if hasBlock then [block] else [], if loops then [loop] else []);
      AskRange(mirror, block.address, block.length, hasBlock);
      AskRange(mirror, loop.address, loop.length, loops);
    }

    static method AskRange(mirror: Mirror.ChipMirror, address: nat, length: nat, wanted: bool)
      requires mirror.Valid()
      modifies mirror`head, mirror.meta, mirror.requests
      ensures mirror.Valid()
      ensures mirror.Abs() == Planned(old(mirror.Abs()), if wanted then [Range(address, length)] else [])
    {
      if wanted {
        PlannedOne(mirror.Abs(), Range(address, length));
        mirror.Prefetch(address, length);
      }
    }

    /** The cache as the frame's reads find it. */
    static ghost function Swept(s: PageCache.State, v: Live): (r: PageCache.State)
      requires PageCache.Shaped(s) && LiveOk(v)
      ensures PageCache.Shaped(r)
    {
      if v.countdown == 0 then Planned(s, PlanFrom(v.core, 0)) else s
    }

    /** One output frame: the mixer request last published, a lookahead sweep of the cache if it
        is due, then the transaction over what the mirror answers. */
    method Render(mirror: Mirror.ChipMirror, request: nat) returns (left: real, right: real)
      requires Valid() && mirror.Valid()
      modifies this, core
      modifies mirror`head, mirror`renderMiss, mirror`history, mirror.meta, mirror.requests
      ensures Valid() && mirror.Valid()
      ensures var v := MixerApplied(old(Abs()), request);
              var s := Swept(old(mirror.Abs()), v);
              && Abs() == LiveFrame(v, Recovery.RamOf(s), MirrorHits(s))
              && mirror.Abs() == ReadsDone(s.(renderMiss := false), FrameReads(v.core, s))
      ensures left == lastLeft * gate && right == lastRight * gate
      ensures gate == 0.0 ==> left == right == 0.0
      ensures gate == 1.0 ==> left == lastLeft && right == lastRight
    {
      MixerApply(request);
      Advance(mirror);
      left, right := Output();
    }

    method Advance(mirror: Mirror.ChipMirror)
      requires Valid() && mirror.Valid()
      modifies this, core
      modifies mirror`head, mirror`renderMiss, mirror`history, mirror.meta, mirror.requests
      ensures Valid() && mirror.Valid()
      ensures var s := Swept(old(mirror.Abs()), old(Abs()));
              && Abs() == LiveFrame(old(Abs()), Recovery.RamOf(s), MirrorHits(s))
              && mirror.Abs() == ReadsDone(s.(renderMiss := false), FrameReads(old(core.Abs()), s))
    {
      SweepIfDue(mirror);
      Speculate(mirror);
    }

    /** The last valid frame through the gate. */
    method Output() returns (left: real, right: real)
      ensures left == lastLeft * gate && right == lastRight * gate
      ensures gate == 0.0 ==> left == right == 0.0
      ensures gate == 1.0 ==> left == lastLeft && right == lastRight
    {
      left, right := lastLeft * gate, lastRight * gate;
    }

    /** A sweep every 32 frames. */
    method SweepIfDue(mirror: Mirror.ChipMirror)
      requires Valid() && mirror.Valid()
      modifies this`countdown, mirror`head, mirror.meta, mirror.requests
      ensures Valid() && Abs() == Counted(old(Abs())) && mirror.Valid()
      ensures mirror.Abs() == if old(countdown) == 0 then Planned(old(mirror.Abs()), PlanFrom(old(core.Abs()), 0))
                              else old(mirror.Abs())
    {
      if countdown == 0 {
        Prefetch(mirror);
        countdown := 32;
      }
      countdown := countdown - 1;
    }

    /** Render on the core itself, then commit or put the saved core back as the miss flag says.
        The core's callback is a value here: the reads it stands for are made through the mirror
        right after, in the frame's order, and get the same answers. */
    method Speculate(mirror: Mirror.ChipMirror)
      requires Valid() && mirror.Valid()
      modifies this, core
      modifies mirror`head, mirror`renderMiss, mirror`history, mirror.meta, mirror.requests
      ensures Valid() && mirror.Valid()
      ensures var s := old(mirror.Abs());
              var f := RenderFrame(old(core.Abs()), CacheReader(Recovery.RamOf(s), MirrorHits(s)));
              && Abs() == (if Missed(f.exec.fetched, MirrorHits(s)) then RolledBack(old(Abs()))
                           else CommittedFrame(old(Abs()), f))
              && mirror.Abs() == ReadsDone(s.(renderMiss := false), f.exec.fetched)
    {
      ghost var start := Abs();
      var saved := core.Save();
      ghost var f;
      var l, r;
      l, r, f := Attempt(mirror);
      if mirror.renderMiss {
        core.Restore(saved);
        assert Abs() == start;
        RollBack();
      } else {
        assert Abs() == start.(core := f.exec.core);
        Commit(l, r, start, f);
      }
    }

    /** The frame on the core itself, and the flag its reads leave behind. */
    method Attempt(mirror: Mirror.ChipMirror) returns (l: real, r: real, ghost f: Frame)
      requires Valid() && mirror.Valid()
      modifies core
      modifies mirror`head, mirror`renderMiss, mirror`history, mirror.meta, mirror.requests
      ensures Valid() && mirror.Valid()
      ensures var s := old(mirror.Abs());
              && f == RenderFrame(old(core.Abs()), CacheReader(Recovery.RamOf(s), MirrorHits(s)))
              && (mirror.renderMiss <==> Missed(f.exec.fetched, MirrorHits(s)))
              && mirror.Abs() == ReadsDone(s.(renderMiss := false), f.exec.fetched)
      ensures core.Abs() == f.exec.core && core.irqs == f.exec.irqs && l == Left(f.parts) && r == Right(f.parts)
    {
      ghost var s := mirror.Abs();
      f := RenderFrame(core.Abs(), CacheReader(Recovery.RamOf(s), MirrorHits(s)));
      FrameOfAnswers(core.Abs(), s);
      mirror.BeginRender();
      core.BeginFrame();
      var answers := Answers(mirror.shadow[..], mirror.meta[..]);
      l, r := core.Render(answers);
      MakeReads(mirror, answers);
      ReadsSetFlag(s.(renderMiss := false), f.exec.fetched);
    }

    /** The frame's reads, each getting the answer the core was given. */
    method MakeReads(mirror: Mirror.ChipMirror, answers: Reader)
      requires mirror.Valid() && answers == Answers(mirror.shadow[..], mirror.meta[..])
      modifies mirror`head, mirror`renderMiss, mirror`history, mirror.meta, mirror.requests
      ensures mirror.Valid() && mirror.Abs() == ReadsDone(old(mirror.Abs()), core.fetched)
    {
      ghost var s := mirror.Abs();
      for i := 0 to |core.fetched|
        invariant mirror.Valid() && mirror.Abs() == ReadsDone(s, core.fetched[..i])
      {
        ReadsKeepAnswers(s, core.fetched[..i]);
        SameAnswer(s, mirror.Abs(), i, core.fetched[i]);
        var value := mirror.ReadByte(core.fetched[i]);
        assert value == answers(i, core.fetched[i]);
        assert core.fetched[..i + 1][..i] == core.fetched[..i];
      }
      assert core.fetched[..|core.fetched|] == core.fetched;
    }

    /** Begin or continue to wait for the cache; no source or gain ramp advances. */
    method RollBack()
      modifies this`waiting, this`countdown, this`gate
      ensures Abs() == RolledBack(old(Abs()))
    {
      if !waiting {
        waiting := true;
        countdown := 0;
      }
      gate := gate - 1.0 / 96.0;
      if gate < 0.0 {
        gate := 0.0;
      }
    }

    method Commit(l: real, r: real, ghost start: Live, ghost f: Frame)
      requires Abs() == start.(core := f.exec.core)
      requires l == Left(f.parts) && r == Right(f.parts) && core.irqs == f.exec.irqs
      modifies this`masterGain, this`gate, this`waiting, this`lastLeft, this`lastRight, this`virtualIrqs
      ensures Abs() == CommittedFrame(start, f)
    {
      virtualIrqs := virtualIrqs + core.irqs;
      waiting := false;
      masterGain := Ramped(masterGain, masterTarget);
      lastLeft, lastRight := Scaled(l, masterGain), Scaled(r, masterGain);
      if gate < 1.0 {
        gate := gate + 1.0 / 96.0;
        if gate > 1.0 {
          gate := 1.0;
        }
      }
    }
  }
}
