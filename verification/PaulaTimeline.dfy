/** What a frame reads is decided before any sample is seen, and what it produces depends
    on the samples only. */
module PaulaTimeline {
  import opened Words
  import opened PaulaCore

  // ---------------------------------------------------------------- addresses ignore samples

  function Skeleton(c: Channel): Channel {
    c.(sampleL := 0, sampleH := 0, curOut := 0, nextOut := 0)
  }

  /** Equal but for sample bytes held in the channels. */
  ghost predicate Alike(p: Core, q: Core) {
    && CoreOk(p) && CoreOk(q)
    && (forall ch :: 0 <= ch < CHANNELS ==> Skeleton(p.channels[ch]) == Skeleton(q.channels[ch]))
    && q == p.(channels := q.channels)
  }

  ghost predicate ExecAlike(e: Exec, f: Exec) {
    Alike(e.core, f.core) && e.fetched == f.fetched && e.irqs == f.irqs
  }

  lemma WithAlike(e: Exec, f: Exec, ch: nat, c: Channel, d: Channel)
    requires ExecAlike(e, f) && ch < CHANNELS
    requires ChannelOk(c) && ChannelOk(d) && Skeleton(c) == Skeleton(d)
    ensures ExecAlike(With(e, ch, c), With(f, ch, d))
  {
  }

  lemma FetchAlike(e: Exec, f: Exec, ch: nat, l: Byte, h: Byte, l': Byte, h': Byte)
    requires ExecAlike(e, f) && ch < CHANNELS
    ensures ExecAlike(FetchWord(e, ch, l, h), FetchWord(f, ch, l', h'))
  {
    var c, d := e.core.channels[ch], f.core.channels[ch];
    assert Skeleton(c) == Skeleton(d);
    WithAlike(e, f, ch, Fetch(c, l, h), Fetch(d, l', h'));
  }

  lemma AdvanceAlike(e: Exec, f: Exec, ch: nat, r: Reader, s: Reader)
    requires ExecAlike(e, f) && ch < CHANNELS
    ensures ExecAlike(Advance(e, ch, r), Advance(f, ch, s))
  {
    var c, d := e.core.channels[ch], f.core.channels[ch];
    assert Skeleton(c) == Skeleton(d);
    if !Enabled(e.core.dmaCon, ch) {
      WithAlike(e, f, ch, Silenced(c), Silenced(d));
    } else if c.onLowByte {
      var n, a := |e.fetched|, FetchPtr(c);
      FetchAlike(e, f, ch, r(n, a), r(n + 1, (a + 1) % U32), s(n, a), s(n + 1, (a + 1) % U32));
    } else {
      WithAlike(e, f, ch, SecondByte(c), SecondByte(d));
    }
  }

  lemma {:induction false} TicksAlike(e: Exec, f: Exec, ch: nat, r: Reader, s: Reader)
    requires ExecAlike(e, f) && ch < CHANNELS
    ensures ExecAlike(Ticks(e, ch, r), Ticks(f, ch, s))
    decreases Phase(e, ch).Floor
  {
    assert Skeleton(e.core.channels[ch]) == Skeleton(f.core.channels[ch]);
    if Phase(e, ch) >= 1.0 {
      var e1, f1 := WithPhase(e, ch, Phase(e, ch) - 1.0), WithPhase(f, ch, Phase(f, ch) - 1.0);
      WithAlike(e, f, ch, e1.core.channels[ch], f1.core.channels[ch]);
      AdvanceAlike(e1, f1, ch, r, s);
      TicksAlike(Advance(e1, ch, r), Advance(f1, ch, s), ch, r, s);
    }
  }

  lemma StartedAlike(e: Exec, f: Exec, ch: nat)
    requires ExecAlike(e, f) && ch < CHANNELS
    ensures ExecAlike(Started(e, ch), Started(f, ch))
  {
    assert Skeleton(e.core.channels[ch]) == Skeleton(f.core.channels[ch]);
    WithAlike(e, f, ch, Started(e, ch).core.channels[ch], Started(f, ch).core.channels[ch]);
  }

  lemma GlidingAlike(e: Exec, d: Exec, ch: nat)
    requires ExecAlike(e, d) && ch < CHANNELS
    ensures ExecAlike(Gliding(e, ch), Gliding(d, ch))
  {
    assert Skeleton(e.core.channels[ch]) == Skeleton(d.core.channels[ch]);
    WithAlike(e, d, ch, Glided(e.core.channels[ch]), Glided(d.core.channels[ch]));
  }

  lemma BlendAlike(f: Frame, g: Frame, e: Exec, d: Exec, c: Channel, b: Channel, ch: nat)
    requires ExecAlike(e, d) && ch < CHANNELS
    ensures ExecAlike(Blend(f, e, c, ch).exec, Blend(g, d, b, ch).exec)
  {
  }

  lemma {:induction false} MixAlike(f: Frame, g: Frame, ch: nat, r: Reader, s: Reader)
    requires ExecAlike(f.exec, g.exec) && ch <= CHANNELS
    ensures ExecAlike(MixFrom(f, ch, r).exec, MixFrom(g, ch, s).exec)
    decreases CHANNELS - ch
  {
    if ch < CHANNELS {
      StartedAlike(f.exec, g.exec, ch);
      TicksAlike(Started(f.exec, ch), Started(g.exec, ch), ch, r, s);
      var e, d := Ticks(Started(f.exec, ch), ch, r), Ticks(Started(g.exec, ch), ch, s);
      GlidingAlike(e, d, ch);
      BlendAlike(f, g, Gliding(e, ch), Gliding(d, ch), e.core.channels[ch], d.core.channels[ch], ch);
      MixAlike(MixChannel(f, ch, r), MixChannel(g, ch, s), ch + 1, r, s);
    }
  }

  /** The addresses a frame reads, its interrupts, cursors, phases and gains depend on the
      core alone: whatever the sample callback answers, they are the same. */
  lemma FrameTimelineIgnoresSamples(p: Core, r: Reader, s: Reader)
    requires CoreOk(p)
    ensures RenderFrame(p, r).exec.fetched == RenderFrame(p, s).exec.fetched
    ensures RenderFrame(p, r).exec.irqs == RenderFrame(p, s).exec.irqs
    ensures Alike(RenderFrame(p, r).exec.core, RenderFrame(p, s).exec.core)
  {
    MixAlike(FrameStart(p), FrameStart(p), 0, r, s);
  }

  // ---------------------------------------------------------------- same answers, same frame

  predicate Agree(r: Reader, s: Reader, addresses: seq<nat>) {
    forall i :: 0 <= i < |addresses| ==> r(i, addresses[i]) == s(i, addresses[i])
  }

  lemma AdvanceAgrees(e: Exec, ch: nat, r: Reader, s: Reader)
    requires ExecOk(e) && ch < CHANNELS
    requires Agree(r, s, Advance(e, ch, r).fetched)
    ensures Advance(e, ch, r) == Advance(e, ch, s)
  {
    var c, n := e.core.channels[ch], |e.fetched|;
    if Enabled(e.core.dmaCon, ch) && c.onLowByte {
      var fetched := Advance(e, ch, r).fetched;
      assert fetched[n] == FetchPtr(c) && fetched[n + 1] == (FetchPtr(c) + 1) % U32;
      assert r(n, fetched[n]) == s(n, fetched[n]);
      assert r(n + 1, fetched[n + 1]) == s(n + 1, fetched[n + 1]);
    }
  }

  lemma {:induction false} TicksExtend(e: Exec, ch: nat, r: Reader)
    requires ExecOk(e) && ch < CHANNELS
    ensures e.fetched <= Ticks(e, ch, r).fetched
    decreases Phase(e, ch).Floor
  {
    if Phase(e, ch) >= 1.0 {
      TicksExtend(Advance(WithPhase(e, ch, Phase(e, ch) - 1.0), ch, r), ch, r);
    }
  }

  lemma {:induction false} TicksAgree(e: Exec, ch: nat, r: Reader, s: Reader)
    requires ExecOk(e) && ch < CHANNELS
    requires Agree(r, s, Ticks(e, ch, r).fetched)
    ensures Ticks(e, ch, r) == Ticks(e, ch, s)
    decreases Phase(e, ch).Floor
  {
    if Phase(e, ch) >= 1.0 {
      var e1 := WithPhase(e, ch, Phase(e, ch) - 1.0);
      TicksExtend(Advance(e1, ch, r), ch, r);
      AdvanceAgrees(e1, ch, r, s);
      TicksAgree(Advance(e1, ch, r), ch, r, s);
    }
  }

  lemma {:induction false} MixExtends(f: Frame, ch: nat, r: Reader)
    requires ExecOk(f.exec) && ch <= CHANNELS
    ensures f.exec.fetched <= MixFrom(f, ch, r).exec.fetched
    decreases CHANNELS - ch
  {
    if ch < CHANNELS {
      TicksExtend(Started(f.exec, ch), ch, r);
      MixExtends(MixChannel(f, ch, r), ch + 1, r);
    }
  }

  lemma {:induction false} MixAgrees(f: Frame, ch: nat, r: Reader, s: Reader)
    requires ExecOk(f.exec) && ch <= CHANNELS
    requires Agree(r, s, MixFrom(f, ch, r).exec.fetched)
    ensures MixFrom(f, ch, r) == MixFrom(f, ch, s)
    decreases CHANNELS - ch
  {
    if ch < CHANNELS {
      MixExtends(MixChannel(f, ch, r), ch + 1, r);
      TicksAgree(Started(f.exec, ch), ch, r, s);
      MixAgrees(MixChannel(f, ch, r), ch + 1, r, s);
    }
  }

  /** Two callbacks that answer a frame's own reads alike render the same frame. */
  lemma FrameDependsOnItsReads(p: Core, r: Reader, s: Reader)
    requires CoreOk(p) && Agree(r, s, RenderFrame(p, r).exec.fetched)
    ensures RenderFrame(p, r) == RenderFrame(p, s)
  {
    MixAgrees(FrameStart(p), 0, r, s);
  }
}
