/** Which sample block each channel plays, over whole runs of frames, register writes, loop
    settings and resets: a block once started is played to its end whatever is written, and
    the next one is the block latched at that moment. */
module PaulaBlocks {
  import opened Words
  import opened PaulaCore
  import opened PaulaStream
  import opened Transaction
  import opened Arith

  /** pos bytes of the len words at base are played; ends blocks are over. */
  datatype Block = Block(base: nat, pos: nat, len: nat, ends: nat)

  /** One tick: the next byte of the block, or the first of the latched one. */
  function Turn(b: Block, loc: nat, words: nat): Block {
    if b.pos < 2 * b.len then b.(pos := b.pos + 1) else Block(loc, 1, Playable(words), b.ends + 1)
  }

  function Turns(b: Block, loc: nat, words: nat, k: nat): Block
    decreases k, loc
  {
    if k == 0 then b else Turns(Turn(b, loc, words), loc, words, k - 1)
  }

  /** The whole ticks a phase holds. */
  function TicksIn(phase: real): nat {
    if phase < 0.0 then 0 else phase.Floor
  }

  /** The ticks of one output frame. */
  function FrameTicks(c: Channel): nat {
    TicksIn(c.phase + PhaseStep(c.period))
  }

  datatype Deed =
    | Sample(ch: nat)
    | OutputFrame
    | Write(address: nat, value: Word)
    | SetLoop(chan: int, loc: nat, words: nat)
    | Mixer(word: nat)
    | Reset

  predicate DeedOk(d: Deed) {
    (d.Sample? ==> d.ch < CHANNELS) && (d.SetLoop? ==> d.loc < U32)
  }

  predicate DeedsOk(deeds: seq<Deed>) {
    forall i :: 0 <= i < |deeds| ==> DeedOk(deeds[i])
  }

  function WithCore(e: Exec, p: Core): (r: Exec)
    requires CoreOk(p)
    ensures ExecOk(r)
  {
    e.(core := p)
  }

  /** A frame inside a run: reads and interrupts are added to those before it. */
  function Framed(e: Exec, read: Reader): (r: Exec)
    requires ExecOk(e)
    ensures ExecOk(r)
  {
    MixFrom(Frame(WithCore(e, FrameStart(e.core).exec.core), []), 0, read).exec
  }

  function Do(e: Exec, d: Deed, mem: Memory): (r: Exec)
    requires ExecOk(e) && DeedOk(d)
    ensures ExecOk(r)
  {
    match d
    case Sample(ch) => Advance(e, ch, From(mem))
    case OutputFrame => Framed(e, From(mem))
    case Write(address, value) => WithCore(e, WriteRegister(e.core, address, value))
    case SetLoop(ch, loc, words) => WithCore(e, WithLoop(e.core, ch, loc, words))
    case Mixer(word) => WithCore(e, CoreMixed(e.core, word))
    case Reset => WithCore(e, ResetCore(e.core))
  }

  function DoAll(e: Exec, deeds: seq<Deed>, mem: Memory): (r: Exec)
    requires ExecOk(e) && DeedsOk(deeds)
    ensures ExecOk(r)
    decreases |deeds|
  {
    if deeds == [] then e else DoAll(Do(e, deeds[0], mem), deeds[1..], mem)
  }

  /** How many ticks of an enabled channel a deed brings. */
  function TicksOf(p: Core, d: Deed, ch: nat): nat
    requires CoreOk(p) && ch < CHANNELS
  {
    if !Enabled(p.dmaCon, ch) then 0
    else if d.OutputFrame? then FrameTicks(p.channels[ch])
    else if d == Sample(ch) then 1
    else 0
  }

  /** The block after a deed: switching a channel on starts its latched block, ticks take it
      further, and nothing else moves it. */
  function BlockAfter(p: Core, d: Deed, ch: nat, b: Block): Block
    requires CoreOk(p) && ch < CHANNELS
  {
    var c := p.channels[ch];
    if d.Write? && !Enabled(p.dmaCon, ch) && Enabled(WriteRegister(p, d.address, d.value).dmaCon, ch) then
      Block(c.locLatched, 0, c.lenLatched, b.ends)
    else
      Turns(b, c.locLatched, c.lenLatched, TicksOf(p, d, ch))
  }

  /** An enabled channel stands in block b. */
  ghost predicate Follows(p: Core, ch: nat, mem: Memory, b: Block)
    requires CoreOk(p) && ch < CHANNELS
  {
    Enabled(p.dmaCon, ch) ==> At(p.channels[ch], mem, b.base, b.pos, b.len)
  }

  // ---------------------------------------------------------------- one channel's ticks

  /** A tick of one channel, as a change of its block. */
  lemma TickTurns(e: Exec, ch: nat, mem: Memory, b: Block)
    requires ExecOk(e) && ch < CHANNELS && Enabled(e.core.dmaCon, ch) && Follows(e.core, ch, mem, b)
    ensures var c, r := e.core.channels[ch], Advance(e, ch, From(mem));
            var b' := Turn(b, c.locLatched, c.lenLatched);
            && Follows(r.core, ch, mem, b') && r.irqs - e.irqs == b'.ends - b.ends
            && SameBlocks(e, r, ch)
  {
    if b.pos < 2 * b.len {
      TickInBlock(e, ch, mem, b.base, b.pos, b.len);
    } else {
      TickReloads(e, ch, mem, b.base, b.len);
    }
  }

  /** What a tick of one channel leaves alone. */
  lemma TickFrames(e: Exec, ch: nat, read: Reader)
    requires ExecOk(e) && ch < CHANNELS
    ensures var r := Advance(e, ch, read);
            && r.core.dmaCon == e.core.dmaCon && Phase(r, ch) == Phase(e, ch)
            && (forall o :: 0 <= o < CHANNELS && o != ch ==> r.core.channels[o] == e.core.channels[o])
            && (!Enabled(e.core.dmaCon, ch) ==> r.irqs == e.irqs)
  {
  }

  /** The first of the ticks a phase holds. */
  lemma FirstTickTurns(e: Exec, ch: nat, mem: Memory, b: Block)
    requires ExecOk(e) && ch < CHANNELS && Enabled(e.core.dmaCon, ch) && Follows(e.core, ch, mem, b)
    ensures var c, r := e.core.channels[ch], Advance(WithPhase(e, ch, Phase(e, ch) - 1.0), ch, From(mem));
            var b' := Turn(b, c.locLatched, c.lenLatched);
            && Follows(r.core, ch, mem, b') && r.irqs - e.irqs == b'.ends - b.ends
            && SameBlocks(e, r, ch) && Phase(r, ch) == Phase(e, ch) - 1.0
  {
    var d := WithPhase(e, ch, Phase(e, ch) - 1.0);
    TickTurns(d, ch, mem, b);
    TickFrames(d, ch, From(mem));
  }

  /** r follows block b' with as many interrupts as blocks have ended since b. */
  ghost predicate Turned(e: Exec, r: Exec, ch: nat, mem: Memory, b: Block, b': Block)
    requires ExecOk(e) && ExecOk(r) && ch < CHANNELS
  {
    Follows(r.core, ch, mem, b') && r.irqs - e.irqs == b'.ends - b.ends
  }

  lemma {:induction false} TicksTurn(e: Exec, ch: nat, mem: Memory, b: Block)
    requires ExecOk(e) && ch < CHANNELS && Enabled(e.core.dmaCon, ch) && Follows(e.core, ch, mem, b)
    ensures var c := e.core.channels[ch];
            Turned(e, Ticks(e, ch, From(mem)), ch, mem, b,
                   Turns(b, c.locLatched, c.lenLatched, TicksIn(Phase(e, ch))))
    decreases Phase(e, ch).Floor
  {
    if Phase(e, ch) >= 1.0 {
      var c, d := e.core.channels[ch], Advance(WithPhase(e, ch, Phase(e, ch) - 1.0), ch, From(mem));
      FirstTickTurns(e, ch, mem, b);
      assert TicksIn(Phase(d, ch)) == TicksIn(Phase(e, ch)) - 1;
      TicksTurn(d, ch, mem, Turn(b, c.locLatched, c.lenLatched));
    }
  }

  lemma {:induction false} TicksFrame(e: Exec, ch: nat, read: Reader)
    requires ExecOk(e) && ch < CHANNELS
    ensures var r := Ticks(e, ch, read);
            && r.core.dmaCon == e.core.dmaCon
            && (forall o :: 0 <= o < CHANNELS && o != ch ==> r.core.channels[o] == e.core.channels[o])
            && (!Enabled(e.core.dmaCon, ch) ==> r.irqs == e.irqs)
    decreases Phase(e, ch).Floor
  {
    if Phase(e, ch) >= 1.0 {
      var d := WithPhase(e, ch, Phase(e, ch) - 1.0);
      TickFrames(d, ch, read);
      TicksFrame(Advance(d, ch, read), ch, read);
    }
  }

  // ---------------------------------------------------------------- four channels

  function Ends(bs: seq<Block>): nat
    requires |bs| == CHANNELS
  {
    bs[0].ends + bs[1].ends + bs[2].ends + bs[3].ends
  }

  /** Each channel is followed through the step from p to r, on its own; and if all were, the
      interrupts raised are the blocks that ended. */
  ghost predicate Carries(e: Exec, r: Exec, mem: Memory, bs: seq<Block>, bs': seq<Block>)
    requires ExecOk(e) && ExecOk(r) && |bs| == |bs'| == CHANNELS
  {
    && (forall ch :: 0 <= ch < CHANNELS && Follows(e.core, ch, mem, bs[ch]) ==> Follows(r.core, ch, mem, bs'[ch]))
    && ((forall ch :: 0 <= ch < CHANNELS ==> Follows(e.core, ch, mem, bs[ch])) ==>
          r.irqs - e.irqs == Ends(bs') - Ends(bs))
  }

  /** One channel's share of a frame. */
  function Shared(p: Core, ch: nat, b: Block): Block
    requires CoreOk(p) && ch < CHANNELS
  {
    BlockAfter(p, OutputFrame, ch, b)
  }

  lemma ShareFrames(f: Frame, ch: nat, read: Reader)
    requires ExecOk(f.exec) && ch < CHANNELS
    ensures var e, r := f.exec, MixChannel(f, ch, read).exec;
            && r.core.dmaCon == e.core.dmaCon
            && (forall o :: 0 <= o < CHANNELS && o != ch ==> r.core.channels[o] == e.core.channels[o])
            && (!Enabled(e.core.dmaCon, ch) ==> r.irqs == e.irqs)
  {
    TicksFrame(Started(f.exec, ch), ch, read);
  }

  /** Gliding and blending move no cursor. */
  lemma BlendFollows(f: Frame, played: Exec, ch: nat, mem: Memory, b: Block)
    requires ExecOk(played) && ch < CHANNELS && Follows(played.core, ch, mem, b)
    ensures var r := Blend(f, Gliding(played, ch), played.core.channels[ch], ch).exec;
            Follows(r.core, ch, mem, b) && r.irqs == played.irqs
  {
  }

  lemma ShareFollows(f: Frame, ch: nat, mem: Memory, b: Block)
    requires ExecOk(f.exec) && ch < CHANNELS && Follows(f.exec.core, ch, mem, b)
    ensures var e, r := f.exec, MixChannel(f, ch, From(mem)).exec;
            && Follows(r.core, ch, mem, Shared(e.core, ch, b))
            && r.irqs - e.irqs == Shared(e.core, ch, b).ends - b.ends
  {
    if Enabled(f.exec.core.dmaCon, ch) {
      var e := Started(f.exec, ch);
      TicksTurn(e, ch, mem, b);
      BlendFollows(f, Ticks(e, ch, From(mem)), ch, mem, Shared(f.exec.core, ch, b));
    } else {
      ShareFrames(f, ch, From(mem));
    }
  }

  lemma MixCarries(f: Frame, ch: nat, mem: Memory, bs: seq<Block>)
    requires ExecOk(f.exec) && ch < CHANNELS && |bs| == CHANNELS
    ensures Carries(f.exec, MixChannel(f, ch, From(mem)).exec, mem, bs, bs[ch := Shared(f.exec.core, ch, bs[ch])])
  {
    ShareFrames(f, ch, From(mem));
    if Follows(f.exec.core, ch, mem, bs[ch]) {
      ShareFollows(f, ch, mem, bs[ch]);
    }
  }

  lemma CarriesOn(e: Exec, m: Exec, r: Exec, mem: Memory, bs: seq<Block>, bm: seq<Block>, br: seq<Block>)
    requires ExecOk(e) && ExecOk(m) && ExecOk(r) && |bs| == |bm| == |br| == CHANNELS
    requires Carries(e, m, mem, bs, bm) && Carries(m, r, mem, bm, br)
    ensures Carries(e, r, mem, bs, br)
  {
  }

  /** The blocks after the shares of the channels from ch on. */
  function SharedFrom(p: Core, ch: nat, bs: seq<Block>): (r: seq<Block>)
    requires CoreOk(p) && |bs| == CHANNELS
    ensures |r| == CHANNELS
    ensures forall o :: 0 <= o < CHANNELS ==> r[o] == if o < ch then bs[o] else Shared(p, o, bs[o])
  {
    seq(CHANNELS, o requires 0 <= o < CHANNELS => if o < ch then bs[o] else Shared(p, o, bs[o]))
  }

  lemma {:induction false} MixFromCarries(f: Frame, ch: nat, mem: Memory, bs: seq<Block>)
    requires ExecOk(f.exec) && ch <= CHANNELS && |bs| == CHANNELS
    ensures Carries(f.exec, MixFrom(f, ch, From(mem)).exec, mem, bs, SharedFrom(f.exec.core, ch, bs))
    decreases CHANNELS - ch
  {
    if ch == CHANNELS {
      assert SharedFrom(f.exec.core, ch, bs) == bs;
    } else {
      var f1, bs1 := MixChannel(f, ch, From(mem)), bs[ch := Shared(f.exec.core, ch, bs[ch])];
      MixCarries(f, ch, mem, bs);
      MixFromCarries(f1, ch + 1, mem, bs1);
      SharesJoin(f, ch, mem, bs);
      CarriesOn(f.exec, f1.exec, MixFrom(f, ch, From(mem)).exec, mem, bs, bs1, SharedFrom(f.exec.core, ch, bs));
    }
  }

  /** The share of channel ch moves no later channel's. */
  lemma SharesJoin(f: Frame, ch: nat, mem: Memory, bs: seq<Block>)
    requires ExecOk(f.exec) && ch < CHANNELS && |bs| == CHANNELS
    ensures SharedFrom(MixChannel(f, ch, From(mem)).exec.core, ch + 1, bs[ch := Shared(f.exec.core, ch, bs[ch])])
            == SharedFrom(f.exec.core, ch, bs)
  {
    var p, bs1 := MixChannel(f, ch, From(mem)).exec.core, bs[ch := Shared(f.exec.core, ch, bs[ch])];
    ShareFrames(f, ch, From(mem));
    forall o | 0 <= o < CHANNELS
      ensures SharedFrom(p, ch + 1, bs1)[o] == SharedFrom(f.exec.core, ch, bs)[o]
    {
      if o > ch {
        SameShare(p, f.exec.core, o, bs[o]);
      }
    }
  }

  lemma SameShare(p: Core, q: Core, ch: nat, b: Block)
    requires CoreOk(p) && CoreOk(q) && ch < CHANNELS && p.dmaCon == q.dmaCon && p.channels[ch] == q.channels[ch]
    ensures Shared(p, ch, b) == Shared(q, ch, b)
  {
  }

  // ---------------------------------------------------------------- every deed

  function BlocksAfter(p: Core, d: Deed, bs: seq<Block>): (r: seq<Block>)
    requires CoreOk(p) && |bs| == CHANNELS
    ensures |r| == CHANNELS
    ensures forall ch :: 0 <= ch < CHANNELS ==> r[ch] == BlockAfter(p, d, ch, bs[ch])
  {
    seq(CHANNELS, ch requires 0 <= ch < CHANNELS => BlockAfter(p, d, ch, bs[ch]))
  }

  lemma FrameCarries(e: Exec, mem: Memory, bs: seq<Block>)
    requires ExecOk(e) && |bs| == CHANNELS
    ensures Carries(e, Framed(e, From(mem)), mem, bs, BlocksAfter(e.core, OutputFrame, bs))
  {
    var f := Frame(WithCore(e, FrameStart(e.core).exec.core), []);
    assert f.exec.core.channels == e.core.channels && f.exec.core.dmaCon == e.core.dmaCon;
    MixFromCarries(f, 0, mem, bs);
    assert SharedFrom(f.exec.core, 0, bs) == BlocksAfter(e.core, OutputFrame, bs);
  }

  lemma SampleCarries(e: Exec, ch: nat, mem: Memory, bs: seq<Block>)
    requires ExecOk(e) && ch < CHANNELS && |bs| == CHANNELS
    ensures Carries(e, Advance(e, ch, From(mem)), mem, bs, BlocksAfter(e.core, Sample(ch), bs))
  {
    TickFrames(e, ch, From(mem));
    var c, b, bs' := e.core.channels[ch], bs[ch], BlocksAfter(e.core, Sample(ch), bs);
    assert forall o :: 0 <= o < CHANNELS && o != ch ==> bs'[o] == bs[o];
    if Enabled(e.core.dmaCon, ch) {
      assert bs'[ch] == Turns(Turn(b, c.locLatched, c.lenLatched), c.locLatched, c.lenLatched, 0);
      if Follows(e.core, ch, mem, b) {
        TickTurns(e, ch, mem, b);
      }
    }
  }

  lemma WriteFollows(p: Core, address: nat, value: Word, ch: nat, mem: Memory, b: Block)
    requires RestartExact(p) && ch < CHANNELS && Follows(p, ch, mem, b)
    ensures Follows(WriteRegister(p, address, value), ch, mem, BlockAfter(p, Write(address, value), ch, b))
  {
    PrimesOnRisingEdge(p, address, value, ch);
    if !Enabled(p.dmaCon, ch) {
      PrimedStart(Primed(p.channels[ch]), mem);
    }
  }

  /** Loop settings, mixer requests and resets start no block and end none. */
  lemma OthersFollow(p: Core, d: Deed, ch: nat, mem: Memory, b: Block)
    requires CoreOk(p) && ch < CHANNELS && DeedOk(d) && (d.SetLoop? || d.Mixer? || d.Reset?)
    requires Follows(p, ch, mem, b)
    ensures Follows(Do(Exec(p, [], 0), d, mem).core, ch, mem, b) && BlockAfter(p, d, ch, b) == b
  {
  }

  lemma DeedCarries(e: Exec, d: Deed, mem: Memory, bs: seq<Block>)
    requires ExecOk(e) && RestartExact(e.core) && DeedOk(d) && |bs| == CHANNELS
    ensures Carries(e, Do(e, d, mem), mem, bs, BlocksAfter(e.core, d, bs))
  {
    if d.OutputFrame? {
      FrameCarries(e, mem, bs);
    } else if d.Sample? {
      SampleCarries(e, d.ch, mem, bs);
    } else {
      SilentCarries(e, d, mem, bs);
    }
  }

  lemma SilentCarries(e: Exec, d: Deed, mem: Memory, bs: seq<Block>)
    requires ExecOk(e) && RestartExact(e.core) && DeedOk(d) && |bs| == CHANNELS && !d.OutputFrame? && !d.Sample?
    ensures Carries(e, Do(e, d, mem), mem, bs, BlocksAfter(e.core, d, bs))
  {
    var bs' := BlocksAfter(e.core, d, bs);
    forall ch | 0 <= ch < CHANNELS
      ensures bs'[ch].ends == bs[ch].ends
    {
    }
    forall ch | 0 <= ch < CHANNELS && Follows(e.core, ch, mem, bs[ch])
      ensures Follows(Do(e, d, mem).core, ch, mem, bs'[ch])
    {
      if d.Write? {
        WriteFollows(e.core, d.address, d.value, ch, mem, bs[ch]);
      } else {
        OthersFollow(e.core, d, ch, mem, bs[ch]);
      }
    }
  }

  lemma DeedKeepsRestart(e: Exec, d: Deed, mem: Memory)
    requires ExecOk(e) && RestartExact(e.core) && DeedOk(d)
    ensures RestartExact(Do(e, d, mem).core)
  {
    match d
    case Sample(ch) => AdvanceKeepsRestart(e, ch, From(mem));
    case OutputFrame =>
      var f := Frame(WithCore(e, FrameStart(e.core).exec.core), []);
      assert f.exec.core.channels == e.core.channels && f.exec.core.dmaCon == e.core.dmaCon;
      MixKeepsRestart(f, 0, From(mem));
    case Write(address, value) =>
      forall ch | 0 <= ch < CHANNELS
        ensures var r := WriteRegister(e.core, address, value);
                r.channels[ch].wantsRestart <==> !Enabled(r.dmaCon, ch)
      {
        PrimesOnRisingEdge(e.core, address, value, ch);
      }
    case SetLoop(ch, loc, words) => assert WithLoop(e.core, ch, loc, words).dmaCon == e.core.dmaCon;
    case Mixer(word) => assert CoreMixed(e.core, word).channels == e.core.channels;
    case Reset => ResetIsRestartExact(e.core);
  }

  // ---------------------------------------------------------------- every run

  function BlocksOf(e: Exec, deeds: seq<Deed>, mem: Memory, bs: seq<Block>): (r: seq<Block>)
    requires ExecOk(e) && DeedsOk(deeds) && |bs| == CHANNELS
    ensures |r| == CHANNELS
    decreases |deeds|
  {
    if deeds == [] then bs
    else BlocksOf(Do(e, deeds[0], mem), deeds[1..], mem, BlocksAfter(e.core, deeds[0], bs))
  }

  lemma {:induction false} RunCarries(e: Exec, deeds: seq<Deed>, mem: Memory, bs: seq<Block>)
    requires ExecOk(e) && RestartExact(e.core) && DeedsOk(deeds) && |bs| == CHANNELS
    ensures Carries(e, DoAll(e, deeds, mem), mem, bs, BlocksOf(e, deeds, mem, bs))
    ensures RestartExact(DoAll(e, deeds, mem).core)
    decreases |deeds|
  {
    if deeds != [] {
      var d := Do(e, deeds[0], mem);
      DeedKeepsRestart(e, deeds[0], mem);
      DeedCarries(e, deeds[0], mem, bs);
      RunCarries(d, deeds[1..], mem, BlocksAfter(e.core, deeds[0], bs));
      CarriesOn(e, d, DoAll(e, deeds, mem), mem, bs, BlocksAfter(e.core, deeds[0], bs), BlocksOf(e, deeds, mem, bs));
    }
  }

  /** No block has been started. */
  const NO_BLOCKS: seq<Block> := [Block(0, 0, 0, 0), Block(0, 0, 0, 0), Block(0, 0, 0, 0), Block(0, 0, 0, 0)]

  /** From reset, whatever is written and however many frames are rendered: an enabled channel
      stands in the block it was given when it was switched on or when the block before it
      ended, and the interrupts raised are the blocks that ended, over all channels. */
  lemma {:induction false} EveryBlockIsPlayed(p: Core, deeds: seq<Deed>, mem: Memory, ch: nat)
    requires CoreOk(p) && DeedsOk(deeds) && ch < CHANNELS
    ensures var e := Exec(ResetCore(p), [], 0);
            var bs, r := BlocksOf(e, deeds, mem, NO_BLOCKS), DoAll(e, deeds, mem);
            && (Enabled(r.core.dmaCon, ch) ==>
                  At(r.core.channels[ch], mem, bs[ch].base, bs[ch].pos, bs[ch].len))
            && r.irqs == Ends(bs)
  {
    var e := Exec(ResetCore(p), [], 0);
    ResetIsRestartExact(p);
    RunCarries(e, deeds, mem, NO_BLOCKS);
    var r := DoAll(e, deeds, mem);
    assert forall o :: 0 <= o < CHANNELS ==> Follows(e.core, o, mem, NO_BLOCKS[o]);
    assert Follows(r.core, ch, mem, BlocksOf(e, deeds, mem, NO_BLOCKS)[ch]);
  }

  // ---------------------------------------------------------------- inside one block

  /** The channel is enabled at every point of the run. */
  predicate StaysOn(e: Exec, deeds: seq<Deed>, mem: Memory, ch: nat)
    requires ExecOk(e) && DeedsOk(deeds) && ch < CHANNELS
    decreases |deeds|
  {
    && Enabled(e.core.dmaCon, ch)
    && (deeds == [] || StaysOn(Do(e, deeds[0], mem), deeds[1..], mem, ch))
  }

  /** The channel's ticks in the run. */
  function TicksAll(e: Exec, deeds: seq<Deed>, mem: Memory, ch: nat): nat
    requires ExecOk(e) && DeedsOk(deeds) && ch < CHANNELS
    decreases |deeds|
  {
    if deeds == [] then 0 else TicksOf(e.core, deeds[0], ch) + TicksAll(Do(e, deeds[0], mem), deeds[1..], mem, ch)
  }

  lemma {:induction false} TurnsInBlock(b: Block, loc: nat, words: nat, k: nat)
    requires b.pos + k <= 2 * b.len
    ensures Turns(b, loc, words, k) == b.(pos := b.pos + k)
    decreases k
  {
    if k > 0 {
      TurnsInBlock(Turn(b, loc, words), loc, words, k - 1);
    }
  }

  lemma {:induction false} RunInBlock(e: Exec, deeds: seq<Deed>, mem: Memory, bs: seq<Block>, ch: nat)
    requires ExecOk(e) && DeedsOk(deeds) && |bs| == CHANNELS && ch < CHANNELS
    requires StaysOn(e, deeds, mem, ch) && bs[ch].pos + TicksAll(e, deeds, mem, ch) <= 2 * bs[ch].len
    ensures BlocksOf(e, deeds, mem, bs)[ch] == bs[ch].(pos := bs[ch].pos + TicksAll(e, deeds, mem, ch))
    ensures Enabled(DoAll(e, deeds, mem).core.dmaCon, ch)
    decreases |deeds|
  {
    if deeds != [] {
      var c := e.core.channels[ch];
      TurnsInBlock(bs[ch], c.locLatched, c.lenLatched, TicksOf(e.core, deeds[0], ch));
      RunInBlock(Do(e, deeds[0], mem), deeds[1..], mem, BlocksAfter(e.core, deeds[0], bs), ch);
    }
  }

  /** The tick from r to t plays the block's next byte, or at its end, with an interrupt, the
      first byte of the block latched in r. */
  ghost predicate TickPlays(r: Exec, t: Exec, ch: nat, mem: Memory, base: nat, pos: nat, len: nat)
    requires ExecOk(r) && ExecOk(t) && ch < CHANNELS
  {
    var c, d := r.core.channels[ch], t.core.channels[ch];
    if pos < 2 * len then d.nextOut == Signed(mem((base + pos) % U32)) && t.irqs == r.irqs
    else
      && d.nextOut == Signed(mem(c.locLatched)) && t.irqs == r.irqs + 1
      && At(d, mem, c.locLatched, 1, Playable(c.lenLatched))
  }

  /** Rewriting location or length of a running block, by any register writes and loop settings
      spread over it in any way: up to its end bytes and interrupts are those of the old block,
      and the next tick plays the first byte of whatever is latched then, with an interrupt. */
  lemma {:induction false} RewriteWaitsForBlockEnd(e: Exec, deeds: seq<Deed>, mem: Memory, bs: seq<Block>, ch: nat)
    requires ExecOk(e) && RestartExact(e.core) && DeedsOk(deeds) && |bs| == CHANNELS && ch < CHANNELS
    requires At(e.core.channels[ch], mem, bs[ch].base, bs[ch].pos, bs[ch].len)
    requires StaysOn(e, deeds, mem, ch) && bs[ch].pos + TicksAll(e, deeds, mem, ch) <= 2 * bs[ch].len
    ensures var r, b, pos := DoAll(e, deeds, mem), bs[ch], bs[ch].pos + TicksAll(e, deeds, mem, ch);
            && At(r.core.channels[ch], mem, b.base, pos, b.len)
            && BlocksOf(e, deeds, mem, bs)[ch].ends == b.ends
            && TickPlays(r, Advance(r, ch, From(mem)), ch, mem, b.base, pos, b.len)
  {
    StandsInBlock(e, deeds, mem, bs, ch);
    NextTick(DoAll(e, deeds, mem), ch, mem, bs[ch].base, bs[ch].pos + TicksAll(e, deeds, mem, ch), bs[ch].len);
  }

  lemma {:induction false} StandsInBlock(e: Exec, deeds: seq<Deed>, mem: Memory, bs: seq<Block>, ch: nat)
    requires ExecOk(e) && RestartExact(e.core) && DeedsOk(deeds) && |bs| == CHANNELS && ch < CHANNELS
    requires At(e.core.channels[ch], mem, bs[ch].base, bs[ch].pos, bs[ch].len)
    requires StaysOn(e, deeds, mem, ch) && bs[ch].pos + TicksAll(e, deeds, mem, ch) <= 2 * bs[ch].len
    ensures var r, b := DoAll(e, deeds, mem), bs[ch];
            && Enabled(r.core.dmaCon, ch) && BlocksOf(e, deeds, mem, bs)[ch].ends == b.ends
            && At(r.core.channels[ch], mem, b.base, b.pos + TicksAll(e, deeds, mem, ch), b.len)
  {
    RunCarries(e, deeds, mem, bs);
    RunInBlock(e, deeds, mem, bs, ch);
    assert Follows(DoAll(e, deeds, mem).core, ch, mem, BlocksOf(e, deeds, mem, bs)[ch]);
  }

  lemma NextTick(r: Exec, ch: nat, mem: Memory, base: nat, pos: nat, len: nat)
    requires ExecOk(r) && ch < CHANNELS && Enabled(r.core.dmaCon, ch)
    requires At(r.core.channels[ch], mem, base, pos, len)
    ensures TickPlays(r, Advance(r, ch, From(mem)), ch, mem, base, pos, len)
  {
    if pos < 2 * len {
      TickInBlock(r, ch, mem, base, pos, len);
    } else {
      TickReloads(r, ch, mem, base, len);
      Small(r.core.channels[ch].locLatched, U32);
    }
  }
}
