/** The DMA stream in closed form: which byte each tick plays, when a block reloads and
    how many interrupts it has raised. */
module PaulaStream {
  import opened Words
  import opened PaulaCore
  import opened Arith

  // ---------------------------------------------------------------- restarts

  /** A channel wants a restart exactly while its DMA is off. */
  ghost predicate RestartExact(p: Core) {
    CoreOk(p) && forall ch :: 0 <= ch < CHANNELS ==>
      (p.channels[ch].wantsRestart <==> !Enabled(p.dmaCon, ch))
  }

  lemma ResetIsRestartExact(p: Core)
    requires CoreOk(p)
    ensures RestartExact(ResetCore(p))
  {
  }

  /** Location, playhead and pending output of a channel. */
  ghost predicate SameCursor(c: Channel, d: Channel) {
    && d.curPtr == c.curPtr && d.wordsLeft == c.wordsLeft && d.onLowByte == c.onLowByte
    && d.sampleL == c.sampleL && d.sampleH == c.sampleH
    && d.phase == c.phase && d.nextOut == c.nextOut && d.curOut == c.curOut
  }

  lemma DmaWritePrimes(p: Core, value: Word, ch: nat)
    requires RestartExact(p) && ch < CHANNELS
    ensures var dmaCon := SetClr(p.dmaCon, value);
            var c, c' := p.channels[ch], GatedAll(p.channels, dmaCon)[ch];
            && (c'.wantsRestart <==> !Enabled(dmaCon, ch))
            && (if !Enabled(p.dmaCon, ch) && Enabled(dmaCon, ch) then c' == Primed(c) else SameCursor(c, c'))
  {
  }

  lemma ChannelWriteKeepsCursor(c: Channel, reg: nat, value: Word)
    requires ChannelOk(c)
    ensures SameCursor(c, ChannelWrite(c, reg, value))
    ensures ChannelWrite(c, reg, value).wantsRestart == c.wantsRestart
  {
  }

  lemma OtherWriteKeepsCursor(p: Core, address: nat, value: Word, ch: nat)
    requires CoreOk(p) && ch < CHANNELS && address % 0x1000 != DMACON
    ensures var r := WriteRegister(p, address, value);
            && r.dmaCon == p.dmaCon && SameCursor(p.channels[ch], r.channels[ch])
            && r.channels[ch].wantsRestart == p.channels[ch].wantsRestart
  {
    var reg := address % 0x1000;
    if AUD_BASE <= reg < AUD_BASE + 16 * CHANNELS {
      var w := (reg - AUD_BASE) / 16;
      ChannelWriteKeepsCursor(p.channels[w], (reg - AUD_BASE) % 16, value);
      assert WriteRegister(p, address, value) == WriteChannel(p, reg - AUD_BASE, value);
    }
  }

  /** Register writes keep it, and they prime a channel exactly on a rising edge of its
      enable; every other write leaves all cursors where they are. */
  lemma PrimesOnRisingEdge(p: Core, address: nat, value: Word, ch: nat)
    requires RestartExact(p) && ch < CHANNELS
    ensures var r := WriteRegister(p, address, value);
            && (r.channels[ch].wantsRestart <==> !Enabled(r.dmaCon, ch))
            && (if !Enabled(p.dmaCon, ch) && Enabled(r.dmaCon, ch)
                then r.channels[ch] == Primed(p.channels[ch])
                else SameCursor(p.channels[ch], r.channels[ch]))
  {
    if address % 0x1000 == DMACON {
      DmaWritePrimes(p, value, ch);
    } else {
      OtherWriteKeepsCursor(p, address, value, ch);
    }
  }

  lemma {:induction false} TicksKeepRestart(e: Exec, ch: nat, read: Reader)
    requires ExecOk(e) && ch < CHANNELS && RestartExact(e.core)
    ensures RestartExact(Ticks(e, ch, read).core)
    decreases Phase(e, ch).Floor
  {
    if Phase(e, ch) >= 1.0 {
      var e1 := WithPhase(e, ch, Phase(e, ch) - 1.0);
      AdvanceKeepsRestart(e1, ch, read);
      TicksKeepRestart(Advance(e1, ch, read), ch, read);
    }
  }

  lemma AdvanceKeepsRestart(e: Exec, ch: nat, read: Reader)
    requires ExecOk(e) && ch < CHANNELS && RestartExact(e.core)
    ensures RestartExact(Advance(e, ch, read).core)
  {
  }

  lemma {:induction false} MixKeepsRestart(f: Frame, ch: nat, read: Reader)
    requires ExecOk(f.exec) && ch <= CHANNELS && RestartExact(f.exec.core)
    ensures RestartExact(MixFrom(f, ch, read).exec.core)
    decreases CHANNELS - ch
  {
    if ch < CHANNELS {
      assert RestartExact(Started(f.exec, ch).core);
      TicksKeepRestart(Started(f.exec, ch), ch, read);
      assert RestartExact(MixChannel(f, ch, read).exec.core);
      MixKeepsRestart(MixChannel(f, ch, read), ch + 1, read);
    }
  }

  /** Rendering never makes a channel want or lose a restart. */
  lemma FrameKeepsRestart(p: Core, read: Reader)
    requires RestartExact(p)
    ensures RestartExact(RenderFrame(p, read).exec.core)
  {
    MixKeepsRestart(FrameStart(p), 0, read);
  }

  // ---------------------------------------------------------------- one block

  /** Sample memory that does not change while the stream runs. */
  type Memory = nat -> Byte

  function From(mem: Memory): Reader {
    (i: nat, a: nat) => mem(a)
  }

  /** pos bytes of the block of len words at base have been taken. */
  ghost predicate At(c: Channel, mem: Memory, base: nat, pos: nat, len: nat) {
    && base < U32 && pos <= 2 * len
    && c.onLowByte == (pos % 2 == 0)
    && c.curPtr == (base + (pos + 1) / 2 * 2) % U32
    && c.wordsLeft == len - (pos + 1) / 2
    && (pos % 2 == 1 ==> c.sampleH == mem((base + pos) % U32))
    && (pos > 0 ==> c.nextOut == Signed(mem((base + pos - 1) % U32)))
  }

  /** k ticks of one channel. */
  function Play(e: Exec, ch: nat, read: Reader, k: nat): (r: Exec)
    requires ExecOk(e) && ch < CHANNELS
    ensures ExecOk(r)
  {
    if k == 0 then e else Advance(Play(e, ch, read, k - 1), ch, read)
  }

  /** Fetching inside a block reads its next two bytes. */
  lemma FetchInBlock(c: Channel, mem: Memory, base: nat, pos: nat, len: nat)
    requires At(c, mem, base, pos, len) && pos < 2 * len && pos % 2 == 0
    ensures FetchPtr(c) == (base + pos) % U32 && c.wordsLeft > 0
    ensures At(Fetch(c, mem(FetchPtr(c)), mem((FetchPtr(c) + 1) % U32)), mem, base, pos + 1, len)
  {
    var words := pos / 2;
    assert pos == 2 * words && (pos + 1) / 2 == words && (pos + 2) / 2 == words + 1;
    WrapAdd(base + pos, 1);
    WrapAdd(base + pos, 2);
  }

  lemma SecondInBlock(c: Channel, mem: Memory, base: nat, pos: nat, len: nat)
    requires At(c, mem, base, pos, len) && pos % 2 == 1
    ensures pos + 1 <= 2 * len && At(SecondByte(c), mem, base, pos + 1, len)
  {
    var words := pos / 2;
    assert pos == 2 * words + 1 && (pos + 1) / 2 == words + 1 && (pos + 2) / 2 == words + 1;
  }

  /** A channel whose length was never written reloads for every word. */
  function Playable(words: nat): nat {
    if words == 0 then 1 else words
  }

  /** A fetch at a block's end starts the latched block. */
  lemma FetchReloads(c: Channel, mem: Memory, base: nat, len: nat)
    requires At(c, mem, base, 2 * len, len) && c.locLatched < U32
    ensures c.onLowByte && c.wordsLeft == 0 && FetchPtr(c) == c.locLatched
    ensures At(Fetch(c, mem(FetchPtr(c)), mem((FetchPtr(c) + 1) % U32)), mem,
               c.locLatched, 1, Playable(c.lenLatched))
  {
    assert (2 * len + 1) / 2 == len;
  }

  /** The latched block and the enables are as they were. */
  ghost predicate SameBlocks(e: Exec, r: Exec, ch: nat)
    requires ExecOk(e) && ExecOk(r) && ch < CHANNELS
  {
    && r.core.channels[ch].locLatched == e.core.channels[ch].locLatched
    && r.core.channels[ch].lenLatched == e.core.channels[ch].lenLatched
    && r.core.dmaCon == e.core.dmaCon
    && r.core.channels[ch].locLatched < U32
  }

  /** Inside a block a tick takes the block's next byte and raises no interrupt. */
  lemma TickInBlock(e: Exec, ch: nat, mem: Memory, base: nat, pos: nat, len: nat)
    requires ExecOk(e) && ch < CHANNELS && Enabled(e.core.dmaCon, ch)
    requires At(e.core.channels[ch], mem, base, pos, len) && pos < 2 * len
    ensures var r := Advance(e, ch, From(mem));
            && At(r.core.channels[ch], mem, base, pos + 1, len) && r.irqs == e.irqs
            && r.core.intReq == e.core.intReq
            && r.core.channels[ch].curOut == e.core.channels[ch].nextOut
            && SameBlocks(e, r, ch)
  {
    var c := e.core.channels[ch];
    if pos % 2 == 0 {
      FetchInBlock(c, mem, base, pos, len);
    } else {
      SecondInBlock(c, mem, base, pos, len);
    }
  }

  /** At a block's end the next tick takes the first byte of the latched block and raises
      one interrupt. */
  lemma TickReloads(e: Exec, ch: nat, mem: Memory, base: nat, len: nat)
    requires ExecOk(e) && ch < CHANNELS && Enabled(e.core.dmaCon, ch)
    requires At(e.core.channels[ch], mem, base, 2 * len, len)
    ensures var c, r := e.core.channels[ch], Advance(e, ch, From(mem));
            && At(r.core.channels[ch], mem, c.locLatched, 1, Playable(c.lenLatched)) && r.irqs == e.irqs + 1
            && r.core.channels[ch].curOut == c.nextOut
            && SameBlocks(e, r, ch)
            && r.core.intReq == e.core.intReq + {IrqBit(ch)}
  {
    FetchReloads(e.core.channels[ch], mem, base, len);
  }

  // ---------------------------------------------------------------- closed form

  /** Bytes of the latched block taken after k ticks from pos, once the current block is over. */
  function Beyond(pos: nat, len: nat, k: nat): int {
    pos + k - 2 * len - 1
  }

  ghost predicate StreamAt(c: Channel, mem: Memory, base: nat, pos: nat, len: nat, loc: nat, loop: nat, k: nat)
    requires loop > 0
  {
    var j := Beyond(pos, len, k);
    if j < 0 then At(c, mem, base, pos + k, len)
    else At(c, mem, loc, j % (2 * loop) + 1, loop)
  }

  function Interrupts(pos: nat, len: nat, loop: nat, k: nat): nat
    requires loop > 0
  {
    var j := Beyond(pos, len, k);
    if j < 0 then 0 else 1 + j / (2 * loop)
  }

  ghost predicate Streams(e: Exec, r: Exec, ch: nat, mem: Memory, base: nat, pos: nat, len: nat, k: nat)
    requires ExecOk(e) && ExecOk(r) && ch < CHANNELS && e.core.channels[ch].lenLatched > 0
  {
    var c := e.core.channels[ch];
    && StreamAt(r.core.channels[ch], mem, base, pos, len, c.locLatched, c.lenLatched, k)
    && r.irqs == e.irqs + Interrupts(pos, len, c.lenLatched, k)
    && SameBlocks(e, r, ch)
  }

  lemma StreamStepInBlock(e: Exec, d: Exec, ch: nat, mem: Memory, base: nat, pos: nat, len: nat, k: nat)
    requires ExecOk(e) && ExecOk(d) && ch < CHANNELS && Enabled(e.core.dmaCon, ch)
    requires e.core.channels[ch].lenLatched > 0 && Streams(e, d, ch, mem, base, pos, len, k)
    requires Beyond(pos, len, k) < 0
    ensures Streams(e, Advance(d, ch, From(mem)), ch, mem, base, pos, len, k + 1)
    ensures Advance(d, ch, From(mem)).core.channels[ch].curOut == d.core.channels[ch].nextOut
  {
    if Beyond(pos, len, k) < -1 {
      TickInBlock(d, ch, mem, base, pos + k, len);
    } else {
      TickReloads(d, ch, mem, base, len);
      Small(0, 2 * e.core.channels[ch].lenLatched);
    }
  }

  lemma StreamStepInLoop(e: Exec, d: Exec, ch: nat, mem: Memory, base: nat, pos: nat, len: nat, k: nat)
    requires ExecOk(e) && ExecOk(d) && ch < CHANNELS && Enabled(e.core.dmaCon, ch)
    requires e.core.channels[ch].lenLatched > 0 && Streams(e, d, ch, mem, base, pos, len, k)
    requires Beyond(pos, len, k) >= 0
    ensures Streams(e, Advance(d, ch, From(mem)), ch, mem, base, pos, len, k + 1)
    ensures Advance(d, ch, From(mem)).core.channels[ch].curOut == d.core.channels[ch].nextOut
  {
    assert Beyond(pos, len, k + 1) == Beyond(pos, len, k) + 1;
    LoopStep(d, ch, mem, Beyond(pos, len, k));
  }

  /** One more tick of the stream, wherever it stands. */
  lemma StreamStep(e: Exec, d: Exec, ch: nat, mem: Memory, base: nat, pos: nat, len: nat, k: nat)
    requires ExecOk(e) && ExecOk(d) && ch < CHANNELS && Enabled(e.core.dmaCon, ch)
    requires e.core.channels[ch].lenLatched > 0 && Streams(e, d, ch, mem, base, pos, len, k)
    ensures Streams(e, Advance(d, ch, From(mem)), ch, mem, base, pos, len, k + 1)
    ensures Advance(d, ch, From(mem)).core.channels[ch].curOut == d.core.channels[ch].nextOut
  {
    if Beyond(pos, len, k) < 0 {
      StreamStepInBlock(e, d, ch, mem, base, pos, len, k);
    } else {
      StreamStepInLoop(e, d, ch, mem, base, pos, len, k);
    }
  }

  /** One more tick inside the loop, or around its end. */
  lemma LoopStep(d: Exec, ch: nat, mem: Memory, j: nat)
    requires ExecOk(d) && ch < CHANNELS && Enabled(d.core.dmaCon, ch)
    requires d.core.channels[ch].lenLatched > 0
    requires var c := d.core.channels[ch];
             At(c, mem, c.locLatched, j % (2 * c.lenLatched) + 1, c.lenLatched)
    ensures var c, r := d.core.channels[ch], Advance(d, ch, From(mem));
            var m := 2 * c.lenLatched;
            && At(r.core.channels[ch], mem, c.locLatched, (j + 1) % m + 1, c.lenLatched)
            && r.irqs - d.irqs == (j + 1) / m - j / m
            && r.core.channels[ch].curOut == c.nextOut
            && SameBlocks(d, r, ch)
  {
    var c := d.core.channels[ch];
    var m := 2 * c.lenLatched;
    NextIndex(j, m);
    if j % m == m - 1 {
      TickReloads(d, ch, mem, c.locLatched, c.lenLatched);
    } else {
      TickInBlock(d, ch, mem, c.locLatched, j % m + 1, c.lenLatched);
    }
  }

  /** From any point of a running block, tick k plays the next byte of that block, then the
      latched block over and over; each passage to a new block raises one interrupt, and the
      output lags the loaded byte by one tick. */
  lemma {:induction false} StreamClosedForm(e: Exec, ch: nat, mem: Memory, base: nat, pos: nat, len: nat, k: nat)
    requires ExecOk(e) && ch < CHANNELS && Enabled(e.core.dmaCon, ch)
    requires At(e.core.channels[ch], mem, base, pos, len)
    requires e.core.channels[ch].lenLatched > 0
    ensures Streams(e, Play(e, ch, From(mem), k), ch, mem, base, pos, len, k)
    ensures k > 0 ==> Play(e, ch, From(mem), k).core.channels[ch].curOut
                        == Play(e, ch, From(mem), k - 1).core.channels[ch].nextOut
  {
    if k > 0 {
      StreamClosedForm(e, ch, mem, base, pos, len, k - 1);
      StreamStep(e, Play(e, ch, From(mem), k - 1), ch, mem, base, pos, len, k - 1);
    }
  }

  /** A channel just primed stands at the start of its latched block. */
  ghost predicate JustPrimed(e: Exec, ch: nat)
    requires ExecOk(e) && ch < CHANNELS
  {
    && Enabled(e.core.dmaCon, ch)
    && e.core.channels[ch] == Primed(e.core.channels[ch])
    && e.core.channels[ch].lenLatched > 0
  }

  /** Where the k-th tick after priming stands in its block. */
  lemma PrimedIndex(words: nat, k: nat)
    requires words > 0 && k > 0
    ensures var j := Beyond(0, words, k);
            && (k - 1) % (2 * words) == (if j < 0 then k - 1 else j % (2 * words))
            && (k - 1) / (2 * words) == Interrupts(0, words, words, k)
  {
    var loop, j := 2 * words, Beyond(0, words, k);
    if j < 0 {
      Small(k - 1, loop);
    } else {
      Shift(j, loop);
      assert j + loop == k - 1;
    }
  }

  /** What standing in the stream means for a channel primed at its latched block. */
  lemma PrimedStands(c: Channel, mem: Memory, loc: nat, words: nat, k: nat)
    requires words > 0 && k > 0 && StreamAt(c, mem, loc, 0, words, loc, words, k)
    ensures c.nextOut == Signed(mem((loc + (k - 1) % (2 * words)) % U32))
  {
    PrimedIndex(words, k);
    var loop, j := 2 * words, Beyond(0, words, k);
    if j >= 0 {
      assert (k - 1) % loop == j % loop;
    }
  }

  lemma PrimedStart(c: Channel, mem: Memory)
    requires c == Primed(c) && ChannelOk(c)
    ensures At(c, mem, c.locLatched, 0, c.lenLatched)
  {
  }

  lemma PrimedStreams(e: Exec, ch: nat, mem: Memory, k: nat)
    requires ExecOk(e) && ch < CHANNELS && JustPrimed(e, ch)
    ensures var c := e.core.channels[ch];
            Streams(e, Play(e, ch, From(mem), k), ch, mem, c.locLatched, 0, c.lenLatched, k)
    ensures k > 0 ==> Play(e, ch, From(mem), k).core.channels[ch].curOut
                        == Play(e, ch, From(mem), k - 1).core.channels[ch].nextOut
  {
    var c := e.core.channels[ch];
    PrimedStart(c, mem);
    StreamClosedForm(e, ch, mem, c.locLatched, 0, c.lenLatched, k);
  }

  lemma PrimedByte(e: Exec, ch: nat, mem: Memory, k: nat)
    requires ExecOk(e) && ch < CHANNELS && JustPrimed(e, ch) && k > 0
    ensures var c, r := e.core.channels[ch], Play(e, ch, From(mem), k);
            r.core.channels[ch].nextOut == Signed(mem((c.locLatched + (k - 1) % (2 * c.lenLatched)) % U32))
  {
    var c, r := e.core.channels[ch], Play(e, ch, From(mem), k);
    PrimedStreams(e, ch, mem, k);
    PrimedStands(r.core.channels[ch], mem, c.locLatched, c.lenLatched, k);
  }

  lemma PrimedInterrupts(e: Exec, ch: nat, mem: Memory, k: nat)
    requires ExecOk(e) && ch < CHANNELS && JustPrimed(e, ch) && k > 0
    ensures Play(e, ch, From(mem), k).irqs == e.irqs + (k - 1) / (2 * e.core.channels[ch].lenLatched)
  {
    PrimedStreams(e, ch, mem, k);
    PrimedIndex(e.core.channels[ch].lenLatched, k);
  }

  lemma PrimedLag(e: Exec, ch: nat, mem: Memory, k: nat)
    requires ExecOk(e) && ch < CHANNELS && JustPrimed(e, ch) && k > 0
    ensures var c := e.core.channels[ch];
            Play(e, ch, From(mem), k).core.channels[ch].curOut ==
            if k == 1 then 0 else Signed(mem((c.locLatched + (k - 2) % (2 * c.lenLatched)) % U32))
  {
    PrimedStreams(e, ch, mem, k);
    if k > 1 {
      PrimedByte(e, ch, mem, k - 1);
    } else {
      assert Play(e, ch, From(mem), 0) == e;
    }
  }

  /** After priming at location L with W words, tick k loads the byte at L + (k-1) mod 2W,
      the output lags one tick, and floor((k-1) / 2W) interrupts have fired. */
  lemma PrimedStream(e: Exec, ch: nat, mem: Memory, k: nat)
    requires ExecOk(e) && ch < CHANNELS && JustPrimed(e, ch) && k > 0
    ensures var c, r := e.core.channels[ch], Play(e, ch, From(mem), k);
            var c', loop := r.core.channels[ch], 2 * c.lenLatched;
            && c'.nextOut == Signed(mem((c.locLatched + (k - 1) % loop) % U32))
            && c'.curOut == (if k == 1 then 0 else Signed(mem((c.locLatched + (k - 2) % loop) % U32)))
            && r.irqs == e.irqs + (k - 1) / loop
  {
    PrimedByte(e, ch, mem, k);
    PrimedInterrupts(e, ch, mem, k);
    PrimedLag(e, ch, mem, k);
  }

  lemma BeforeTheEnd(e: Exec, ch: nat, mem: Memory, base: nat, pos: nat, len: nat, k: nat)
    requires ExecOk(e) && ch < CHANNELS && Enabled(e.core.dmaCon, ch)
    requires At(e.core.channels[ch], mem, base, pos, len) && e.core.channels[ch].lenLatched > 0
    requires 0 < k <= 2 * len - pos
    ensures var r := Play(e, ch, From(mem), k);
            r.core.channels[ch].nextOut == Signed(mem((base + pos + k - 1) % U32)) && r.irqs == e.irqs
  {
    StreamClosedForm(e, ch, mem, base, pos, len, k);
  }

  lemma AfterTheEnd(d: Exec, ch: nat, mem: Memory, base: nat, pos: nat, len: nat, k: nat)
    requires ExecOk(d) && ch < CHANNELS && Enabled(d.core.dmaCon, ch)
    requires At(d.core.channels[ch], mem, base, pos, len) && d.core.channels[ch].lenLatched > 0
    requires pos <= 2 * len && k == 2 * len - pos + 1
    ensures var r := Play(d, ch, From(mem), k);
            r.core.channels[ch].nextOut == Signed(mem(d.core.channels[ch].locLatched)) && r.irqs == d.irqs + 1
  {
    var c, r := d.core.channels[ch], Play(d, ch, From(mem), k);
    StreamClosedForm(d, ch, mem, base, pos, len, k);
    FirstOfLoop(r.core.channels[ch], mem, base, pos, len, c.locLatched, c.lenLatched, k);
    FirstInterrupt(pos, len, c.lenLatched, k);
  }

  lemma FirstInterrupt(pos: nat, len: nat, loop: nat, k: nat)
    requires loop > 0 && pos <= 2 * len && k == 2 * len - pos + 1
    ensures Interrupts(pos, len, loop, k) == 1
  {
    Small(0, 2 * loop);
  }

  lemma FirstOfLoop(c: Channel, mem: Memory, base: nat, pos: nat, len: nat, loc: nat, loop: nat, k: nat)
    requires loop > 0 && pos <= 2 * len && k == 2 * len - pos + 1 && loc < U32
    requires StreamAt(c, mem, base, pos, len, loc, loop, k)
    ensures c.nextOut == Signed(mem(loc))
  {
    Small(0, 2 * loop);
    assert Beyond(pos, len, k) == 0;
    assert (loc + 1 - 1) % U32 == loc;
  }

  lemma LoopWritten(e: Exec, ch: nat, mem: Memory, base: nat, pos: nat, len: nat, loc: nat, words: nat)
    requires ExecOk(e) && ch < CHANNELS && loc < U32 && At(e.core.channels[ch], mem, base, pos, len)
    ensures var c := WithLoop(e.core, ch, loc, words).channels[ch];
            && At(c, mem, base, pos, len) && c.locLatched == loc && c.lenLatched > 0
            && WithLoop(e.core, ch, loc, words).dmaCon == e.core.dmaCon
  {
  }

  lemma BothBeforeTheEnd(e: Exec, d: Exec, ch: nat, mem: Memory, base: nat, pos: nat, len: nat, k: nat)
    requires ExecOk(e) && ExecOk(d) && ch < CHANNELS && Enabled(e.core.dmaCon, ch) && Enabled(d.core.dmaCon, ch)
    requires At(e.core.channels[ch], mem, base, pos, len) && e.core.channels[ch].lenLatched > 0
    requires At(d.core.channels[ch], mem, base, pos, len) && d.core.channels[ch].lenLatched > 0
    requires 0 < k <= 2 * len - pos && d.irqs == e.irqs
    ensures var before, after := Play(e, ch, From(mem), k), Play(d, ch, From(mem), k);
            && after.core.channels[ch].nextOut == before.core.channels[ch].nextOut
               == Signed(mem((base + pos + k - 1) % U32))
            && after.irqs == before.irqs == e.irqs
  {
    BeforeTheEnd(e, ch, mem, base, pos, len, k);
    BeforeTheEnd(d, ch, mem, base, pos, len, k);
  }

  /** Setting a loop mid-block changes nothing until the block ends: up to then bytes and
      interrupts are those of the old block, and the next tick after it plays the first byte
      of the new one. */
  lemma LoopWaitsForBlockEnd(e: Exec, ch: nat, mem: Memory, base: nat, pos: nat, len: nat,
                             loc: nat, words: nat, k: nat)
    requires ExecOk(e) && ch < CHANNELS && Enabled(e.core.dmaCon, ch)
    requires At(e.core.channels[ch], mem, base, pos, len) && e.core.channels[ch].lenLatched > 0
    requires loc < U32 && 0 < k <= 2 * len - pos + 1
    ensures var d := e.(core := WithLoop(e.core, ch, loc, words));
            var r := Play(d, ch, From(mem), k);
            if k <= 2 * len - pos then
              && r.core.channels[ch].nextOut == Signed(mem((base + pos + k - 1) % U32))
              && r.core.channels[ch].nextOut == Play(e, ch, From(mem), k).core.channels[ch].nextOut
              && r.irqs == Play(e, ch, From(mem), k).irqs == e.irqs
            else
              && r.core.channels[ch].nextOut == Signed(mem(loc))
              && r.irqs == e.irqs + 1
  {
    var d := e.(core := WithLoop(e.core, ch, loc, words));
    LoopWritten(e, ch, mem, base, pos, len, loc, words);
    if k <= 2 * len - pos {
      BothBeforeTheEnd(e, d, ch, mem, base, pos, len, k);
    } else {
      AfterTheEnd(d, ch, mem, base, pos, len, k);
    }
  }
}
