/** The lookahead: every word the DMA machine is about to fetch has been asked for. */
module Lookahead {
  import opened Words
  import opened Arith
  import opened PaulaCore
  import PaulaStream
  import PaulaInvariant
  import PageCache
  import Mirror

  const WINDOW_BYTES: nat := 1024
  const WINDOW_WORDS: nat := 512

  // ---------------------------------------------------------------- what comes next

  /** Where the i-th word stands in the loop, once the w words of the block are over. */
  function LoopIndex(i: nat, w: nat, loopWords: nat): (k: nat)
    requires w <= i
    ensures loopWords > 0 ==> k < loopWords && k <= i - w
  {
    if loopWords == 0 then 0
    else
      RemainderBelow(i - w, loopWords);
      (i - w) % loopWords
  }

  /** The address of the i-th next word: the rest of the block, then the loop over and over. */
  function Upcoming(f: FetchState, i: nat): nat {
    if i < f.wordsLeft then (f.cursor + 2 * i) % U32
    else (f.loop + 2 * LoopIndex(i, f.wordsLeft, f.loopWords)) % U32
  }

  function Raw(c: Channel): FetchState {
    FetchState(c.curPtr, c.wordsLeft, c.locLatched, c.lenLatched, true)
  }

  /** The reported fetch state and the raw registers foretell the same words. */
  lemma ReportedStateForetells(p: Core, ch: nat, i: nat)
    requires PaulaStream.RestartExact(p) && ch < CHANNELS && Enabled(p.dmaCon, ch)
    ensures Upcoming(FetchStateOf(p, ch), i) == Upcoming(Raw(p.channels[ch]), i)
  {
    var c := p.channels[ch];
    if c.onLowByte && c.wordsLeft == 0 && c.lenLatched > 0 {
      if i < c.lenLatched {
        Small(i, c.lenLatched);
      } else {
        Shift(i - c.lenLatched, c.lenLatched);
      }
    }
  }

  lemma NextFetchIsUpcoming(c: Channel)
    requires ChannelOk(c)
    ensures FetchPtr(c) == Upcoming(Raw(c), 0)
  {
    if c.wordsLeft == 0 && c.lenLatched > 0 {
      Small(0, c.lenLatched);
    }
  }

  function Consumed(f: FetchState): FetchState {
    var ptr := if f.wordsLeft == 0 then f.loop else f.cursor;
    var left := if f.wordsLeft == 0 then f.loopWords else f.wordsLeft;
    f.(cursor := (ptr + 2) % U32, wordsLeft := if left > 0 then left - 1 else 0)
  }

  lemma ConsumedInBlock(f: FetchState, i: nat)
    requires f.wordsLeft > 0
    ensures Upcoming(Consumed(f), i) == Upcoming(f, i + 1)
  {
    if i + 1 < f.wordsLeft {
      WrapAdd(f.cursor + 2, 2 * i);
    } else {
      assert LoopIndex(i, f.wordsLeft - 1, f.loopWords) == LoopIndex(i + 1, f.wordsLeft, f.loopWords);
    }
  }

  lemma ConsumedAtReload(f: FetchState, i: nat)
    requires f.wordsLeft == 0 && f.loopWords > 0
    ensures Upcoming(Consumed(f), i) == Upcoming(f, i + 1)
  {
    var w := f.loopWords;
    if i + 1 < w {
      Small(i + 1, w);
      WrapAdd(f.loop + 2, 2 * i);
      assert LoopIndex(i + 1, 0, w) == i + 1;
    } else {
      Shift(i + 1 - w, w);
      assert LoopIndex(i, w - 1, w) == LoopIndex(i + 1, 0, w);
    }
  }

  /** A fetch uses up the first upcoming word and leaves the others in order. */
  lemma FetchConsumes(c: Channel, l: Byte, h: Byte, i: nat)
    requires ChannelOk(c)
    ensures Upcoming(Raw(Fetch(c, l, h)), i) == Upcoming(Raw(c), i + 1)
  {
    assert Raw(Fetch(c, l, h)) == Consumed(Raw(c));
    if c.wordsLeft > 0 {
      ConsumedInBlock(Raw(c), i);
    } else if c.lenLatched > 0 {
      ConsumedAtReload(Raw(c), i);
    }
  }

  /** Word fetches in k ticks. */
  function Fetches(onLowByte: bool, k: nat): nat {
    if onLowByte then (k + 1) / 2 else k / 2
  }

  /** The addresses of the next n words, two bytes each. */
  function UpcomingBytes(f: FetchState, n: nat): (a: seq<nat>)
    ensures |a| == 2 * n
    ensures forall i :: 0 <= i < n ==>
      a[2 * i] == Upcoming(f, i) && a[2 * i + 1] == (Upcoming(f, i) + 1) % U32
  {
    if n == 0 then []
    else UpcomingBytes(f, n - 1) + [Upcoming(f, n - 1), (Upcoming(f, n - 1) + 1) % U32]
  }

  /** g foretells what f foretells after its first n words. */
  ghost predicate Shifted(f: FetchState, g: FetchState, n: nat) {
    forall i: nat :: Upcoming(g, i) == Upcoming(f, n + i)
  }

  lemma ShiftedOnce(f: FetchState, g: FetchState, h: FetchState, n: nat)
    requires Shifted(f, g, n) && Shifted(g, h, 1)
    ensures Shifted(f, h, n + 1)
  {
    forall i: nat
      ensures Upcoming(h, i) == Upcoming(f, n + 1 + i)
    {
      assert Upcoming(g, 1 + i) == Upcoming(f, n + (1 + i));
    }
  }

  ghost predicate HasFetched(e: Exec, r: Exec, ch: nat, k: nat)
    requires ExecOk(e) && ExecOk(r) && ch < CHANNELS
  {
    var c, c' := e.core.channels[ch], r.core.channels[ch];
    && r.fetched == e.fetched + UpcomingBytes(Raw(c), Fetches(c.onLowByte, k))
    && Shifted(Raw(c), Raw(c'), Fetches(c.onLowByte, k))
    && c'.onLowByte == (c.onLowByte == (k % 2 == 0))
    && r.core.dmaCon == e.core.dmaCon
  }

  lemma FetchedOnce(e: Exec, d: Exec, ch: nat, read: Reader, k: nat)
    requires ExecOk(e) && ExecOk(d) && ch < CHANNELS && Enabled(e.core.dmaCon, ch)
    requires HasFetched(e, d, ch, k)
    ensures HasFetched(e, Advance(d, ch, read), ch, k + 1)
  {
    var f, n := Raw(e.core.channels[ch]), Fetches(e.core.channels[ch].onLowByte, k);
    FetchStep(d, ch, read);
    var g, h := Raw(d.core.channels[ch]), Raw(Advance(d, ch, read).core.channels[ch]);
    if d.core.channels[ch].onLowByte {
      WordAppended(f, g, h, n, d.fetched[|e.fetched|..]);
      assert Fetches(e.core.channels[ch].onLowByte, k + 1) == n + 1;
      assert d.fetched == e.fetched + d.fetched[|e.fetched|..];
    } else {
      assert Fetches(e.core.channels[ch].onLowByte, k + 1) == n;
      ShiftedTwice(f, g, h, n);
    }
  }

  lemma WordAppended(f: FetchState, g: FetchState, h: FetchState, n: nat, bytes: seq<nat>)
    requires Shifted(f, g, n) && Shifted(g, h, 1) && bytes == UpcomingBytes(f, n)
    ensures Shifted(f, h, n + 1)
    ensures bytes + [Upcoming(g, 0), (Upcoming(g, 0) + 1) % U32] == UpcomingBytes(f, n + 1)
  {
    ShiftedOnce(f, g, h, n);
    assert Upcoming(g, 0) == Upcoming(f, n + 0);
  }

  lemma ShiftedTwice(f: FetchState, g: FetchState, h: FetchState, n: nat)
    requires Shifted(f, g, n) && Shifted(g, h, 0)
    ensures Shifted(f, h, n)
  {
    forall i: nat
      ensures Upcoming(h, i) == Upcoming(f, n + i)
    {
      assert Upcoming(h, i) == Upcoming(g, 0 + i);
    }
  }

  /** However long the channel plays, and whatever the callback answers, the words it
      fetches are the upcoming ones, in order. */
  lemma {:induction false} FetchesUpcoming(e: Exec, ch: nat, read: Reader, k: nat)
    requires ExecOk(e) && ch < CHANNELS && Enabled(e.core.dmaCon, ch)
    ensures HasFetched(e, PaulaStream.Play(e, ch, read, k), ch, k)
  {
    if k > 0 {
      FetchesUpcoming(e, ch, read, k - 1);
      FetchedOnce(e, PaulaStream.Play(e, ch, read, k - 1), ch, read, k - 1);
    }
  }

  lemma FetchStep(d: Exec, ch: nat, read: Reader)
    requires ExecOk(d) && ch < CHANNELS && Enabled(d.core.dmaCon, ch)
    ensures var c, r := d.core.channels[ch], Advance(d, ch, read);
            var c' := r.core.channels[ch];
            && r.core.dmaCon == d.core.dmaCon && c'.onLowByte == !c.onLowByte
            && r.fetched == (if c.onLowByte then d.fetched + [Upcoming(Raw(c), 0), (Upcoming(Raw(c), 0) + 1) % U32]
                             else d.fetched)
            && Shifted(Raw(c), Raw(c'), if c.onLowByte then 1 else 0)
  {
    var c := d.core.channels[ch];
    if c.onLowByte {
      var n, a := |d.fetched|, FetchPtr(c);
      NextFetchIsUpcoming(c);
      var c' := Fetch(c, read(n, a), read(n + 1, (a + 1) % U32));
      forall i: nat
        ensures Upcoming(Raw(c'), i) == Upcoming(Raw(c), 1 + i)
      {
        FetchConsumes(c, read(n, a), read(n + 1, (a + 1) % U32), i);
      }
    }
  }

  // ---------------------------------------------------------------- what is asked for

  datatype Range = Range(address: nat, length: nat)

  function Min(a: nat, b: nat): nat {
    if a < b then a else b
  }

  /** The ranges paula_live_prefetch asks for on one channel. */
  function ChannelPlan(f: FetchState): seq<Range> {
    if !f.enabled then []
    else
      var bytes := if f.wordsLeft > WINDOW_WORDS then WINDOW_BYTES else 2 * f.wordsLeft;
      var loopBytes := if f.loopWords > WINDOW_WORDS then WINDOW_BYTES else 2 * f.loopWords;
      (if bytes > 0 then [Range(f.cursor, bytes)] else [])
      + (if bytes < WINDOW_BYTES && f.loopWords > 0
         then [Range(f.loop, Min(WINDOW_BYTES - bytes, loopBytes))] else [])
  }

  function PlanFrom(p: Core, ch: nat): seq<Range>
    requires CoreOk(p) && ch <= CHANNELS
    decreases CHANNELS - ch, p
  {
    if ch == CHANNELS then [] else ChannelPlan(FetchStateOf(p, ch)) + PlanFrom(p, ch + 1)
  }

  predicate InRange(a: nat, r: Range) {
    r.address <= a < r.address + r.length
  }

  ghost predicate Covered(a: nat, plan: seq<Range>) {
    exists r :: r in plan && InRange(a, r)
  }

  /** No address of the window runs past the 32-bit address space. */
  predicate NoWrap(f: FetchState) {
    && f.cursor + 2 * Min(f.wordsLeft, WINDOW_WORDS) <= U32
    && f.loop + 2 * Min(f.loopWords, WINDOW_WORDS) <= U32
  }

  lemma BlockCovered(f: FetchState, i: nat)
    requires f.enabled && NoWrap(f) && i < Min(f.wordsLeft, WINDOW_WORDS)
    ensures Upcoming(f, i) == f.cursor + 2 * i
    ensures Covered(f.cursor + 2 * i, ChannelPlan(f)) && Covered(f.cursor + 2 * i + 1, ChannelPlan(f))
    ensures (f.cursor + 2 * i + 1) % U32 == f.cursor + 2 * i + 1
  {
    var r := Range(f.cursor, if f.wordsLeft > WINDOW_WORDS then WINDOW_BYTES else 2 * f.wordsLeft);
    assert ChannelPlan(f)[0] == r && r in ChannelPlan(f);
    assert InRange(f.cursor + 2 * i, r) && InRange(f.cursor + 2 * i + 1, r);
  }

  lemma LoopCovered(f: FetchState, i: nat)
    requires f.enabled && NoWrap(f) && f.wordsLeft <= i < WINDOW_WORDS && f.loopWords > 0
    ensures var k := LoopIndex(i, f.wordsLeft, f.loopWords);
            && Upcoming(f, i) == f.loop + 2 * k
            && Covered(f.loop + 2 * k, ChannelPlan(f)) && Covered(f.loop + 2 * k + 1, ChannelPlan(f))
            && (f.loop + 2 * k + 1) % U32 == f.loop + 2 * k + 1
  {
    var k, plan := LoopIndex(i, f.wordsLeft, f.loopWords), ChannelPlan(f);
    var r := plan[|plan| - 1];
    assert r in plan && r.address == f.loop;
    assert InRange(f.loop + 2 * k, r) && InRange(f.loop + 2 * k + 1, r);
  }

  /** Both bytes of each of the next 512 words are in the channel's plan. */
  lemma PlanCoversWindow(f: FetchState, i: nat)
    requires f.enabled && NoWrap(f) && i < WINDOW_WORDS
    requires f.loopWords > 0 || f.wordsLeft >= WINDOW_WORDS
    ensures Covered(Upcoming(f, i), ChannelPlan(f))
    ensures Covered((Upcoming(f, i) + 1) % U32, ChannelPlan(f))
  {
    if i < f.wordsLeft {
      BlockCovered(f, i);
    } else {
      LoopCovered(f, i);
    }
  }

  /** The address is a byte of one of the next 512 words. */
  ghost predicate InWindow(f: FetchState, a: nat) {
    exists i :: 0 <= i < 512 && (a == Upcoming(f, i) || a == (Upcoming(f, i) + 1) % U32)
  }

  lemma BlockInWindow(f: FetchState, a: nat)
    requires f.enabled && NoWrap(f) && f.cursor <= a < f.cursor + 2 * Min(f.wordsLeft, WINDOW_WORDS)
    ensures InWindow(f, a)
  {
    var i := (a - f.cursor) / 2;
    BlockCovered(f, i);
    assert a == Upcoming(f, i) || a == (Upcoming(f, i) + 1) % U32;
  }

  lemma LoopInWindow(f: FetchState, a: nat)
    requires f.enabled && NoWrap(f) && f.wordsLeft < WINDOW_WORDS
    requires f.loop <= a < f.loop + 2 * Min(WINDOW_WORDS - f.wordsLeft, f.loopWords)
    ensures InWindow(f, a)
  {
    var k := (a - f.loop) / 2;
    Arith.Small(k, f.loopWords);
    LoopCovered(f, f.wordsLeft + k);
    assert a == Upcoming(f, f.wordsLeft + k) || a == (Upcoming(f, f.wordsLeft + k) + 1) % U32;
  }

  /** And nothing else is: what the plan asks for are bytes of the next 512 words. */
  lemma PlanIsTheWindow(f: FetchState, a: nat)
    requires f.enabled && NoWrap(f) && Covered(a, ChannelPlan(f))
    ensures InWindow(f, a)
  {
    if f.cursor <= a < f.cursor + 2 * Min(f.wordsLeft, WINDOW_WORDS) {
      BlockInWindow(f, a);
    } else {
      LoopInWindow(f, a);
    }
  }

  /** A channel whose DMA is off asks for nothing. */
  lemma NoPlanWhenOff(p: Core, ch: nat)
    requires CoreOk(p) && ch < CHANNELS && !(ch in p.dmaCon && 9 in p.dmaCon)
    ensures ChannelPlan(FetchStateOf(p, ch)) == []
  {
  }

  ghost predicate WindowCovered(p: Core, ch: nat)
    requires CoreOk(p) && ch < CHANNELS
  {
    forall i :: 0 <= i < WINDOW_WORDS ==> WordCovered(p, ch, i)
  }

  /** Both bytes of the channel's i-th next word are in its plan. */
  ghost predicate WordCovered(p: Core, ch: nat, i: nat)
    requires CoreOk(p) && ch < CHANNELS
  {
    && Covered(Upcoming(Raw(p.channels[ch]), i), ChannelPlan(FetchStateOf(p, ch)))
    && Covered((Upcoming(Raw(p.channels[ch]), i) + 1) % U32, ChannelPlan(FetchStateOf(p, ch)))
  }

  lemma NothingAskedFor(p: Core, ch: nat)
    requires PaulaInvariant.Regular(p) && ch < CHANNELS && p.channels[ch].lenLatched == 0
    ensures ChannelPlan(FetchStateOf(p, ch)) == []
  {
    assert p.channels[ch].wordsLeft == 0;
  }

  /** Exactly: on every core the program can reach, the sweep covers both bytes of each of the
      next 512 words of an enabled channel if and only if a length has been programmed. */
  lemma WindowCoveredIff(p: Core, ch: nat)
    requires PaulaInvariant.Regular(p) && ch < CHANNELS && Enabled(p.dmaCon, ch)
    requires NoWrap(FetchStateOf(p, ch))
    ensures WindowCovered(p, ch) <==> p.channels[ch].lenLatched > 0
  {
    if p.channels[ch].lenLatched > 0 {
      forall i | 0 <= i < WINDOW_WORDS
        ensures WordCovered(p, ch, i)
      {
        ReportedStateForetells(p, ch, i);
        PlanCoversWindow(FetchStateOf(p, ch), i);
      }
    } else {
      NothingAskedFor(p, ch);
      assert !WordCovered(p, ch, 0);
    }
  }

  /** The word that sets master and channel 0 enable. */
  const ENABLE_FIRST: Word := {15, 9, 0}

  /** A core that fails: reset, then DMA switched on before any length is written. */
  lemma UnprogrammedCore(p0: Core)
    requires CoreOk(p0)
    ensures var p := WriteRegister(ResetCore(p0), 0xDFF096, ENABLE_FIRST);
            && PaulaInvariant.Regular(p) && Enabled(p.dmaCon, 0) && NoWrap(FetchStateOf(p, 0))
            && p.channels[0].lenLatched == 0 && !WindowCovered(p, 0)
  {
    var p := WriteRegister(ResetCore(p0), 0xDFF096, ENABLE_FIRST);
    PaulaInvariant.ResetRegular(p0);
    PaulaInvariant.WriteKeepsRegular(ResetCore(p0), 0xDFF096, ENABLE_FIRST);
    assert 0xDFF096 % 0x1000 == DMACON;
    assert p.dmaCon == {9, 0} && p.channels[0] == Primed(RESET_CHANNEL);
    WindowCoveredIff(p, 0);
  }

  // ---------------------------------------------------------------- in the cache

  /** Prefetching every range of a plan, in order. */
  function Planned(s: PageCache.State, plan: seq<Range>): (s': PageCache.State)
    requires PageCache.Shaped(s)
    ensures PageCache.Shaped(s')
    decreases |plan|
  {
    if plan == [] then s
    else Planned(Mirror.Prefetched(s, plan[0].address, plan[0].length), plan[1..])
  }

  lemma {:induction false} PlanContains(p: Core, from: nat, ch: nat, r: Range)
    requires CoreOk(p) && from <= ch < CHANNELS && r in ChannelPlan(FetchStateOf(p, ch))
    ensures r in PlanFrom(p, from)
    decreases ch - from
  {
    if from < ch {
      PlanContains(p, from + 1, ch, r);
    }
  }

  lemma UpcomingByteCovered(p: Core, ch: nat, words: nat, b: nat)
    requires PaulaInvariant.Regular(p) && ch < CHANNELS && Enabled(p.dmaCon, ch)
    requires NoWrap(FetchStateOf(p, ch)) && p.channels[ch].lenLatched > 0
    requires words <= WINDOW_WORDS && b < 2 * words
    ensures Covered(UpcomingBytes(Raw(p.channels[ch]), words)[b], ChannelPlan(FetchStateOf(p, ch)))
  {
    assert b == 2 * (b / 2) + b % 2;
    WindowCoveredIff(p, ch);
    assert WordCovered(p, ch, b / 2);
  }

  /** What a channel fetches in any number of its ticks, up to 512 words, is in its plan. */
  lemma FetchedByteCovered(p: Core, ch: nat, read: Reader, k: nat, b: nat)
    requires PaulaInvariant.Regular(p) && ch < CHANNELS && Enabled(p.dmaCon, ch)
    requires NoWrap(FetchStateOf(p, ch)) && p.channels[ch].lenLatched > 0
    requires Fetches(p.channels[ch].onLowByte, k) <= WINDOW_WORDS
    requires b < |PaulaStream.Play(Exec(p, [], 0), ch, read, k).fetched|
    ensures Covered(PaulaStream.Play(Exec(p, [], 0), ch, read, k).fetched[b], ChannelPlan(FetchStateOf(p, ch)))
  {
    FetchesUpcoming(Exec(p, [], 0), ch, read, k);
    assert HasFetched(Exec(p, [], 0), PaulaStream.Play(Exec(p, [], 0), ch, read, k), ch, k);
    UpcomingByteCovered(p, ch, Fetches(p.channels[ch].onLowByte, k), b);
  }
}
