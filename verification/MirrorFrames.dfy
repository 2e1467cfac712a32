/** A frame read from the cache while neither worker nor bus moves: what its reads find, what
    they leave behind, and that it is one of the interleaved frames. */
module MirrorFrames {
  import opened Words
  import opened PaulaCore
  import opened PaulaTimeline
  import opened Transaction
  import opened PageCache
  import opened PageCacheDrain
  import opened Recovery
  import opened CacheFrames
  import CachedRuns
  import PageCacheSafety
  import Mirror

  /** The reads of a frame, one after another. */
  function ReadsDone(s: State, addresses: seq<nat>): (r: State)
    requires Shaped(s)
    ensures Shaped(r)
    decreases |addresses|
  {
    if addresses == [] then s
    else Mirror.ReadDone(ReadsDone(s, addresses[..|addresses| - 1]), addresses[|addresses| - 1])
  }

  /** The pages ready in s. */
  function MirrorHits(s: State): Hits {
    (i: nat, a: nat) => a < CHIP_LIMIT && PageOf(a) < |s.meta| && s.meta[PageOf(a)].st == Ready
  }

  /** What the mirror answers in s. */
  function Answers(shadow: seq<Byte>, meta: seq<Meta>): Reader {
    (i: nat, a: nat) =>
      if a < CHIP_LIMIT && PageOf(a) < |meta| && meta[PageOf(a)].st == Ready && a < |shadow| then shadow[a] else 0
  }

  /** Reading asks for pages, but makes none ready and changes no byte. */
  ghost predicate SameAnswers(s: State, t: State)
    requires Shaped(s) && Shaped(t)
  {
    && t.shadow == s.shadow && t.ram == s.ram
    && forall p :: 0 <= p < PAGE_COUNT ==> (t.meta[p].st == Ready <==> s.meta[p].st == Ready)
  }

  lemma ReadKeepsAnswers(s: State, a: nat)
    requires Shaped(s)
    ensures SameAnswers(s, Mirror.ReadDone(s, a))
  {
  }

  lemma {:induction false} ReadsKeepAnswers(s: State, addresses: seq<nat>)
    requires Shaped(s)
    ensures SameAnswers(s, ReadsDone(s, addresses))
    decreases |addresses|
  {
    if addresses != [] {
      var before := addresses[..|addresses| - 1];
      ReadsKeepAnswers(s, before);
      ReadKeepsAnswers(ReadsDone(s, before), addresses[|addresses| - 1]);
    }
  }

  /** Each read is answered as it would have been at the start. */
  lemma SameAnswer(s: State, t: State, i: nat, a: nat)
    requires Shaped(s) && Shaped(t) && SameAnswers(s, t)
    ensures Mirror.ReadValue(t, a) == Answers(s.shadow, s.meta)(i, a)
  {
  }

  /** With no invalidation pending those answers are chip RAM on ready pages and zero elsewhere. */
  lemma AnswersAreCached(s: State, i: nat, a: nat)
    requires PageCacheSafety.Safe(s) && s.writer == Quiet
    ensures Answers(s.shadow, s.meta)(i, a) == CacheReader(RamOf(s), MirrorHits(s))(i, a)
  {
    if a < CHIP_LIMIT && s.meta[PageOf(a)].st == Ready {
      var p := PageOf(a);
      assert p * PAGE_SIZE <= a < p * PAGE_SIZE + PAGE_SIZE;
      assert PageCacheSafety.Mirrors(s.writer, s.shadow, s.ram, p, PAGE_SIZE);
    }
  }

  lemma FrameOfAnswers(p: Core, s: State)
    requires CoreOk(p) && PageCacheSafety.Safe(s) && s.writer == Quiet
    ensures RenderFrame(p, Answers(s.shadow, s.meta)) == RenderFrame(p, CacheReader(RamOf(s), MirrorHits(s)))
  {
    var r, c := Answers(s.shadow, s.meta), CacheReader(RamOf(s), MirrorHits(s));
    var fetched := RenderFrame(p, r).exec.fetched;
    forall i | 0 <= i < |fetched|
      ensures r(i, fetched[i]) == c(i, fetched[i])
    {
      AnswersAreCached(s, i, fetched[i]);
    }
    FrameDependsOnItsReads(p, r, c);
  }

  // ---------------------------------------------------------------- the flag

  lemma OneMoreMiss(fetched: seq<nat>, a: nat, hit: Hits)
    ensures Missed(fetched + [a], hit) <==> Missed(fetched, hit) || (a < CHIP_LIMIT && !hit(|fetched|, a))
  {
    var longer := fetched + [a];
    if Missed(fetched, hit) {
      var i :| 0 <= i < |fetched| && fetched[i] < CHIP_LIMIT && !hit(i, fetched[i]);
      assert longer[i] == fetched[i];
    }
    assert longer[|fetched|] == a;
  }

  /** The reads set the miss flag exactly when one of them found its page not ready. */
  lemma {:induction false} ReadsSetFlag(s: State, addresses: seq<nat>)
    requires Shaped(s) && !s.renderMiss
    ensures ReadsDone(s, addresses).renderMiss <==> Missed(addresses, MirrorHits(s))
    decreases |addresses|
  {
    if addresses != [] {
      var before, a := addresses[..|addresses| - 1], addresses[|addresses| - 1];
      ReadsSetFlag(s, before);
      ReadsKeepAnswers(s, before);
      OneMoreMiss(before, a, MirrorHits(s));
      assert before + [a] == addresses;
    }
  }

  // ---------------------------------------------------------------- as a run

  /** The reads as a run of the cache, nobody else moving. */
  lemma {:induction false} ReadsDoneRuns(s: State, addresses: seq<nat>) returns (actions: seq<Action>)
    requires Mirror.AtRest(s)
    ensures RendererAlone(actions) && NoNewFrame(actions)
    ensures PageCacheSafety.Run(s, actions) == ReadsDone(s, addresses) && Mirror.AtRest(ReadsDone(s, addresses))
    decreases |addresses|
  {
    if addresses == [] {
      actions := [];
    } else {
      var last := |addresses| - 1;
      actions := ReadsDoneRuns(s, addresses[..last]);
      var s1 := ReadsDone(s, addresses[..last]);
      var more := Mirror.ReadRuns(s1, addresses[last]);
      OneReadLogged(s1, addresses[last]);
      RunSplits(s, actions, more);
      actions := actions + more;
    }
  }

  /** Each read adds one record. */
  lemma {:induction false} ReadsLogged(s: State, addresses: seq<nat>)
    requires Mirror.AtRest(s)
    ensures Mirror.AtRest(ReadsDone(s, addresses))
    ensures |ReadsDone(s, addresses).history| == |s.history| + |addresses|
    decreases |addresses|
  {
    if addresses != [] {
      var last := |addresses| - 1;
      ReadsLogged(s, addresses[..last]);
      OneReadLogged(ReadsDone(s, addresses[..last]), addresses[last]);
    }
  }

  ghost predicate RecordIs(s: State, r: ReadRecord, k: nat, a: nat) {
    AddressOf(r) == a && (a < CHIP_LIMIT ==> (r.Hit? <==> MirrorHits(s)(k, a)))
  }

  /** The last record is of a page as ready as it was in s. */
  lemma LastRecorded(s: State, s1: State, a: nat, k: nat)
    requires Mirror.AtRest(s1) && Shaped(s) && SameAnswers(s, s1)
    ensures var h := Mirror.ReadDone(s1, a).history;
            |h| == |s1.history| + 1 && h[..|s1.history|] == s1.history && RecordIs(s, h[|s1.history|], k, a)
  {
    OneReadLogged(s1, a);
  }

  /** What the k-th read recorded. */
  lemma {:induction false} ReadsRecorded(s: State, addresses: seq<nat>, k: nat)
    requires Mirror.AtRest(s) && k < |addresses|
    ensures |ReadsDone(s, addresses).history| == |s.history| + |addresses|
    ensures RecordIs(s, ReadsDone(s, addresses).history[|s.history| + k], k, addresses[k])
    decreases |addresses|
  {
    var last := |addresses| - 1;
    var before := addresses[..last];
    ReadsLogged(s, before);
    ReadsKeepAnswers(s, before);
    LastRecorded(s, ReadsDone(s, before), addresses[last], k);
    if k < last {
      ReadsRecorded(s, before, k);
      var h, h1 := ReadsDone(s, addresses).history, ReadsDone(s, before).history;
      assert h[..|h1|][|s.history| + k] == h1[|s.history| + k];
    }
  }

  lemma RecordedAddresses(s: State, addresses: seq<nat>)
    requires Mirror.AtRest(s)
    ensures |s.history| <= |ReadsDone(s, addresses).history|
    ensures Addresses(ReadsDone(s, addresses).history, |s.history|) == addresses
  {
    var h, n := ReadsDone(s, addresses).history, |s.history|;
    forall k | 0 <= k < |addresses|
      ensures n + k < |h| && AddressOf(h[n + k]) == addresses[k]
    {
      ReadsRecorded(s, addresses, k);
    }
    ReadsLogged(s, addresses);
  }

  /** Hits that agree on what the frame reads give the same frame and the same decision. */
  lemma AgreeingHits(v: Live, ram: Ram, hit: Hits, other: Hits)
    requires LiveOk(v)
    requires var fetched := RenderFrame(v.core, CacheReader(ram, hit)).exec.fetched;
             forall i :: 0 <= i < |fetched| && fetched[i] < CHIP_LIMIT ==> hit(i, fetched[i]) == other(i, fetched[i])
    ensures LiveFrame(v, ram, hit) == LiveFrame(v, ram, other)
  {
    FrameDependsOnItsReads(v.core, CacheReader(ram, hit), CacheReader(ram, other));
    var fetched := RenderFrame(v.core, CacheReader(ram, hit)).exec.fetched;
    assert Missed(fetched, hit) == Missed(fetched, other);
  }

  function FrameReads(p: Core, s: State): seq<nat>
    requires CoreOk(p) && Shaped(s)
  {
    RenderFrame(p, CacheReader(RamOf(s), MirrorHits(s))).exec.fetched
  }

  lemma ReadsAttempt(p: Core, s: State) returns (accesses: seq<Action>)
    requires CoreOk(p) && PageCacheSafety.Safe(s) && Mirror.AtRest(s)
    ensures FrameThroughCache(p, s, accesses)
    ensures CachedRuns.AfterReads(s, accesses) == ReadsDone(s.(renderMiss := false), FrameReads(p, s))
  {
    var s1, fetched := s.(renderMiss := false), FrameReads(p, s);
    accesses := ReadsDoneRuns(s1, fetched);
    RecordedAddresses(s1, fetched);
    var h, n := ReadsDone(s1, fetched).history, |s.history|;
    FrameTimelineIgnoresSamples(p, CacheReader(RamOf(s), MirrorHits(s)), Replies(h, n));
    assert PageCache.Step(s, BeginFrame) == s1;
  }

  lemma RecordedHitsAgree(s: State, addresses: seq<nat>, i: nat)
    requires Mirror.AtRest(s) && i < |addresses| && addresses[i] < CHIP_LIMIT
    ensures HitsOf(ReadsDone(s, addresses).history, |s.history|)(i, addresses[i]) == MirrorHits(s)(i, addresses[i])
  {
    ReadsRecorded(s, addresses, i);
  }

  /** A frame rendered while nobody else moves is an interleaved frame, and decides as one. */
  lemma RenderRuns(v: Live, s: State) returns (accesses: seq<Action>)
    requires LiveOk(v) && PageCacheSafety.Safe(s) && Mirror.AtRest(s)
    ensures FrameThroughCache(v.core, s, accesses)
    ensures CachedRuns.AfterReads(s, accesses) == ReadsDone(s.(renderMiss := false), FrameReads(v.core, s))
    ensures CachedRuns.Rendered(v, s, accesses) == LiveFrame(v, RamOf(s), MirrorHits(s))
  {
    accesses := ReadsAttempt(v.core, s);
    var s1, fetched := s.(renderMiss := false), FrameReads(v.core, s);
    var h, n := ReadsDone(s1, fetched).history, |s.history|;
    forall i | 0 <= i < |fetched| && fetched[i] < CHIP_LIMIT
      ensures HitsOf(h, n)(i, fetched[i]) == MirrorHits(s)(i, fetched[i])
    {
      RecordedHitsAgree(s1, fetched, i);
    }
    AgreeingHits(v, RamOf(s), MirrorHits(s), HitsOf(h, n));
    CachedRuns.RenderedIsSpeculative(v, s, accesses);
  }
}
