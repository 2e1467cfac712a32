/** Whole runs over the interleaved cache: frames decided by the miss flag, with bus writes,
    page arrivals and sweeps between them, refine the renderer that reads RAM. */
module CachedRuns {
  import opened Words
  import opened PaulaCore
  import opened Transaction
  import opened PageCache
  import PageCacheSafety
  import opened Recovery
  import opened CacheFrames

  /** The live mirror above its cache. */
  datatype World = World(live: Live, cache: State)

  /** Between two frames the cache moves in any way: bus writes, worker steps, sweeps. A frame
      is the cache's run from the moment the miss flag is cleared. */
  datatype Happening =
    | CacheMoves(actions: seq<Action>)
    | FrameRead(accesses: seq<Action>)
    | Control(event: Event)

  ghost predicate WorldOk(w: World) {
    LiveOk(w.live) && PageCacheSafety.Safe(w.cache)
  }

  /** Frames are read through the cache without a bus write in progress. */
  ghost predicate Happens(w: World, h: Happening)
    requires WorldOk(w)
  {
    match h
    case CacheMoves(_) => true
    case FrameRead(accesses) => FrameThroughCache(w.live.core, w.cache, accesses)
    case Control(e) => !e.FrameDue?
  }

  function AfterReads(s: State, accesses: seq<Action>): (s': State)
    requires InRange(s)
    ensures InRange(s')
  {
    PageCacheSafety.Run(Step(s, BeginFrame), accesses)
  }

  /** paula_live_render of one frame: render with the cache's answers, then let the flag commit
      it or put everything back. */
  function Rendered(v: Live, s: State, accesses: seq<Action>): (r: Live)
    requires LiveOk(v) && InRange(s)
    ensures LiveOk(r)
  {
    var s1 := AfterReads(s, accesses);
    var f := RenderFrame(v.core, Replies(s1.history, |s.history|));
    if s1.renderMiss then RolledBack(Counted(v)) else CommittedFrame(Counted(v), f)
  }

  ghost function After(w: World, h: Happening): (r: World)
    requires WorldOk(w)
    ensures WorldOk(r)
  {
    match h
    case CacheMoves(actions) =>
      PageCacheSafety.RunKeepsSafe(w.cache, actions);
      w.(cache := PageCacheSafety.Run(w.cache, actions))
    case FrameRead(accesses) =>
      PageCacheSafety.StepKeepsSafe(w.cache, BeginFrame);
      PageCacheSafety.RunKeepsSafe(Step(w.cache, BeginFrame), accesses);
      World(Rendered(w.live, w.cache, accesses), AfterReads(w.cache, accesses))
    case Control(e) => w.(live := LiveStep(w.live, e))
  }

  ghost predicate AllHappen(w: World, hs: seq<Happening>)
    requires WorldOk(w)
    decreases |hs|
  {
    hs == [] || (Happens(w, hs[0]) && AllHappen(After(w, hs[0]), hs[1..]))
  }

  /** What an ideal renderer does for a happening: nothing while the cache moves or for a frame
      with the miss flag set, else the frame over the RAM it began with, or the event. */
  function IdealEvent(w: World, h: Happening): Option<Event>
    requires InRange(w.cache)
  {
    match h
    case CacheMoves(_) => None
    case FrameRead(accesses) =>
      var s1 := AfterReads(w.cache, accesses);
      if s1.renderMiss then None
      else Some(FrameDue(RamOf(w.cache), HitsOf(s1.history, |w.cache.history|)))
    case Control(e) => Some(e)
  }

  ghost function IdealEvents(w: World, hs: seq<Happening>): seq<Event>
    requires WorldOk(w)
    decreases |hs|
  {
    if hs == [] then []
    else
      var e, rest := IdealEvent(w, hs[0]), IdealEvents(After(w, hs[0]), hs[1..]);
      if e.None? then rest else [e.value] + rest
  }

  /** The views after each of those. */
  ghost function Views(w: World, hs: seq<Happening>): seq<Ideal>
    requires WorldOk(w)
    decreases |hs|
  {
    if hs == [] then []
    else
      var w' := After(w, hs[0]);
      if IdealEvent(w, hs[0]).None? then Views(w', hs[1..]) else [View(w'.live)] + Views(w', hs[1..])
  }

  /** The flag commits or rolls back as the speculative frame of the cache's hits would. */
  lemma RenderedIsSpeculative(v: Live, s: State, accesses: seq<Action>)
    requires LiveOk(v) && FrameThroughCache(v.core, s, accesses)
    ensures Rendered(v, s, accesses)
            == LiveFrame(v, RamOf(s), HitsOf(AfterReads(s, accesses).history, |s.history|))
  {
    FrameIsSpeculative(v.core, s, accesses);
  }

  lemma HappeningRefines(w: World, h: Happening)
    requires WorldOk(w) && Happens(w, h)
    ensures var e := IdealEvent(w, h);
            View(After(w, h).live) == if e.None? then View(w.live) else IdealStep(View(w.live), e.value)
  {
    match h
    case CacheMoves(_) =>
    case FrameRead(accesses) =>
      RenderedIsSpeculative(w.live, w.cache, accesses);
      FlagDecidesFrame(w.live, w.cache, accesses);
    case Control(e) => StepRefines(w.live, e);
  }

  /** The live mirror above its cache refines the renderer that reads RAM: over every run of
      frames through the cache, bus writes, page arrivals and sweeps between them, register
      writes, mixer changes and resyncs, the frames the flag commits and the other events give
      exactly the ideal run, each frame over the RAM it began with. */
  lemma {:induction false} CachedRunRefinesIdeal(w: World, hs: seq<Happening>)
    requires WorldOk(w) && AllHappen(w, hs)
    ensures Views(w, hs) == IdealRun(View(w.live), IdealEvents(w, hs))
    decreases |hs|
  {
    if hs != [] {
      var w' := After(w, hs[0]);
      HappeningRefines(w, hs[0]);
      CachedRunRefinesIdeal(w', hs[1..]);
      var events := IdealEvents(w, hs);
      if IdealEvent(w, hs[0]).Some? {
        assert events[1..] == IdealEvents(w', hs[1..]);
      }
    }
  }
}
