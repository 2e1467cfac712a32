/** The asynchronous chip RAM page cache as a machine of interleaved atomic steps.

    Three agents share the page words, the shadow bytes and the request queue:
    the renderer (CPU1) asks for pages and reads shadow bytes, the worker (CPU0) loads
    and publishes pages, and the bus writer changes chip RAM and invalidates.
    Each step below is one atomic access of the C code; a local test on a value just
    loaded is part of the step that loaded it. */
module PageCache {
  import opened Words
  import Ring

  datatype PageState = Missing | Queued | Loading | Ready

  /** One page word: the invalidation generation and, in the low two bits, the state. */
  datatype Meta = Meta(gen: nat, st: PageState)

  /** What the renderer saw at the instant it found a page ready. The last two fields
      record chip RAM and the writer at that same instant; no step reads them. */
  datatype Check = Check(published: Byte, ram: Byte, writePending: bool)

  datatype ReadRecord =
    | OutOfRange(address: nat)
    | Miss(address: nat)
    | Hit(address: nat, result: Byte, check: Check)

  /** Where request_page returns to. */
  datatype Caller =
    | FromMiss(address: nat)
    | FromHit(address: nat, check: Check)
    | FromPrefetch(next: nat, last: nat)

  datatype Renderer =
    | Idle
    | CheckPage(address: nat)
    | LoadMeta(page: nat, caller: Caller)
    | TryQueue(page: nat, seen: Meta, caller: Caller)
    | StoreSlot(page: nat, caller: Caller)
    | AdvanceHead(page: nat, caller: Caller)
    | LoadShadow(address: nat, check: Check)

  datatype Worker =
    | Resting
    | TakeSlot
    | LoadWord(page: nat)
    | Claim(page: nat, seen: Meta)
    | Skip(page: nat)
    | ReadBus(page: nat, i: nat, gen: nat)
    | StoreShadow(page: nat, i: nat, gen: nat, value: Byte)
    | ReleaseSlot(page: nat, gen: nat)
    | Reserve(page: nat, gen: nat)
    | Publish(page: nat, gen: nat)
    | Unreserve(page: nat, seen: Meta)
    | Discard(page: nat, seen: Meta)

  datatype Writer =
    | Quiet
    | LoadForInvalidate(page: nat, last: nat)
    | Invalidate(page: nat, last: nat, seen: Meta)
    | Decrement(page: nat, last: nat)

  datatype State = State(
    ram: seq<Byte>, shadow: seq<Byte>, meta: seq<Meta>,
    requests: seq<nat>, head: nat, tail: nat,
    pagesReady: int, renderMiss: bool, history: seq<ReadRecord>,
    renderer: Renderer, worker: Worker, writer: Writer)

  datatype Action =
    | BeginFrame
    | StartRead(address: nat)
    | StartPrefetch(address: nat, length: nat)
    | RendererStep
    | WorkerStep
    | BusWrite(address: nat, bytes: seq<Byte>)
    | WriterStep

  // ---------------------------------------------------------------- well-formed states

  ghost predicate Shaped(s: State) {
    && |s.ram| == |s.shadow| == CHIP_LIMIT
    && |s.meta| == PAGE_COUNT
    && |s.requests| == Ring.CAPACITY
    && (forall i :: 0 <= i < |s.requests| ==> s.requests[i] < PAGE_COUNT)
    && s.head < U32 && s.tail < U32
  }

  ghost predicate CallerInRange(c: Caller) {
    match c
    case FromMiss(a) => a < CHIP_LIMIT
    case FromHit(a, _) => a < CHIP_LIMIT
    case FromPrefetch(next, last) => last < PAGE_COUNT
  }

  ghost predicate RendererInRange(r: Renderer) {
    match r
    case Idle => true
    case CheckPage(a) => a < CHIP_LIMIT
    case LoadMeta(p, c) => p < PAGE_COUNT && CallerInRange(c)
    case TryQueue(p, seen, c) => p < PAGE_COUNT && seen.st == Missing && CallerInRange(c)
    case StoreSlot(p, c) => p < PAGE_COUNT && CallerInRange(c)
    case AdvanceHead(p, c) => p < PAGE_COUNT && CallerInRange(c)
    case LoadShadow(a, _) => a < CHIP_LIMIT
  }

  ghost predicate WorkerInRange(w: Worker) {
    && (!w.Resting? && !w.TakeSlot? ==> w.page < PAGE_COUNT)
    && (w.ReadBus? || w.StoreShadow? ==> w.i < PAGE_SIZE)
  }

  ghost predicate WriterInRange(b: Writer) {
    !b.Quiet? ==> b.page <= b.last < PAGE_COUNT
  }

  ghost predicate InRange(s: State) {
    Shaped(s) && RendererInRange(s.renderer) && WorkerInRange(s.worker) && WriterInRange(s.writer)
  }

  /** The state paula_mirror_enable leaves behind, over any RAM and any stale shadow. */
  ghost predicate Initial(s: State) {
    && Shaped(s)
    && (forall p :: 0 <= p < PAGE_COUNT ==> s.meta[p] == Meta(0, Missing))
    && s.head == 0 && s.tail == 0 && s.pagesReady == 0
    && s.history == []
    && s.renderer == Idle && s.worker == Resting && s.writer == Quiet
  }

  // ---------------------------------------------------------------- steps

  /** A landed bus write whose invalidation has not yet handled page p. */
  predicate WritePending(b: Writer, p: nat) {
    match b
    case Quiet => false
    case LoadForInvalidate(page, last) => page <= p <= last
    case Invalidate(page, last, _) => page <= p <= last
    case Decrement(page, last) => page < p <= last
  }

  /** Where request_page's caller goes on. */
  function Resumed(c: Caller): Renderer {
    match c
    case FromMiss(_) => Idle
    case FromHit(a, check) => LoadShadow(a, check)
    case FromPrefetch(next, last) =>
      if next <= last then LoadMeta(next, FromPrefetch(next + 1, last)) else Idle
  }

  /** A miss has been answered (with zero) once its request_page returns. */
  function Logged(history: seq<ReadRecord>, c: Caller): seq<ReadRecord> {
    if c.FromMiss? then history + [Miss(c.address)] else history
  }

  function Return(s: State, c: Caller): State {
    s.(renderer := Resumed(c), history := Logged(s.history, c))
  }

  function RendererNext(s: State): (s': State)
    requires InRange(s)
    ensures InRange(s')
  {
    match s.renderer
    case Idle => s
    case CheckPage(a) =>
      var p := PageOf(a);
      if s.meta[p].st != Ready then
        s.(renderMiss := true, renderer := LoadMeta(p, FromMiss(a)))
      else
        var check := Check(s.shadow[a], s.ram[a], WritePending(s.writer, p));
        if a % PAGE_SIZE >= PAGE_SIZE - 64 && p + 1 < PAGE_COUNT then
          s.(renderer := LoadMeta(p + 1, FromHit(a, check)))
        else
          s.(renderer := LoadShadow(a, check))
    case LoadMeta(p, c) =>
      if s.meta[p].st != Missing then Return(s, c) else s.(renderer := TryQueue(p, s.meta[p], c))
    case TryQueue(p, seen, c) =>
      if s.meta[p] == seen then
        s.(meta := s.meta[p := seen.(st := Queued)], renderer := StoreSlot(p, c))
      else if s.meta[p].st != Missing then
        Return(s, c)
      else
        s.(renderer := TryQueue(p, s.meta[p], c))
    case StoreSlot(p, c) =>
      s.(requests := s.requests[s.head % Ring.CAPACITY := p], renderer := AdvanceHead(p, c))
    case AdvanceHead(p, c) =>
      Return(s.(head := Ring.Next(s.head)), c)
    case LoadShadow(a, check) =>
      s.(renderer := Idle, history := s.history + [Hit(a, s.shadow[a], check)])
  }

  function WorkerNext(s: State): (s': State)
    requires InRange(s)
    ensures InRange(s')
  {
    match s.worker
    case Resting => if s.tail != s.head then s.(worker := TakeSlot) else s
    case TakeSlot => s.(worker := LoadWord(s.requests[s.tail % Ring.CAPACITY]))
    case LoadWord(p) =>
      s.(worker := if s.meta[p].st != Queued then Skip(p) else Claim(p, s.meta[p]))
    case Claim(p, seen) =>
      if s.meta[p] == seen then
        s.(meta := s.meta[p := seen.(st := Loading)], worker := ReadBus(p, 0, seen.gen))
      else
        s.(worker := if s.meta[p].st != Queued then Skip(p) else Claim(p, s.meta[p]))
    case Skip(p) =>
      s.(tail := Ring.Next(s.tail), worker := Resting)
    case ReadBus(p, i, gen) =>
      s.(worker := StoreShadow(p, i, gen, s.ram[p * PAGE_SIZE + i]))
    case StoreShadow(p, i, gen, value) =>
      s.(shadow := s.shadow[p * PAGE_SIZE + i := value],
         worker := if i + 1 < PAGE_SIZE then ReadBus(p, i + 1, gen) else ReleaseSlot(p, gen))
    case ReleaseSlot(p, gen) =>
      s.(tail := Ring.Next(s.tail), worker := Reserve(p, gen))
    case Reserve(p, gen) =>
      s.(pagesReady := s.pagesReady + 1, worker := Publish(p, gen))
    case Publish(p, gen) =>
      if s.meta[p] == Meta(gen, Loading) then
        s.(meta := s.meta[p := Meta(gen, Ready)], worker := Resting)
      else
        s.(worker := Unreserve(p, s.meta[p]))
    case Unreserve(p, seen) =>
      s.(pagesReady := s.pagesReady - 1,
         worker := if seen.st != Loading then Resting else Discard(p, seen))
    case Discard(p, seen) =>
      if s.meta[p] == seen then
        s.(meta := s.meta[p := seen.(st := Missing)], worker := Resting)
      else
        s.(worker := if s.meta[p].st != Loading then Resting else Discard(p, s.meta[p]))
  }

  function NextInvalidate(page: nat, last: nat): Writer {
    if page < last then LoadForInvalidate(page + 1, last) else Quiet
  }

  function Invalidated(m: Meta): Meta {
    Meta(m.gen + 1, if m.st == Ready then Missing else m.st)
  }

  function WriterNext(s: State): (s': State)
    requires InRange(s)
    ensures InRange(s')
  {
    match s.writer
    case Quiet => s
    case LoadForInvalidate(p, last) =>
      s.(writer := if s.meta[p].st == Missing then NextInvalidate(p, last)
                   else Invalidate(p, last, s.meta[p]))
    case Invalidate(p, last, seen) =>
      if s.meta[p] == seen then
        s.(meta := s.meta[p := Invalidated(seen)],
           writer := if seen.st == Ready then Decrement(p, last) else NextInvalidate(p, last))
      else
        s.(writer := if s.meta[p].st == Missing then NextInvalidate(p, last)
                     else Invalidate(p, last, s.meta[p]))
    case Decrement(p, last) =>
      s.(pagesReady := s.pagesReady - 1, writer := NextInvalidate(p, last))
  }

  /** Chip RAM after a bus write; bytes beyond the 2 MiB limit go elsewhere. */
  function Written(ram: seq<Byte>, address: nat, bytes: seq<Byte>): (r: seq<Byte>)
    ensures |r| == |ram|
    ensures forall i :: 0 <= i < |ram| ==>
      r[i] == if address <= i < address + |bytes| then bytes[i - address] else ram[i]
  {
    seq(|ram|, i requires 0 <= i < |ram| =>
      if address <= i < address + |bytes| then bytes[i - address] else ram[i])
  }

  function LastPage(address: nat, length: nat): nat
    requires length > 0
  {
    var last := PageOf(address + length - 1);
    if last >= PAGE_COUNT then PAGE_COUNT - 1 else last
  }

  /** One atomic step of any agent. An action its agent cannot take now changes nothing,
      so every sequence of actions is a run and every interleaving is a sequence. */
  function Step(s: State, a: Action): (s': State)
    requires InRange(s)
    ensures InRange(s')
  {
    match a
    case BeginFrame => if s.renderer == Idle then s.(renderMiss := false) else s
    case StartRead(address) =>
      if s.renderer != Idle then s
      else if address >= CHIP_LIMIT then s.(history := s.history + [OutOfRange(address)])
      else s.(renderer := CheckPage(address))
    case StartPrefetch(address, length) =>
      if s.renderer != Idle || address >= CHIP_LIMIT || length == 0 then s
      else Return(s, FromPrefetch(PageOf(address), LastPage(address, length)))
    case RendererStep => RendererNext(s)
    case WorkerStep => WorkerNext(s)
    case BusWrite(address, bytes) =>
      if s.writer != Quiet || address >= CHIP_LIMIT || |bytes| == 0 then s
      else s.(ram := Written(s.ram, address, bytes),
              writer := LoadForInvalidate(PageOf(address), LastPage(address, |bytes|)))
    case WriterStep => WriterNext(s)
  }
}
