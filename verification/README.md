# Verified model of the Paula mirror

This project models, in Dafny, the audio mirror of the PiStorm Classic port of Emu68 and a few
kernels around it, and proves what their code promises. `dafny verify dfyconfig.toml` checks it.

- **Page cache** (`PageCache*`, `Mirror`, `Ring`): chip RAM is mirrored in 256-byte pages by three
  agents without locks. `PageCache` has one atomic step for each load, store and compare-and-swap
  of renderer, worker and bus writer; any sequence of actions is a run. `PageCacheSafety` proves
  the invariant, `PageCacheTheorems` and `PageCacheDrain` what follows from it. `Mirror.ChipMirror`
  is the code over arrays; each method is shown to be one uninterrupted run of the machine.
- **Paula core** (`PaulaCore`, `Paula`, `PaulaStream`, `PaulaBlocks`, `PaulaTimeline`, `PaulaMix`,
  `RegisterValues`): registers, DMA, phase and mix as functions of the state, the class that updates
  its fields, the closed form of the stream, which sample block is played over whole runs, what
  reaches the two sides of the output, and what the register words mean.
- **Live mirror** (`Transaction`, `LivePaula`, `Output`, `PaulaInvariant`, `CacheFrames`, `CachedRuns`,
  `MirrorFrames`, `Recovery*`): frames rendered speculatively through the cache and rolled back on a
  miss, as a refinement of a renderer that reads RAM; recovery after one drain of the request queue.
- **Lookahead** (`Lookahead*`, `Sweep*`, `Cadence`): the sweep that asks for the coming samples, in
  every interleaving with the worker, how far it reaches, and that it comes often enough.
- **Register events** (`Registers`, `Capture*`, `EventRing`, `Rebuild`): the event ring with its try-lock, the
  shadow of the latest registers, and the resync that rebuilds the core from it. Again an
  interleaved machine, its invariant, the theorems, and the class over arrays.
- **Replay** (`ReplayClock`, `Player*`, `Replay`): the drift-free frame clock, and the audio loop as
  a machine of single steps over the event ring, with bus and counter moving between them.
- **Kernels**: `MaiRatio` (clock divider search), `Checksum` (end-around-carry ROM checksum),
  `Lru`/`LruRuns` (JIT lookup cache), `Bus`/`BusMemory` (unaligned bus accesses).

Conventions: memory is sequentially consistent and page generations do not wrap; a 16-bit word is
the set of its one bits; phase, gains and output are exact reals; 32-bit and 64-bit counters wrap
where the code relies on it. Counters written `captures`, `drops`, `now` and a clock's `tick` are the
unwrapped values, of which the code's fields are the remainders.

Where a promise needed a condition:

- One drain is not always enough to recover: a load that a bus write made stale keeps its page
  out of the queue (`PageCacheDrain.StaleLoadDefeatsOneDrain`). `DrainMakesReady` says exactly
  which pages a drain makes ready, `RecoveryExact.RetryCommitsIff` exactly when the retry commits,
  and `Recovery.OneDrainRecovery` that with no stale load in flight one attempt and drain suffice.
- For the same reason a lookahead sweep does not always ask for a page it covers:
  `Sweep.SweepAsksIff` says exactly which pages every interleaving of it asks for.
- The lookahead needs a programmed length (`Lookahead.WindowCoveredIff`, failing core
  `Lookahead.UnprogrammedCore`) and, to last 32 frames, period 3 (`LookaheadFrames.SweepFitsIff`,
  failing core `LookaheadReach.FastCoreReadsUnasked`).
- Resync speaks of writes that took the lock. `CaptureFate.NotedIffLockFree` says exactly which
  writes reach the shadow, `CountersDifferIff` exactly which drops ask for a resync, and
  `CaptureTheorems.RefusedWriteIsForgotten` shows a refused write that no later resync recovers.
- A rendered frame can miss one event (`PlayerTheorems.SlipHappens`): one the producer had stamped,
  had not published when the loop last looked, and has published since (`NothingSlipsIff`). The
  producer must have sat on it for the latency (`PromptProducerMissesNothing`).
- A drop counted before the loop is entered does not show in the drop counter, only in the ring's
  fill (`CaptureTheorems.LossIsNoticed`).
- The lookup cache needs two ways (`Lru.VictimInRangeIff`), and invalidating an entry point frees one
  address only (`LruRuns.InvalidatedArmIsGoneIff`).

## Model

| member | source | states |
|---|---|---|
| `PageCacheTheorems.CacheCoherence` | source/src/raspi/paula/paula_mirror.c:269-383 | over every interleaving of renderer, worker and bus writer, each byte of a ready page equals chip RAM unless a landed write to that page still has its invalidation to come |
| `PageCacheTheorems.ReadsLinearize` | source/src/raspi/paula/paula_mirror.c:229-252 | every read that found its page ready returned the byte published at the instant of that check, even if the page was invalidated before the load, and that byte was chip RAM's unless a write was pending |
| `PageCacheLinear.HitsLinearize` | source/src/raspi/paula/paula_mirror.c:229-252 | every hit of every run has an instant, before its load, at which its page was found ready, and it returned exactly the byte published at that instant, which was chip RAM's unless a write was pending |
| `PageCacheTheorems.RequestQueueOwnership` | source/src/raspi/paula/paula_mirror.c:208-227 | at most one live slot a page; a page has one exactly while queued or loading, outside two named in-flight windows; never more than 8192 pending; the worker's skip branch is unreachable |
| `PageCacheTheorems.QueueIsFirstInFirstOut` | source/src/raspi/paula/paula_mirror.c:220-224 | only a publication of the head adds to the live queue and only the release of the oldest slot removes; no live slot is overwritten, across the wrap of the 32-bit counters |
| `PageCacheTheorems.ReadyCountExact` | source/src/raspi/paula/paula_mirror.c:358-374 | pages_ready is the number of ready pages plus the worker's reservation plus a decrement still to come; it never underflows and is exact at rest |
| `PageCacheTheorems.StaleLoadNeverPublished` | source/src/raspi/paula/paula_mirror.c:360-383 | a load whose page was invalidated midway stays unpublished along every run and ends with the page missing |
| `PageCacheSafety.WriterKeepsLoad` | source/src/raspi/paula/paula_mirror.c:282-288 | invalidating the page being loaded moves its generation past the worker's, so a half-loaded page with an unchanged generation still mirrors RAM |
| `PageCacheSafety.WorkerKeepsLoad` | source/src/raspi/paula/paula_mirror.c:347-350 | each byte the worker stores extends the mirrored part of its page as long as the generation is unchanged |
| `PageCacheSafety.SlotPublished` | source/src/raspi/paula/paula_mirror.c:208-224 | storing a slot overwrites no live one, because a page that is being published leaves a slot free, and moving the head appends exactly that page |
| `PageCacheSafety.RunKeepsSafe` | source/src/raspi/paula/paula_mirror.c:208-383 | the whole inductive invariant holds after every run of atomic steps |
| `PageCacheSafety.InitialSafe` | source/src/raspi/paula/paula_mirror.c:81-96 | and in every state that enabling the mirror leaves, whatever bytes the shadow array still holds |
| `PageCacheDrain.DrainMakesReady` | source/src/raspi/paula/paula_mirror.c:321-383 | draining the queue makes a page ready if and only if it was asked for and is not held by a stale load |
| `PageCacheDrain.AttemptAsksForEveryPage` | source/src/raspi/paula/paula_mirror.c:229-252 | after an attempt in any interleaving with the worker, every page it read is queued, loading or ready, if no stale load was in flight when it began |
| `PageCacheDrain.ReadsAnswerFromRam` | source/src/raspi/paula/paula_mirror.c:229-252 | while no write interferes, a read answers with chip RAM or was of a page not ready at the start: a ready page never misses |
| `PageCacheDrain.MissFlagExact` | source/src/raspi/paula/paula_mirror.c:54-56 | at the end of a frame the miss flag is set exactly when some read of the frame got a synthetic zero |
| `PageCacheDrain.StaleLoadDefeatsOneDrain` | source/src/raspi/paula/paula_mirror.c:358-383 | a concrete run in which an attempt meets a stale load in flight, asks for nothing, and no drain makes its page ready |
| `Ring.StoreKeepsLive` | source/src/raspi/paula/paula_mirror.c:220-222 | writing the slot at the head changes no live slot, whenever fewer than 8192 are pending |
| `Ring.PublishAppends` | source/src/raspi/paula/paula_mirror.c:220-224 | moving the head past a stored slot appends it, across the 32-bit wrap |
| `Ring.PopRemovesFirst` | source/src/raspi/paula/paula_mirror.c:157-167 | moving the tail removes the oldest live slot, across the 32-bit wrap |
| `Mirror.RequestRuns` | source/src/raspi/paula/paula_mirror.c:208-227 | request_page undisturbed is a run of the interleaved machine with the result of the sequential specification |
| `Mirror.ReadRuns` | source/src/raspi/paula/paula_mirror.c:229-252 | the same for a sample read, hit or miss, with the warm-up of the next page |
| `Mirror.PrefetchRuns` | source/src/raspi/paula/paula_mirror.c:254-267 | the same for a prefetch of any length |
| `Mirror.ServiceRuns` | source/src/raspi/paula/paula_mirror.c:321-383 | the same for one service call with its 256 bus reads |
| `Mirror.BusWriteRuns` | source/src/raspi/paula/paula_mirror.c:269-296 | the same for a bus write and the invalidation of all its pages |
| `Mirror.ServicePublishes` | source/src/raspi/paula/paula_mirror.c:321-367 | an undisturbed service call makes the oldest requested page ready with chip RAM's bytes and removes it from the queue |
| `Mirror.RequestsCover` | source/src/raspi/paula/paula_mirror.c:254-267 | a prefetch leaves every page it covers queued, loading or ready |
| `Mirror.PrefetchAsks` | source/src/raspi/paula/paula_mirror.c:254-267 | exactly: it asks for the missing pages that hold a byte of the range inside chip RAM and for no other |
| `Mirror.ReadAsks` | source/src/raspi/paula/paula_mirror.c:229-252 | exactly: a read asks for its own page if that is not ready, and for the next when a ready one is read within 64 bytes of its end |
| `Mirror.InvalidatesExactly` | source/src/raspi/paula/paula_mirror.c:269-296 | exactly: pages that hold a byte of the range and are not missing get the next generation, ready ones become missing, no other page changes |
| `Mirror.ChipMirror.constructor` | source/src/raspi/paula/paula_mirror.c:81-96 | a mirror with every page missing satisfies the invariant over any RAM |
| `Mirror.ChipMirror.BeginRender` | source/src/raspi/paula/paula_mirror.c:55-55 | clears the miss flag only |
| `Mirror.ChipMirror.RequestPage` | source/src/raspi/paula/paula_mirror.c:208-227 | updates the page word, the slot array and the head exactly as the specification, and nothing for a page that is not missing or out of range |
| `Mirror.ChipMirror.ReadByte` | source/src/raspi/paula/paula_mirror.c:229-252 | returns the shadow byte of a ready page and zero otherwise, with the exact new state, keeping the invariant |
| `Mirror.ChipMirror.Prefetch` | source/src/raspi/paula/paula_mirror.c:254-267 | clips to chip RAM and requests each page once, keeping the invariant |
| `Mirror.ChipMirror.Invalidate` | source/src/raspi/paula/paula_mirror.c:269-296 | masks the address to 24 bits and moves every covered page's generation, taking ready pages out of the count |
| `Mirror.ChipMirror.BusWriteByte` | source/src/raspi/paula/paula_mirror.c:269-296 | a landed byte followed by its invalidation keeps the invariant |
| `Mirror.ChipMirror.Service` | source/src/raspi/paula/paula_mirror.c:321-383 | copies the oldest requested page and publishes it, keeping the invariant |
| `PaulaStream.PrimesOnRisingEdge` | source/src/raspi/paula/paula.cpp:56-84 | a channel wants a restart if and only if its DMA is off; a register write re-primes it exactly on a rising edge of its enable and leaves every other cursor alone |
| `PaulaStream.FrameKeepsRestart` | source/src/raspi/paula/paula.cpp:226-303 | rendering keeps that equivalence for all channels |
| `PaulaStream.ResetIsRestartExact` | source/src/raspi/paula/paula.cpp:39-49 | and a reset establishes it |
| `PaulaInvariant.EveryCoreIsRegular` | source/src/raspi/paula/paula_live.cpp:164-233 | over every run of frames, rollbacks, register writes, mixer changes and resyncs: restarts are wanted exactly while DMA is off, phases hold less than one tick, and a channel without a length has no words left |
| `PaulaInvariant.LoopKeepsRegular` | source/src/raspi/paula/paula.cpp:143-152 | a loop rewrite keeps that too |
| `PaulaStream.StreamClosedForm` | source/src/raspi/paula/paula.cpp:176-224 | from any point of a running block, tick k plays the byte the closed form names, with one interrupt a block and the output one tick behind |
| `PaulaStream.PrimedStream` | source/src/raspi/paula/paula.cpp:176-224 | after priming at L with W words, tick k loads the byte at L + (k-1) mod 2W, the output lags one tick, and floor((k-1) / 2W) interrupts have fired |
| `PaulaStream.LoopWaitsForBlockEnd` | source/src/raspi/paula/paula.cpp:143-152 | a loop set mid-block changes neither bytes nor interrupts before the current block ends, and the next tick plays the new block's first byte |
| `PaulaBlocks.RewriteWaitsForBlockEnd` | source/src/raspi/paula/paula.cpp:106-126 | location and length rewritten by any register writes, loop settings and other events spread over a running block, while the channel stays on: up to the end bytes and interrupts are those of the old block, and the next tick plays the first byte of whatever is latched then, with one interrupt |
| `PaulaBlocks.EveryBlockIsPlayed` | source/src/raspi/paula/paula.cpp:51-224 | from reset, over every run of frames, ticks, register writes, loop settings, mixer changes and resets: an enabled channel stands in the block latched when it was switched on or when the block before it ended, and the interrupts raised are exactly the blocks that ended, over all four channels |
| `PaulaTimeline.FrameTimelineIgnoresSamples` | source/src/raspi/paula/paula.cpp:226-303 | the addresses a frame reads, its interrupts and its register state do not depend on the sample bytes |
| `PaulaTimeline.FrameDependsOnItsReads` | source/src/raspi/paula/paula.cpp:226-303 | two callbacks that agree on what the frame reads give the same frame |
| `Paula.Paula.constructor` | source/src/raspi/paula/paula.cpp:35-37 | the object starts from the reset registers with the default mixer settings |
| `Paula.Paula.Reset` | source/src/raspi/paula/paula.cpp:39-49 | wipes channels and registers and keeps the mixer settings |
| `Paula.Paula.GateChannel` | source/src/raspi/paula/paula.cpp:68-83 | primes a channel that just came on and leaves a running one alone |
| `Paula.Paula.WriteDmaCon` | source/src/raspi/paula/paula.cpp:56-85 | set or clear by bit 15, then all four channels gated by the new word |
| `Paula.Paula.WriteRegister16` | source/src/raspi/paula/paula.cpp:51-141 | the whole new state for every register address |
| `Paula.Paula.SetLoop` | source/src/raspi/paula/paula.cpp:143-152 | replaces only the latched pair; an out-of-range channel changes nothing |
| `RegisterValues.AudioRegisterValues` | source/src/raspi/paula/paula.cpp:106-141 | location high and low, length, period and volume of each channel take the written number in their place and nothing else changes; length 0 is 65536, period 0 is 1, volume has seven bits |
| `RegisterValues.LoopValues` | source/src/raspi/paula/paula.cpp:143-152 | a loop setting latches location and length of its channel only, 0 words standing for 65536, and ignores a channel out of range |
| `RegisterValues.ControlRegisters` | source/src/raspi/paula/paula.cpp:51-104 | DMACON, INTENA, INTREQ and ADKCON at their addresses |
| `RegisterValues.SetClrBits` | source/src/raspi/paula/paula.cpp:56-66 | bit 15 says whether the other one bits are set or cleared; the rest stay |
| `RegisterValues.NumberBits` | source/src/raspi/paula/paula.cpp:106-126 | a word is the set of the one bits of its number |
| `RegisterValues.IrqWord` | source/src/raspi/paula/paula.cpp:196-206 | a channel's interrupt request is 0x80 shifted left by the channel |
| `RegisterValues.DmaGates` | source/src/raspi/paula/paula.cpp:176-191 | a channel plays only with its own bit and the master bit 9; otherwise it reads nothing, raises nothing and is silent |
| `RegisterValues.SignedIs` | source/src/raspi/paula/paula.cpp:209-216 | a sample byte is a signed number in two's complement |
| `RegisterValues.MasterOff` | source/src/raspi/paula/paula.cpp:176-191 | with the master off a whole frame reads no memory and raises no interrupt |
| `Paula.Paula.FetchNext` | source/src/raspi/paula/paula.cpp:193-218 | reload with interrupt at a block end, then the two reads in order, pointers modulo 2^32 |
| `Paula.Paula.AdvanceOneSourceSample` | source/src/raspi/paula/paula.cpp:176-224 | one tick: silence when disabled, a word fetch or the second byte |
| `Paula.Paula.ServiceChannel` | source/src/raspi/paula/paula.cpp:226-264 | phase step, whole ticks, gain glide |
| `Paula.Paula.Render` | source/src/raspi/paula/paula.cpp:266-303 | one stereo frame equals the specification's state and the sum of the four channel parts |
| `PaulaMix.FramePanning` | source/src/raspi/paula/paula.cpp:285-298 | left plus right is what the four channels are worth; at full separation the left is channels 0 and 3 and the right channels 1 and 2; without separation the sides are equal |
| `PaulaMix.HardPan` | source/src/raspi/paula/paula.cpp:25-31 | hard pan: channels 0 and 3 add their voice times mix gain to the left and nothing to the right, channels 1 and 2 the other way round |
| `PaulaMix.MutedIsSilent` | source/src/raspi/paula/paula.cpp:259-263 | a muted channel adds nothing |
| `PaulaMix.HeardIsPlayed` | source/src/raspi/paula/paula.cpp:236-263 | a channel sounds as the frame leaves it: its samples and phase after the frame's ticks, at its gain after the glide |
| `PaulaMix.LevelIs` | source/src/raspi/paula/paula.cpp:11-22 | a steady sample sounds as sample/128 times volume/64, volumes above 64 as 64 |
| `PaulaMix.ResampleBetween` | source/src/raspi/paula/paula.cpp:242-251 | the current sample, or with interpolation the point between current and next at the phase |
| `PaulaMix.FramesRamp` | source/src/raspi/paula/paula.cpp:279-295 | panning and muting move in straight lines to their setting, 1/96 a frame, over any number of frames |
| `PaulaMix.FramesGlide` | source/src/raspi/paula/paula.cpp:253-257 | each frame leaves 0.9896373989 of the distance between a channel's gain and its volume, over any number of frames |
| `PaulaMix.ShrunkIs` | source/src/raspi/paula/paula.cpp:253-257 | that is, the distance times 0.9896373989 to the power n after n frames |
| `PaulaMix.SecondOfTicks` | source/src/raspi/paula/paula.cpp:229-240 | 48000 frames play 3546895 / period samples |
| `Paula.Paula.FetchState` | source/src/raspi/paula/paula.cpp:305-320 | the reported cursor, with the latched pair when a restart or reload is next |
| `Lookahead.FetchesUpcoming` | source/src/raspi/paula/paula.cpp:193-218 | whatever the samples, the words a channel fetches in any number of ticks are the foretold ones in order |
| `Lookahead.ReportedStateForetells` | source/src/raspi/paula/paula.cpp:305-320 | the reported fetch state foretells the same words as the raw registers |
| `Lookahead.PlanCoversWindow` | source/src/raspi/paula/paula_live.cpp:146-162 | both bytes of each of the next 512 words lie in the asked ranges, through the end of a one-shot and any number of loop wraps |
| `Lookahead.PlanIsTheWindow` | source/src/raspi/paula/paula_live.cpp:146-162 | and what the plan asks for are bytes of those 512 words and nothing else |
| `Lookahead.NoPlanWhenOff` | source/src/raspi/paula/paula_live.cpp:150-151 | a channel without its bit or the master bit of DMACON asks for nothing |
| `Lookahead.WindowCoveredIff` | source/src/raspi/paula/paula_live.cpp:146-162 | on every core the program can reach, the sweep covers both bytes of all 512 next words of an enabled channel if and only if a length has been programmed |
| `Lookahead.UnprogrammedCore` | source/src/raspi/paula/paula_live.cpp:155-155 | a core that fails: reset, then DMA switched on before any length is written |
| `Sweep.SweepLeavesWanted` | source/src/raspi/paula/paula_mirror.c:254-267 | however the worker interleaves, a page the sweep covers is asked for or ready when the sweep ends, unless a stale load held it when it began |
| `Sweep.SweepAsksIff` | source/src/raspi/paula/paula_mirror.c:208-227 | exactly: every interleaving of the sweep asks for a covered page if and only if no stale load holds it when the sweep begins |
| `Sweep.SweptPageStaysWanted` | source/src/raspi/paula/paula_mirror.c:208-383 | and it stays asked for or ready as long as no bus write comes |
| `Sweep.LookaheadCoversStream` | source/src/raspi/paula/paula_live.cpp:146-162 | of the next 512 words a channel will fetch, every chip RAM byte lies in a page asked for or ready, at the end of the sweep and for as long after it as no bus write comes, in every interleaving with the worker |
| `LookaheadFrames.FramesTracked` | source/src/raspi/paula/paula.cpp:266-303 | over any number of rendered frames of all four channels, each cursor has advanced by its own ticks, each fetched byte is a foretold one, and phase plus ticks equals the frames' phase steps |
| `LookaheadFrames.FramesKeepPhases` | source/src/raspi/paula/paula.cpp:236-240 | after every frame each phase is again below one tick |
| `LookaheadFrames.SweepFitsIff` | source/src/raspi/paula/paula_live.cpp:169-175 | the 32 frames between two sweeps stay within 512 words of a channel if and only if its period is 3 or more |
| `LookaheadFrames.SweepOutlastsCountdown` | source/src/raspi/paula/paula_live.cpp:146-175 | in each of the 32 frames between two sweeps, with all four channels playing and the worker interleaved anywhere, every chip RAM address read lies in a page asked for or ready at the moment of the read, unless a stale load held it when the sweep began |
| `Cadence.SweepCadence` | source/src/raspi/paula/paula_live.cpp:171-175 | from a sweep on, one is due again after every 32nd frame and after no other, as long as no frame begins to wait |
| `Cadence.CountdownStep` | source/src/raspi/paula/paula_live.cpp:171-197 | a frame that begins a wait makes a sweep due at once, a resync too; writes and mixer changes leave the countdown; a frame waits exactly if it misses |
| `Cadence.SweepsAreOftenEnough` | source/src/raspi/paula/paula_live.cpp:164-233 | over any number of frames, committed or rolled back, each preceded by a sweep exactly when the countdown says so, with the worker interleaved anywhere and no bus or register write: every chip RAM address any frame reads lies in a page asked for or ready throughout its reads |
| `Cadence.PassesHappen` | source/src/raspi/paula/paula_live.cpp:164-233 | from every steady world at rest such runs of any length exist |
| `LookaheadReach.FramesReach` | source/src/raspi/paula/paula.cpp:226-303 | over any number of frames every word the phases account for is read in one of them |
| `LookaheadReach.FastChannelOutruns` | source/src/raspi/paula/paula.cpp:226-303 | at period 1 or 2 the 32 frames read the word after the window |
| `LookaheadReach.FastCoreReadsUnasked` | source/src/raspi/paula/paula_live.cpp:146-175 | a core at period 2 of which one of the 32 frames reads an address the sweep did not cover |
| `SweepFrames.DrainedSweepNeverMisses` | source/src/raspi/paula/paula_live.cpp:146-230 | if the worker drains the queue after a sweep and neither a bus write nor a register write comes, none of the next 32 frames misses and each is the frame of a renderer reading RAM |
| `SweepFrames.SweepHappens` | source/src/raspi/paula/paula_live.cpp:146-230 | from every safe state at rest such a sweep, drain and 32 frames exist, and no read of any of them misses |
| `Transaction.CommittedFrameIsIdeal` | source/src/raspi/paula/paula_live.cpp:209-230 | a frame without a miss is the ideal renderer's: core, output before the gate, gain step and interrupt count |
| `Transaction.RolledBackFrameIsInvisible` | source/src/raspi/paula/paula_live.cpp:191-207 | a frame with a miss changes nothing an ideal renderer has |
| `Transaction.LiveRefinesIdeal` | source/src/raspi/paula/paula_live.cpp:164-233 | for any mix of misses, register writes, mixer changes and resyncs, deleting rolled-back frames leaves exactly the ideal run, state by state |
| `Transaction.GateFades` | source/src/raspi/paula/paula_live.cpp:191-207 | n rolled-back frames in a row lower the output gate by n/96, never below silence, and leave everything an ideal renderer has as it was |
| `Transaction.GateStaysInRange` | source/src/raspi/paula/paula_live.cpp:200-228 | the output gate stays between silence and full |
| `Output.FramesFade` | source/src/raspi/paula/paula_live.cpp:191-207 | n rolled-back frames take the gate down n/96 and leave the last valid output; from the 96th on both sides are silent |
| `Output.CommittedOutput` | source/src/raspi/paula/paula_live.cpp:209-230 | a committed frame puts out its mix times the master gain, which moves at most 1/96 toward its target; the gate opens one step and the frame's interrupts are counted |
| `Output.FramesOpen` | source/src/raspi/paula/paula_live.cpp:217-228 | n committed frames open the gate and move the master gain in straight lines, full range in 96 frames |
| `Output.MasterSilences` | source/src/raspi/paula/paula_live.cpp:217-230 | with the master volume at zero the output is silent from the 96th committed frame on |
| `Output.ResyncSilences` | source/src/raspi/paula/paula_live.cpp:55-61 | a resync is silent at once, opens the gate, ends a wait and makes a sweep due; the master gain survives |
| `Output.RequestMeans` | source/src/raspi/paula/paula_live.cpp:123-141 | a request packed from settings takes effect as meant: master and separation in percent, interpolation, and each mute bit on its own channel; nothing else changes |
| `Output.ValidIff` | source/include/paula_probe.h:45-60 | a 32-bit word is a valid request exactly when it is packed from settings in range, and any other changes nothing |
| `CacheFrames.FrameIsSpeculative` | source/src/raspi/paula/paula_live.cpp:183-191 | over the interleaved cache, with no bus write in progress during the frame, a frame is the speculative frame of some hits and misses over RAM, and the miss flag is set exactly when one of its reads missed |
| `CacheFrames.FlagDecidesFrame` | source/src/raspi/paula/paula_live.cpp:183-231 | what the flag commits is the frame of a renderer reading RAM directly, and what it rolls back changes nothing of one |
| `CachedRuns.CachedRunRefinesIdeal` | source/src/raspi/paula/paula_live.cpp:164-233 | over every run of frames read through the interleaved cache, bus writes, page arrivals and sweeps between them, register writes, mixer changes and resyncs, the frames the miss flag commits and the other events are exactly the run of a renderer reading RAM, each frame over the RAM it began with |
| `MirrorFrames.RenderRuns` | source/src/raspi/paula/paula_live.cpp:183-231 | a frame rendered while worker and bus stand still is one of those interleaved frames, with the same decision |
| `LivePaula.LivePaula.constructor` | source/src/raspi/paula/paula_live.cpp:38-53 | hard-panned nearest-sample core, gains at one, nothing pending |
| `LivePaula.LivePaula.Reset` | source/src/raspi/paula/paula_live.cpp:55-61 | the core and the cache wait are wiped; gains survive |
| `LivePaula.LivePaula.Write` | source/src/raspi/paula/paula_live.cpp:85-88 | a register write reaches the core |
| `LivePaula.LivePaula.MixerApply` | source/src/raspi/paula/paula_live.cpp:123-141 | a valid new request sets the targets and mutes; an invalid or repeated one changes nothing |
| `LivePaula.LivePaula.Prefetch` | source/src/raspi/paula/paula_live.cpp:146-162 | one sweep asks the cache for exactly the plan of the four channels |
| `LivePaula.LivePaula.Speculate` | source/src/raspi/paula/paula_live.cpp:183-231 | the attempt on the shared core reads through the mirror, and the miss flag its reads leave either commits the whole frame or puts back every field |
| `LivePaula.LivePaula.MakeReads` | source/src/raspi/paula/paula_live.cpp:26-29 | the frame's reads made through the mirror, in order, each getting the answer the core was given |
| `LivePaula.LivePaula.Render` | source/src/raspi/paula/paula_live.cpp:164-233 | the mixer request, the sweep performed on the mirror when due, the transaction over what the mirror answers after it, and the last valid output times the gate; the mirror is left as the sweep and the frame's reads leave it |
| `Recovery.DrainServesAttempt` | source/src/raspi/paula/paula_mirror.c:229-252 | after one attempt and one drain, every chip RAM page the attempt read is ready |
| `Recovery.OneDrainRecovery` | source/src/raspi/paula/paula_live.cpp:183-207 | with no stale load in flight and no bus write, the retry after one attempt and one drain has no miss and is the ideal frame |
| `RecoveryExact.RetryCommitsIff` | source/src/raspi/paula/paula_live.cpp:183-230 | every retry after a drain, however the worker interleaves, has no miss if and only if, when the drain began, every page its frame needs had been asked for and none was held by a stale load |
| `RecoveryExact.LoneRetryCommitsIff` | source/src/raspi/paula/paula_live.cpp:183-230 | and so for each single retry during which the worker stands still |
| `Recovery.RecoveryHappens` | source/src/raspi/paula/paula_live.cpp:183-230 | from any safe state at rest such an attempt, drain and retry exist |
| `CaptureTheorems.RingNeverOverflows` | source/src/raspi/paula/paula_mirror.c:98-206 | in every interleaving at most 8192 events are pending, the slot being written is not live, and the two sides never hold the lock together |
| `CaptureTheorems.QueueMoves` | source/src/raspi/paula/paula_mirror.c:98-206 | a step appends one event, removes the oldest, skips everything or leaves the queue |
| `CaptureTheorems.Conservation` | source/src/raspi/paula/paula_mirror.c:98-206 | departed events followed by pending ones are the captured sequence in order; every offered write is captured, dropped or still in hand |
| `CaptureTheorems.RestingCountersAgree` | source/src/raspi/paula/paula_mirror.c:107-138 | between captures offered = captured + dropped on the wrapping 32-bit counters |
| `CaptureTheorems.ShadowIsHistory` | source/src/raspi/paula/paula_mirror.c:21-43 | the shadow is the effect on a reset core of every lock-acquiring write in order, whether or not the ring had room |
| `CaptureTheorems.ResyncInvariant` | source/src/raspi/paula/paula_mirror.c:98-206 | with no full-ring drop since the last resync, applying the queued events to the consumer's core latches exactly the shadow |
| `CaptureTheorems.ResyncReestablishes` | source/src/raspi/hdmi_audio_poc.c:603-652 | a successful resync re-establishes this from any state, in any interleaving with the producer |
| `CaptureTheorems.LossIsNoticed` | source/src/raspi/hdmi_audio_poc.c:689-711 | a full-ring drop after the loop's entry or the last resync makes the drop counters differ, unless 2^32 drops came between; one before the entry, which the counter no longer shows, leaves the ring full at the entry, so that its fill asks for the resync |
| `CaptureTheorems.RefusedWriteIsForgotten` | source/src/raspi/paula/paula_mirror.c:107-112 | a concrete run in which a write refused by the snapshot's lock reaches neither ring nor shadow and no resync will follow |
| `CaptureFate.NotedIffLockFree` | source/src/raspi/paula/paula_mirror.c:107-121 | exactly: in every interleaving from the offer of a write to the producer's return, the write reaches the shadow if and only if the lock was free when it was offered |
| `CaptureFate.CountersDifferIff` | source/src/raspi/hdmi_audio_poc.c:689-711 | exactly: at rest the remembered drop counter differs from the live one if and only if a drop, refused or full, was counted after the loop's entry and the last snapshot that read the counter, below 2^32 of them |
| `CaptureStamps.StampsFollowTheCounter` | source/src/raspi/paula/paula_mirror.c:122-137 | over every run the captured events are in stamp order and none is from the future, because each is stamped under the lock |
| `CaptureSafety.RunKeepsSafe` | source/src/raspi/paula/paula_mirror.c:98-206 | the whole inductive invariant of the ring holds after every run |
| `CaptureSafety.SoundKeepsLatches` | source/src/raspi/paula/paula.cpp:226-303 | frames, committed or rolled back, and mixer changes latch nothing |
| `Registers.ShadowTracksApply` | source/src/raspi/hdmi_audio_poc.c:545-598 | a bus event moves the consumer's latched registers exactly as its capture moved the shadow |
| `RegisterValues.ByteOnBothLanes` | source/src/raspi/paula/paula_mirror.c:114-119 | a byte written at either address of a register is the word with that byte twice |
| `RegisterValues.ShadowRegister` | source/src/raspi/paula/paula_mirror.c:21-43 | the shadow keeps the last word of each channel register and that it was seen, on either byte lane, and nothing of the unused slots |
| `RegisterValues.ShadowControl` | source/src/raspi/paula/paula_mirror.c:21-36 | and the control words bit by bit as the chip takes them |
| `Registers.RestoreExact` | source/src/raspi/hdmi_audio_poc.c:603-645 | the rebuild latches exactly the registers a shadow stands for, whatever the core held |
| `Rebuild.RebuiltPlays` | source/src/raspi/hdmi_audio_poc.c:610-645 | after it every channel enabled in the shadow stands at the start of the block it latches, any other waits to be switched on, the interrupt requests are the shadow's, and the mixer is untouched |
| `EventRing.OfferRuns` | source/src/raspi/paula/paula_mirror.c:98-146 | a capture undisturbed is a run of the machine with the sequential result: refused, dropped when full, or appended |
| `EventRing.ConsumeRuns` | source/src/raspi/paula/paula_mirror.c:148-167 | the same for peek, apply and pop |
| `EventRing.ResyncRuns` | source/src/raspi/paula/paula_mirror.c:185-206 | the same for snapshot and rebuild |
| `EventRing.EventRing.constructor` | source/src/raspi/paula/paula_mirror.c:81-96 | an empty ring over a reset core satisfies the invariant |
| `EventRing.EventRing.EnterLoop` | source/src/raspi/hdmi_audio_poc.c:689-689 | entering the loop remembers the drop counter as it stands |
| `EventRing.EventRing.BeginCapture` | source/src/raspi/paula/paula_mirror.c:106-112 | the try-lock of a capture: refused and counted while the consumer holds the lock, else let in |
| `EventRing.EventRing.FinishCapture` | source/src/raspi/paula/paula_mirror.c:114-146 | shadow updated, event stamped and appended or counted as dropped, lock given back |
| `EventRing.EventRing.BeginSnapshot` | source/src/raspi/paula/paula_mirror.c:189-191 | the try-lock of a snapshot, which fails while a capture is inside |
| `EventRing.EventRing.FinishSnapshot` | source/src/raspi/hdmi_audio_poc.c:603-652 | shadow copied, queue skipped, lock given back, core rebuilt |
| `EventRing.EventRing.Capture` | source/src/raspi/paula/paula_mirror.c:98-146 | filters by address, and drops no write that could change a register; then refused, or noted and appended or dropped, keeping the invariant wherever the consumer stands |
| `Registers.DroppedWritesNothing` | source/src/raspi/paula/paula_mirror.c:73-105 | of the writes to the chip registers the filter drops only those that change nothing, for every core and value |
| `Registers.OfferedIff` | source/src/raspi/paula/paula_mirror.c:73-105 | it lets in the audio block 0xA0 to 0xDB and DMACON, INTENA, INTREQ and ADKCON on either byte lane |
| `EventRing.EventRing.Peek` | source/src/raspi/paula/paula_mirror.c:148-155 | the oldest pending event if there is one |
| `EventRing.EventRing.ApplyAndPop` | source/src/raspi/paula/paula_mirror.c:157-167 | applies and removes the oldest event, keeping the invariant |
| `EventRing.EventRing.Resync` | source/src/raspi/hdmi_audio_poc.c:603-652 | nothing while the lock is taken; otherwise shadow copied, queue skipped, core rebuilt |
| `EventRing.EventRing.Rebuild` | source/src/raspi/hdmi_audio_poc.c:610-645 | reset, seen registers channel by channel, interrupt and modulation registers, DMA last |
| `ReplayClock.DriftFree` | source/src/raspi/paula/paula_replay.h:23-31 | after n frames tick * 48000 + remainder has grown by exactly n * frequency, for every frequency and n |
| `ReplayClock.TickIsExactQuotient` | source/src/raspi/paula/paula_replay.h:14-31 | from a start the tick is the start plus floor(n * frequency / 48000) |
| `ReplayClock.DueAgrees` | source/src/raspi/paula/paula_replay.h:34-37 | the signed 64-bit test sees only the wrapped values and agrees with the true order for gaps below 2^63, and contradicts it from there to 2^64 |
| `ReplayClock.LateAgrees` | source/src/raspi/paula/paula_replay.h:39-44 | the lateness test is the true comparison within the same window |
| `ReplayClock.ReplayClock.Start` | source/src/raspi/paula/paula_replay.h:14-21 | the clock starts latency ticks ago, or at zero |
| `ReplayClock.ReplayClock.Advance` | source/src/raspi/paula/paula_replay.h:23-31 | the 64-bit tick and the remainder follow the drift-free clock across the wrap |
| `PlayerSafety.InitialGood` | source/src/raspi/hdmi_audio_poc.c:663-696 | the loop about to be entered over a mirror just enabled satisfies its invariant |
| `PlayerSafety.RunKeepsGood` | source/src/raspi/hdmi_audio_poc.c:689-803 | and every run of the loop, the bus and the counter keeps it |
| `PlayerTheorems.FrameExactReplay` | source/src/raspi/hdmi_audio_poc.c:733-762 | over every interleaving with the bus and the counter, whenever a frame is rendered the events popped since the last resync are exactly the captured ones stamped at or before its tick, in capture order, every pending one is later, and the core latches exactly them on top of what the resync absorbed; the one event in the producer's hands is named apart |
| `PlayerTheorems.NothingSlipsIff` | source/src/raspi/hdmi_audio_poc.c:753-756 | exactly: a rendered frame misses an event if and only if at the last look the producer held a stamped event that was due, and it has published it since; that event is the one missed, and the producer had then sat on it for the whole latency |
| `PlayerTheorems.PromptProducerMissesNothing` | source/src/raspi/hdmi_audio_poc.c:753-756 | so with a producer that never sits on a stamped event for the whole latency no rendered frame misses anything |
| `PlayerTheorems.SlipHappens` | source/src/raspi/hdmi_audio_poc.c:753-756 | from every start of the loop and for every write, a run in which the frame misses it |
| `PlayerTheorems.BacklogHasAReason` | source/src/raspi/hdmi_audio_poc.c:741-762 | a due event left pending silences a frame only after a full burst of 128, or after the replay had found the ring empty |
| `PlayerTheorems.ShortestPass` | source/src/raspi/hdmi_audio_poc.c:689-762 | frames are rendered: the shortest pass from the loop's entry |
| `PlayerResync.DecideAsksIff` | source/src/raspi/hdmi_audio_poc.c:703-714 | exactly: a pass begins with a resync if and only if one is still owed, the 32-bit drop counter differs from the remembered one, 6144 or more events are pending, or the loop lags its latency of frequency/20 by more than frequency/4; otherwise it waits for its frame |
| `PlayerResync.LossIsAnswered` | source/src/raspi/hdmi_audio_poc.c:689-762 | over every run whose decisions read counter and ring as they are: a write lost to a full ring, before the loop's entry or after, makes the next decision a resync, below 2^32 drops, and from there no frame is rendered before a snapshot is complete |
| `PlayerResync.NoFrameBeforeSnapshot` | source/src/raspi/hdmi_audio_poc.c:712-762 | over every run: once a pass has begun with a resync, for whatever reason and however often the lock is found taken, no frame is rendered before a snapshot is complete |
| `PlayerResync.ResyncEndsOnTime` | source/src/raspi/hdmi_audio_poc.c:719-735 | after it the loop is exactly its latency behind the counter, or at zero before that, and the frame's time has come |
| `PlayerResync.BurstIsBounded` | source/src/raspi/hdmi_audio_poc.c:741-749 | no pass of any run counts more than 128 applied events |
| `PlayerAccounts.FramePlaysAPrefix` | source/src/raspi/hdmi_audio_poc.c:733-762 | with no full-ring drop since the resync, a rendered frame plays with exactly a prefix of all writes that ever took the lock |
| `Replay.PassTakesThePrefix` | source/src/raspi/hdmi_audio_poc.c:741-751 | a pass applies and pops a prefix of the queue in order and touches no other event |
| `Replay.TakenAreDue` | source/src/raspi/hdmi_audio_poc.c:741-751 | all of that prefix is due, and it ends at a burst of 128, at an empty ring, or at an event not yet due |
| `Replay.DrainRuns` | source/src/raspi/hdmi_audio_poc.c:741-751 | the drain of a pass, nobody else moving, is a run of the interleaved loop with the same result |
| `Replay.ApplyLiveEvent` | source/src/raspi/hdmi_audio_poc.c:545-598 | malformed events are ignored, others reach the core as one word write |
| `Replay.ReplayEvents` | source/src/raspi/hdmi_audio_poc.c:741-756 | the loop on the ring leaves exactly the drained state and reports whether a due event is left |
| `MaiRatio.ChooseMaiRatio` | source/src/raspi/hdmi_audio_poc.c:335-369 | succeeds if and only if some M in 1..256 has a rounded N in 24 bits, and returns the smallest M with the least error |
| `MaiRatio.ChosenIsOptimal` | source/src/raspi/hdmi_audio_poc.c:335-369 | no N over any such M is closer |
| `MaiRatio.ChosenIsSmallest` | source/src/raspi/hdmi_audio_poc.c:335-369 | no smaller M that fits is as close |
| `MaiRatio.FitsIff` | source/src/raspi/hdmi_audio_poc.c:335-369 | an M fits when M - 1 has eight bits and the rounded N is positive and has 24 |
| `MaiRatio.RoundedIsNearest` | source/src/raspi/hdmi_audio_poc.c:344-350 | the rounded N is the closest for its M |
| `MaiRatio.NoOverflow` | source/src/raspi/hdmi_audio_poc.c:344-353 | every product of the search fits 64 bits |
| `Checksum.CarrySumIsCanonical` | source/src/aarch64/start.c:503-518 | the end-around-carry sum in memory order is the plain sum modulo 2^32 - 1, with zero only for a zero sum |
| `Checksum.BigEndian` | source/src/aarch64/start.c:503-518 | longwords are read and stored most significant byte first, and a store changes no other byte |
| `Checksum.UpdatedSumIsAllOnes` | source/src/aarch64/start.c:499-536 | after an update the sum of all longwords, the rewritten one included, is 0xffffffff |
| `Checksum.UpdateIsStable` | source/src/aarch64/start.c:522-536 | a second update finds the word it expects |
| `Checksum.ValidIff` | source/src/aarch64/start.c:520-522 | the whole sum is all ones if and only if the stored word is the expected one, but for all ones over an all-ones rest |
| `Checksum.AmigaChecksum` | source/src/aarch64/start.c:499-536 | for any size and offset: reports a change if and only if the word found differs from the expected one, stores exactly the expected word, and touches nothing else |
| `Lru.VictimInRangeIff` | source/src/ExecutionLoop.c:84-86 | after a touch the next victim lies in the set if and only if there are at least two ways |
| `Lru.TouchLeavesAVictim` | source/src/ExecutionLoop.c:84-86 | with two ways or more the victim is a way of the set and never the one just touched |
| `Lru.AnswerAgrees` | source/src/ExecutionLoop.c:71-93 | a lookup returns what the map holds and NULL for what it does not |
| `Lru.FindKeepsSound` | source/src/ExecutionLoop.c:71-93 | a lookup moves no entry and its hit is not the next victim |
| `Lru.InsertAgrees` | source/src/ExecutionLoop.c:159-174 | an insertion after a miss adds the unit and loses at most the victim, and no address is held twice |
| `Lru.InsertUniqueIff` | source/src/ExecutionLoop.c:159-174 | an insertion keeps addresses unique if and only if no slot but the victim holds the address |
| `Lru.DropAgrees` | source/src/ExecutionLoop.c:128-143 | invalidating an address removes it and nothing else |
| `Lru.DropByArmAgrees` | source/src/ExecutionLoop.c:110-126 | invalidating an entry point removes the first address that leads to it |
| `Lru.EmptyAgrees` | source/src/ExecutionLoop.c:145-157 | after invalidating everything the map is empty and every set has a victim |
| `Lru.SetsInterleave` | source/src/ExecutionLoop.c:68-68 | the sets take the 16-byte granules of the address space in turn |
| `LruRuns.HitsAreCurrent` | source/src/ExecutionLoop.c:71-224 | over every run of lookups, insertions after a miss and invalidations, no address is held twice and a hit returns the entry last inserted and not invalidated since |
| `LruRuns.FreshIsGood` | source/src/ExecutionLoop.c:145-157 | a cache just emptied starts every run |
| `LruRuns.InsertedIsFound` | source/src/ExecutionLoop.c:159-174 | a unit just inserted is found |
| `LruRuns.InvalidatedArmIsGoneIff` | source/src/ExecutionLoop.c:110-126 | exactly: the scan stops at the first slot, so after invalidating an entry point no hit returns it if and only if at most one address led to it |
| `LruRuns.InvalidatedArmIsGone` | source/src/ExecutionLoop.c:110-126 | and that holds at the end of every run whose insertions each bring an entry point no address leads to |
| `LruRuns.LruCache.FindBlock` | source/src/ExecutionLoop.c:71-93 | the way scan returns the answer and touches the way it hit |
| `LruRuns.LruCache.InsertBlock` | source/src/ExecutionLoop.c:159-174 | the leading-zero victim is overwritten and touched |
| `LruRuns.LruCache.InvalidateByArmAddress` | source/src/ExecutionLoop.c:110-126 | the scan clears the first matching slot and frees its way |
| `LruRuns.LruCache.InvalidateByM68kAddress` | source/src/ExecutionLoop.c:128-143 | the scan of one set clears the matching slot and frees its way |
| `LruRuns.LruCache.InvalidateAll` | source/src/ExecutionLoop.c:145-157 | every slot emptied, every way free |
| `LruRuns.LruCache.FindUnitQuick` | source/src/ExecutionLoop.c:176-224 | returns the cached entry; else the first unit of the bucket with this epoch and address, which is then cached, or NULL exactly when there is none; for every program counter |
| `BusMemory.MemoryRoundTrip` | source/src/pistorm/ps_classic_protocol.c:383-555 | bytes stored at any address are read back, modulo 2^24 |
| `BusMemory.PokeKeepsOthers` | source/src/pistorm/ps_classic_protocol.c:383-555 | a store changes no other address |
| `BusMemory.NumberRoundTrip` | source/src/pistorm/ps_classic_protocol.c:557-739 | the big-endian bytes of a number give the number back |
| `BusMemory.EffectsReplay` | source/src/pistorm/ps_classic_protocol.c:383-555 | the transactions a write is split into store exactly its bytes, in order |
| `BusMemory.LongTransactions` | source/src/pistorm/ps_classic_protocol.c:542-555 | a longword is two words at an even address, and byte, word, byte at an odd one |
| `BusMemory.BigEndianFour` | source/src/pistorm/ps_classic_protocol.c:542-555 | most significant byte first |
| `BusMemory.StoreIsFollowed` | source/src/pistorm/ps_classic_protocol.c:458-538 | every transaction is followed by its one capture and its invalidation, with its address and width |
| `BusMemory.CaptureHasItsStore` | source/src/pistorm/ps_classic_protocol.c:458-538 | and there is no other capture |
| `BusMemory.InvalidationCovers` | source/src/pistorm/ps_classic_protocol.c:458-538 | every chip RAM byte a transaction stored lies in a page its invalidation handles |
| `BusMemory.CaptureIsABusEvent` | source/src/pistorm/ps_classic_protocol.c:458-538 | captures are bytes, or words at even addresses, as the event ring expects |
| `Bus.WriteReadRoundTrip` | source/src/pistorm/ps_classic_protocol.c:383-739 | a value of 8 to 64 bits written at any alignment is read back |
| `Bus.Write128RoundTrip` | source/src/pistorm/ps_classic_protocol.c:1152-1236 | and both halves of a 128-bit value |
| `Bus.WriteKeepsOthers` | source/src/pistorm/ps_classic_protocol.c:383-555 | and no other byte changes |
| `Bus.WritesStayOrderly` | source/src/pistorm/ps_classic_protocol.c:383-555 | writes of every width keep the log orderly |
| `Bus.Bus.Write8` | source/src/pistorm/ps_classic_protocol.c:467-540 | one byte transaction |
| `Bus.Bus.Write16` | source/src/pistorm/ps_classic_protocol.c:383-465 | one word transaction, or two bytes at an odd address |
| `Bus.Bus.Write32` | source/src/pistorm/ps_classic_protocol.c:542-555 | two words, or byte, word, byte at an odd address: the big-endian bytes in memory |
| `Bus.Bus.Write64` | source/src/pistorm/ps_classic_protocol.c:1145-1150 | the eight big-endian bytes at any alignment |
| `Bus.Bus.Write128` | source/src/pistorm/ps_classic_protocol.c:1152-1159 | the sixteen big-endian bytes of the two halves at any alignment |
| `Bus.Bus.Read8` | source/src/pistorm/ps_classic_protocol.c:643-717 | the byte at the address modulo 2^24 |
| `Bus.Bus.Read16` | source/src/pistorm/ps_classic_protocol.c:557-633 | the big-endian word at any alignment |
| `Bus.Bus.Read32` | source/src/pistorm/ps_classic_protocol.c:719-739 | the big-endian longword at any alignment |
| `Bus.Bus.Read64` | source/src/pistorm/ps_classic_protocol.c:1210-1218 | the big-endian 64-bit number at any alignment |
| `Bus.Bus.Read128` | source/src/pistorm/ps_classic_protocol.c:1220-1236 | both big-endian halves at any alignment |

## Left out

- Weak memory ordering: every load, store and compare-and-swap is one sequentially consistent step.
- Generation overflow: the 62-bit page generation is unbounded.
- Floating-point rounding: phase, gains and samples are exact reals.
- The 32-bit wrap of `address + width - 1` in the invalidation, which needs a width near 2^32; the bus passes 1 or 2.
- The disabled state before `paula_mirror_enable`, in which captures and invalidations do nothing.
- Diagnostics: probe counters, `page_miss_seen`, `misses`, `invalid_addresses` and messages.
- `poc_live_state` and the prefetches `poc_apply_live_event` adds: they only ask for more pages.
- The stamp of the shadow itself (`latest.ticks`), which only diagnostics carry on.
- Counter values from 2^63 on, where the signed tests of the replay stop being true comparisons: `PlayerTheorems` speaks of times below.
- The order of callback and mixing inside a frame of `LivePaula`: its callback is a value, and the reads it stands for are made through the mirror right after.
- A bus write in progress while a frame is read: `CacheFrames` and `CachedRuns` have bus writes between frames.
- The loop's own readings of counter, drops and fill are any values, so that stale readings are included.
- Beam position reads (`vhposr`, `vpos`) and `readRegister16`.
- Direct AUDxDAT playback, Copper writes and blitter writes to samples, which the code does not mirror either.
- HDMI, MAI and PLL programming, FIFO waits, the IEC958 word and the splash screen: hardware input and output.
- GPIO signalling of the bus, wait loops, delays, instruction-cache invalidation and the write buffer, which is compiled out for this target.
- JIT translation, unit verification and the tagging of entry points for verification; an inserted unit has a non-null entry point.
