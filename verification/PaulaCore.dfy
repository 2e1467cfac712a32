/** The Paula sample machine as functions of its state: registers, DMA, phase and mix.
    Phase, gains and output are exact reals. */
module PaulaCore {
  import opened Words

  const CHANNELS: nat := 4
  const CLOCK_HZ: real := 3546895.0
  const OUTPUT_HZ: real := 48000.0
  const DMA_MASTER: nat := 9

  const DMACON: nat := 0x096
  const INTENA: nat := 0x09A
  const INTREQ: nat := 0x09C
  const ADKCON: nat := 0x09E
  const AUD_BASE: nat := 0x0A0

  datatype Interpolation = Nearest | Linear

  datatype Channel = Channel(
    locLatched: nat, lenLatched: nat, period: nat, volume: nat,
    curPtr: nat, wordsLeft: nat, sampleL: Byte, sampleH: Byte, onLowByte: bool,
    phase: real, wantsRestart: bool, curOut: int, nextOut: int, gain: real)

  datatype Core = Core(
    channels: seq<Channel>,
    dmaCon: Word, intReq: Word, intEna: Word, adkCon: Word,
    interp: Interpolation, stereoSep: real, stereoCurrent: real,
    muted: seq<bool>, mixGain: seq<real>)

  /** The sample callback: the byte answered to the i-th read of a frame at an address. */
  type Reader = (nat, nat) -> Byte

  ghost predicate ChannelOk(c: Channel) {
    c.locLatched < U32 && c.curPtr < U32 && c.period > 0
  }

  ghost predicate CoreOk(p: Core) {
    && |p.channels| == |p.muted| == |p.mixGain| == CHANNELS
    && forall ch :: 0 <= ch < CHANNELS ==> ChannelOk(p.channels[ch])
  }

  // ---------------------------------------------------------------- registers

  const RESET_CHANNEL: Channel :=
    Channel(0, 0, 1, 0, 0, 0, 0, 0, true, 0.0, true, 0, 0, 0.0)

  /** Bit 15 says whether the other bits are set or cleared. */
  function SetClr(reg: Word, value: Word): Word {
    if 15 in value then reg + (value - {15}) else reg - (value - {15})
  }

  /** Channel ch is enabled by bit ch together with the master bit 9. */
  predicate Enabled(dmaCon: Word, ch: nat) {
    ch in dmaCon && DMA_MASTER in dmaCon
  }

  /** The interrupt request bit of a channel: 0x80 shifted by its number. */
  function IrqBit(ch: nat): nat {
    7 + ch
  }

  /** Reload a channel from its latched location and length. */
  function Primed(c: Channel): Channel {
    c.(curPtr := c.locLatched, wordsLeft := c.lenLatched, onLowByte := true,
       sampleL := 0, sampleH := 0, curOut := 0, nextOut := 0, phase := 0.0,
       wantsRestart := false)
  }

  function Gated(c: Channel, on: bool): Channel {
    if !on then c.(wantsRestart := true)
    else if c.wantsRestart then Primed(c)
    else c
  }

  function LengthOf(value: nat): nat {
    if value == 0 then 65536 else value
  }

  function ChannelWrite(c: Channel, reg: nat, value: Word): (r: Channel)
    requires ChannelOk(c)
    ensures ChannelOk(r)
  {
    var v := Number(value);
    if reg == 0 then c.(locLatched := c.locLatched % U16 + v * U16)
    else if reg == 2 then c.(locLatched := c.locLatched / U16 * U16 + v)
    else if reg == 4 then c.(lenLatched := LengthOf(v))
    else if reg == 6 then c.(period := if v == 0 then 1 else v)
    else if reg == 8 then c.(volume := Number(set i | i in value && i < 7))
    else c
  }

  function GatedAll(channels: seq<Channel>, dmaCon: Word): (r: seq<Channel>)
    requires |channels| == CHANNELS
    ensures |r| == CHANNELS
    ensures forall ch :: 0 <= ch < CHANNELS ==> r[ch] == Gated(channels[ch], Enabled(dmaCon, ch))
  {
    seq(CHANNELS, ch requires 0 <= ch < CHANNELS => Gated(channels[ch], Enabled(dmaCon, ch)))
  }

  function WriteChannel(p: Core, offset: nat, value: Word): (r: Core)
    requires CoreOk(p) && offset < 16 * CHANNELS
    ensures CoreOk(r)
  {
    var ch := offset / 16;
    p.(channels := p.channels[ch := ChannelWrite(p.channels[ch], offset % 16, value)])
  }

  function WriteRegister(p: Core, address: nat, value: Word): (r: Core)
    requires CoreOk(p)
    ensures CoreOk(r)
  {
    var reg := address % 0x1000;
    if reg == DMACON then
      var dmaCon := SetClr(p.dmaCon, value);
      p.(dmaCon := dmaCon, channels := GatedAll(p.channels, dmaCon))
    else if reg == INTREQ then p.(intReq := SetClr(p.intReq, value))
    else if reg == INTENA then p.(intEna := SetClr(p.intEna, value))
    else if reg == ADKCON then p.(adkCon := SetClr(p.adkCon, value))
    else if AUD_BASE <= reg < AUD_BASE + 16 * CHANNELS then WriteChannel(p, reg - AUD_BASE, value)
    else p
  }

  /** The loop a running channel picks up at its next block end. */
  function WithLoop(p: Core, ch: int, loc: nat, lenWords: nat): (r: Core)
    requires CoreOk(p) && loc < U32
    ensures CoreOk(r)
  {
    if ch < 0 || ch >= CHANNELS then p
    else p.(channels := p.channels[ch := p.channels[ch].(locLatched := loc, lenLatched := LengthOf(lenWords))])
  }

  /** Reset wipes channels and registers; mixer settings survive. */
  function ResetCore(p: Core): (r: Core)
    requires CoreOk(p)
    ensures CoreOk(r)
  {
    p.(channels := seq(CHANNELS, _ => RESET_CHANNEL), dmaCon := {}, intReq := {}, intEna := {}, adkCon := {})
  }

  // ---------------------------------------------------------------- DMA

  /** A frame in progress: the core, the addresses read so far, the interrupts raised. */
  datatype Exec = Exec(core: Core, fetched: seq<nat>, irqs: nat)

  ghost predicate ExecOk(e: Exec) {
    CoreOk(e.core)
  }

  function With(e: Exec, ch: nat, c: Channel): (r: Exec)
    requires ExecOk(e) && ch < CHANNELS
  {
    e.(core := e.core.(channels := e.core.channels[ch := c]))
  }

  function Signed(b: Byte): int {
    if b < 128 then b else b - 256
  }

  function Fetch(c: Channel, l: Byte, h: Byte): Channel {
    var reload := c.wordsLeft == 0;
    var ptr := if reload then c.locLatched else c.curPtr;
    var left := if reload then c.lenLatched else c.wordsLeft;
    c.(sampleL := l, sampleH := h, curPtr := (ptr + 2) % U32,
       wordsLeft := if left > 0 then left - 1 else 0,
       curOut := c.nextOut, nextOut := Signed(l), onLowByte := false)
  }

  /** Where the next word fetch reads. */
  function FetchPtr(c: Channel): nat {
    if c.wordsLeft == 0 then c.locLatched else c.curPtr
  }

  /** The fetch of the next word, with the interrupt that a reload raises. */
  function FetchWord(e: Exec, ch: nat, l: Byte, h: Byte): (r: Exec)
    requires ExecOk(e) && ch < CHANNELS
    ensures ExecOk(r)
  {
    var c := e.core.channels[ch];
    var a, reload := FetchPtr(c), c.wordsLeft == 0;
    Exec(e.core.(channels := e.core.channels[ch := Fetch(c, l, h)],
                 intReq := if reload then e.core.intReq + {IrqBit(ch)} else e.core.intReq),
         e.fetched + [a, (a + 1) % U32],
         e.irqs + if reload then 1 else 0)
  }

  function SecondByte(c: Channel): Channel {
    c.(curOut := c.nextOut, nextOut := Signed(c.sampleH), onLowByte := true)
  }

  function Silenced(c: Channel): Channel {
    c.(curOut := 0, nextOut := 0)
  }

  /** One Paula tick: one signed 8-bit sample. */
  function Advance(e: Exec, ch: nat, read: Reader): (r: Exec)
    requires ExecOk(e) && ch < CHANNELS
    ensures ExecOk(r)
  {
    var c, n := e.core.channels[ch], |e.fetched|;
    if !Enabled(e.core.dmaCon, ch) then With(e, ch, Silenced(c))
    else if c.onLowByte then
      FetchWord(e, ch, read(n, FetchPtr(c)), read(n + 1, (FetchPtr(c) + 1) % U32))
    else With(e, ch, SecondByte(c))
  }

  function Phase(e: Exec, ch: nat): real
    requires ExecOk(e) && ch < CHANNELS
  {
    e.core.channels[ch].phase
  }

  function WithPhase(e: Exec, ch: nat, phase: real): (r: Exec)
    requires ExecOk(e) && ch < CHANNELS
    ensures ExecOk(r)
  {
    With(e, ch, e.core.channels[ch].(phase := phase))
  }

  /** Whole ticks are taken while the phase holds at least one. */
  function Ticks(e: Exec, ch: nat, read: Reader): (r: Exec)
    requires ExecOk(e) && ch < CHANNELS
    ensures ExecOk(r)
    decreases Phase(e, ch).Floor
  {
    if Phase(e, ch) < 1.0 then e
    else Ticks(Advance(WithPhase(e, ch, Phase(e, ch) - 1.0), ch, read), ch, read)
  }

  /** Source samples per output frame. */
  function PhaseStep(period: nat): real {
    CLOCK_HZ / (if period == 0 then 1.0 else period as real) * (1.0 / OUTPUT_HZ)
  }

  // ---------------------------------------------------------------- the mix

  function SampleToReal(s: int): real {
    s as real / 128.0
  }

  function VolumeToGain(volume: nat): real {
    (if volume < 64 then volume else 64) as real / 64.0
  }

  function Resample(c: Channel, interp: Interpolation): real {
    var a, b := SampleToReal(c.curOut), SampleToReal(c.nextOut);
    if interp == Linear then a + c.phase * (b - a) else a
  }

  /** The gain glides toward the volume over about two milliseconds. */
  function Glided(c: Channel): Channel {
    c.(gain := c.gain + (VolumeToGain(c.volume) - c.gain) * 0.0103626011)
  }

  /** A move of at most 1/96 toward the target. */
  function Ramped(from: real, target: real): real {
    var d := target - from;
    if d > 1.0 / 96.0 then from + 1.0 / 96.0
    else if d < -1.0 / 96.0 then from - 1.0 / 96.0
    else from + d
  }

  predicate OnLeft(ch: nat) {
    ch == 0 || ch == 3
  }

  /** What one channel puts into one output frame. */
  datatype Part = Part(ch: nat, heard: Channel, interp: Interpolation, muted: bool, mixGain: real, stereo: real)

  /** The channel's sound: a muted channel adds nothing. */
  function Voice(part: Part): real {
    if part.muted then 0.0 else Resample(part.heard, part.interp) * Glided(part.heard).gain
  }

  function Bleed(stereo: real): real {
    (1.0 - stereo) * 0.5
  }

  function LeftOf(part: Part): real {
    var mono := Voice(part) * part.mixGain;
    mono * if OnLeft(part.ch) then 1.0 - Bleed(part.stereo) else Bleed(part.stereo)
  }

  function RightOf(part: Part): real {
    var mono := Voice(part) * part.mixGain;
    mono * if OnLeft(part.ch) then Bleed(part.stereo) else 1.0 - Bleed(part.stereo)
  }

  function Left(parts: seq<Part>): real {
    if parts == [] then 0.0 else Left(parts[..|parts| - 1]) + LeftOf(parts[|parts| - 1])
  }

  function Right(parts: seq<Part>): real {
    if parts == [] then 0.0 else Right(parts[..|parts| - 1]) + RightOf(parts[|parts| - 1])
  }

  datatype Frame = Frame(exec: Exec, parts: seq<Part>)

  function Started(e: Exec, ch: nat): (r: Exec)
    requires ExecOk(e) && ch < CHANNELS
    ensures ExecOk(r)
  {
    WithPhase(e, ch, Phase(e, ch) + PhaseStep(e.core.channels[ch].period))
  }

  function Gliding(played: Exec, ch: nat): (r: Exec)
    requires ExecOk(played) && ch < CHANNELS
    ensures ExecOk(r)
  {
    With(played, ch, Glided(played.core.channels[ch]))
  }

  /** Ramp the channel's mix gain and add what it played to the frame. */
  function Blend(f: Frame, e: Exec, heard: Channel, ch: nat): (r: Frame)
    requires ExecOk(e) && ch < CHANNELS
    ensures ExecOk(r.exec)
  {
    var gain := Ramped(e.core.mixGain[ch], if e.core.muted[ch] then 0.0 else 1.0);
    Frame(e.(core := e.core.(mixGain := e.core.mixGain[ch := gain])),
          f.parts + [Part(ch, heard, e.core.interp, e.core.muted[ch], gain, e.core.stereoCurrent)])
  }

  /** One channel's contribution to one output frame. */
  function MixChannel(f: Frame, ch: nat, read: Reader): (r: Frame)
    requires ExecOk(f.exec) && ch < CHANNELS
    ensures ExecOk(r.exec)
  {
    var played := Ticks(Started(f.exec, ch), ch, read);
    Blend(f, Gliding(played, ch), played.core.channels[ch], ch)
  }

  function MixFrom(f: Frame, ch: nat, read: Reader): (r: Frame)
    requires ExecOk(f.exec) && ch <= CHANNELS
    ensures ExecOk(r.exec)
    decreases CHANNELS - ch, f
  {
    if ch == CHANNELS then f else MixFrom(MixChannel(f, ch, read), ch + 1, read)
  }

  function FrameStart(p: Core): (f: Frame)
    requires CoreOk(p)
    ensures ExecOk(f.exec)
  {
    Frame(Exec(p.(stereoCurrent := Ramped(p.stereoCurrent, p.stereoSep)), [], 0), [])
  }

  /** One stereo output frame: the core after it, what it read, and its parts. */
  function RenderFrame(p: Core, read: Reader): (f: Frame)
    requires CoreOk(p)
    ensures ExecOk(f.exec)
  {
    MixFrom(FrameStart(p), 0, read)
  }

  // ---------------------------------------------------------------- the fetch cursor

  datatype FetchState = FetchState(cursor: nat, wordsLeft: nat, loop: nat, loopWords: nat, enabled: bool)

  function FetchStateOf(p: Core, ch: nat): FetchState
    requires CoreOk(p) && ch < CHANNELS
  {
    var c := p.channels[ch];
    if c.wantsRestart || (c.onLowByte && c.wordsLeft == 0) then
      FetchState(c.locLatched, c.lenLatched, c.locLatched, c.lenLatched, Enabled(p.dmaCon, ch))
    else
      FetchState(c.curPtr, c.wordsLeft, c.locLatched, c.lenLatched, Enabled(p.dmaCon, ch))
  }
}
