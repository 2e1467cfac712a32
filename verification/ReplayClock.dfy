/** The audio-frame clock: counter ticks per 48 kHz frame without fractional drift, and the
    signed comparisons of 64-bit counter values. */
module ReplayClock {
  import opened Words
  import opened Arith

  const FRAME_HZ: nat := 48000
  const HALF: int := 0x8000_0000_0000_0000

  /** tick counts without wrapping; the 64-bit field is its remainder. */
  datatype Clock = Clock(tick: nat, remainder: nat, frequency: nat)

  ghost predicate ClockOk(c: Clock) {
    c.remainder < FRAME_HZ && c.frequency < U32
  }

  function Restarted(now: nat, frequency: nat, latency: nat): (c: Clock)
    requires frequency < U32
    ensures ClockOk(c)
  {
    Clock(if now > latency then now - latency else 0, 0, frequency)
  }

  function Advanced(c: Clock): (r: Clock)
    requires ClockOk(c)
    ensures ClockOk(r)
  {
    var sum := c.remainder + c.frequency % FRAME_HZ;
    var tick := c.tick + c.frequency / FRAME_HZ;
    if sum >= FRAME_HZ then Clock(tick + 1, sum - FRAME_HZ, c.frequency) else Clock(tick, sum, c.frequency)
  }

  function AdvancedBy(c: Clock, n: nat): (r: Clock)
    requires ClockOk(c)
    ensures ClockOk(r)
  {
    if n == 0 then c else Advanced(AdvancedBy(c, n - 1))
  }

  /** After n frames not a fraction of a tick is lost, for every frequency and n. */
  lemma {:induction false} DriftFree(c: Clock, n: nat)
    requires ClockOk(c)
    ensures var r := AdvancedBy(c, n);
            && r.tick * FRAME_HZ + r.remainder == c.tick * FRAME_HZ + c.remainder + n * c.frequency
            && r.frequency == c.frequency && r.remainder < FRAME_HZ
  {
    if n > 0 {
      DriftFree(c, n - 1);
      Successor(n - 1, c.frequency);
    }
  }

  /** From a start the tick is the start plus the whole part of n * frequency / 48000. */
  lemma TickIsExactQuotient(now: nat, frequency: nat, latency: nat, n: nat)
    requires frequency < U32
    ensures var c := Restarted(now, frequency, latency);
            && AdvancedBy(c, n).tick == c.tick + n * frequency / FRAME_HZ
            && AdvancedBy(c, n).remainder == n * frequency % FRAME_HZ
  {
    var c := Restarted(now, frequency, latency);
    DriftFree(c, n);
    var r := AdvancedBy(c, n);
    var total := n * frequency;
    assert (r.tick - c.tick) * FRAME_HZ + r.remainder == total;
  }

  // ---------------------------------------------------------------- comparisons

  /** A 64-bit difference read as a signed number. */
  function Signed64(x: int): (r: int)
    ensures -HALF <= r < HALF
    ensures -HALF <= x < HALF ==> r == x
  {
    var u := x % U64;
    if u < HALF then u else u - U64
  }

  predicate Due(now: nat, target: nat) {
    Signed64(now - target) >= 0
  }

  predicate Late(tick: nat, now: nat, latency: nat, limit: nat) {
    Signed64(now - tick) > Signed64((latency + limit) % U64)
  }

  /** The signed test sees only the 64-bit values and agrees with the true order exactly when
      the gap, brought into the signed range, keeps its sign: always for gaps below 2^63. */
  lemma DueAgrees(now: nat, target: nat)
    ensures Due(now % U64, target % U64) == Due(now, target)
    ensures -HALF <= now - target < HALF ==> (Due(now, target) <==> now >= target)
    ensures HALF <= now - target < U64 ==> !Due(now, target)
    ensures 0 - U64 <= now - target < -HALF ==> Due(now, target)
  {
    assert (now % U64 - target % U64) % U64 == (now - target) % U64;
  }

  lemma LateAgrees(tick: nat, now: nat, latency: nat, limit: nat)
    requires -HALF <= now - tick < HALF && latency + limit < HALF
    ensures Late(tick % U64, now % U64, latency, limit) <==> now > tick + latency + limit
  {
    assert (now % U64 - tick % U64) % U64 == (now - tick) % U64;
  }

  // ---------------------------------------------------------------- the struct

  lemma Wraps(a: nat, b: nat)
    ensures (a % U64 + b) % U64 == (a + b) % U64
  {
  }

  class ReplayClock {
    var tick: nat
    var remainder: nat
    var frequency: nat
    ghost var elapsed: nat

    ghost predicate Valid()
      reads this
    {
      ClockOk(Abs()) && tick == elapsed % U64
    }

    ghost function Abs(): Clock
      reads this
    {
      Clock(elapsed, remainder, frequency)
    }

    constructor (now: nat, frequency: nat, latency: nat)
      requires now < U64 && frequency < U32
      ensures Valid() && Abs() == Restarted(now, frequency, latency)
    {
      new;
      Start(now, frequency, latency);
    }

    method Start(now: nat, frequency: nat, latency: nat)
      requires now < U64 && frequency < U32
      modifies this
      ensures Valid() && Abs() == Restarted(now, frequency, latency)
    {
      this.frequency := frequency;
      remainder := 0;
      tick := if now > latency then now - latency else 0;
      elapsed := tick;
    }

    method Advance()
      requires Valid()
      modifies this
      ensures Valid() && Abs() == Advanced(old(Abs()))
    {
      var step := frequency / FRAME_HZ;
      Wraps(elapsed, step);
      elapsed, tick := elapsed + step, (tick + step) % U64;
      remainder := remainder + frequency % FRAME_HZ;
      if remainder >= FRAME_HZ {
        remainder := remainder - FRAME_HZ;
        Wraps(elapsed, 1);
        elapsed, tick := elapsed + 1, (tick + 1) % U64;
      }
    }
  }
}
