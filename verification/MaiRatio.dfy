/** The search for the audio clock divider: N / M closest to clock / rate, with the errors
    compared by cross-multiplication. */
module MaiRatio {
  import opened Words

  const MAX_M: nat := 256
  const MAX_N: nat := 0x00FF_FFFF

  function Rounded(clock: nat, rate: nat, m: nat): nat
    requires rate > 0
  {
    (clock * m + rate / 2) / rate
  }

  function Distance(a: int, b: int): (d: nat)
    ensures d == a - b || d == b - a
  {
    if a > b then a - b else b - a
  }

  /** The error of N / M, scaled by rate * M. */
  function ErrorOf(clock: nat, rate: nat, n: nat, m: nat): nat {
    Distance(n * rate, clock * m)
  }

  function Error(clock: nat, rate: nat, m: nat): nat
    requires rate > 0
  {
    ErrorOf(clock, rate, Rounded(clock, rate, m), m)
  }

  predicate Fits(clock: nat, rate: nat, m: nat)
    requires rate > 0
  {
    1 <= m <= MAX_M && 1 <= Rounded(clock, rate, m) <= MAX_N
  }

  /** error(a) / a <= error(b) / b, or strictly below. */
  predicate NoWorse(ea: nat, a: nat, eb: nat, b: nat) {
    ea * b <= eb * a
  }

  predicate Better(ea: nat, a: nat, eb: nat, b: nat) {
    ea * b < eb * a
  }

  lemma ProductOrder(x: int, y: int, k: nat)
    ensures x <= y ==> x * k <= y * k
    ensures k > 0 && x * k < y * k ==> x < y
    ensures k > 0 && x < y ==> x * k < y * k
  {
  }

  lemma BetterThanAll(em: nat, m: nat, eb: nat, b: nat, ek: nat, k: nat)
    requires m > 0 && b > 0 && k > 0
    requires Better(em, m, eb, b) && NoWorse(eb, b, ek, k)
    ensures Better(em, m, ek, k)
  {
    ProductOrder(em * b, eb * m, k);
    ProductOrder(eb * k, ek * b, m);
    assert em * b * k == (em * k) * b && eb * m * k == eb * k * m && ek * b * m == (ek * m) * b;
    ProductOrder(em * k, ek * m, b);
  }

  /** Rounding makes the error at most half the rate. */
  lemma RoundedError(clock: nat, rate: nat, m: nat)
    requires rate > 0
    ensures Error(clock, rate, m) <= rate / 2
  {
    var x := clock * m;
    var n := (x + rate / 2) / rate;
    assert n * rate <= x + rate / 2 < n * rate + rate;
  }

  /** No other N is closer for the same M. */
  lemma RoundedIsNearest(clock: nat, rate: nat, n: nat, m: nat)
    requires rate > 0
    ensures Error(clock, rate, m) <= ErrorOf(clock, rate, n, m)
  {
    var x, r := clock * m, Rounded(clock, rate, m);
    assert r * rate <= x + rate / 2 < r * rate + rate;
    if n < r {
      ProductOrder(n + 1, r, rate);
      assert (n + 1) * rate == n * rate + rate;
    } else if n > r {
      ProductOrder(r + 1, n, rate);
      assert (r + 1) * rate == r * rate + rate;
    }
  }

  /** Every product of the search fits 64 bits. */
  lemma NoOverflow(clock: nat, rate: nat, m: nat, other: nat)
    requires 0 < rate < U32 && clock < U32 && m <= MAX_M && other <= MAX_M
    ensures clock * m + rate / 2 < U64
    ensures Rounded(clock, rate, m) * rate < U64
    ensures Error(clock, rate, m) * other < U64
  {
    ProductOrder(m, MAX_M, clock);
    RoundedError(clock, rate, m);
    ProductOrder(Error(clock, rate, m), rate, other);
    ProductOrder(other, MAX_M, rate);
  }

  /** M was chosen among 1..upTo: none fitting is better, and an equally good one is larger. */
  predicate BestUpTo(clock: nat, rate: nat, m: nat, upTo: nat)
    requires rate > 0
  {
    && m <= upTo && Fits(clock, rate, m)
    && forall k :: 1 <= k <= upTo && Fits(clock, rate, k) ==>
         && NoWorse(Error(clock, rate, m), m, Error(clock, rate, k), k)
         && (k < m ==> Better(Error(clock, rate, m), m, Error(clock, rate, k), k))
  }

  lemma CandidateWins(clock: nat, rate: nat, best: nat, m: nat)
    requires rate > 0 && m > 0 && BestUpTo(clock, rate, best, m - 1) && Fits(clock, rate, m)
    requires Better(Error(clock, rate, m), m, Error(clock, rate, best), best)
    ensures BestUpTo(clock, rate, m, m)
  {
    var em, eb := Error(clock, rate, m), Error(clock, rate, best);
    forall k | 1 <= k <= m && Fits(clock, rate, k)
      ensures NoWorse(em, m, Error(clock, rate, k), k)
      ensures k < m ==> Better(em, m, Error(clock, rate, k), k)
    {
      if k < m {
        BetterThanAll(em, m, eb, best, Error(clock, rate, k), k);
      }
    }
  }

  lemma PerfectIsBest(clock: nat, rate: nat, m: nat)
    requires rate > 0 && m <= MAX_M && BestUpTo(clock, rate, m, m) && Error(clock, rate, m) == 0
    ensures BestUpTo(clock, rate, m, MAX_M)
  {
  }

  /** The smallest M whose rounded N fits 24 bits and whose ratio is closest; it fails exactly
      when no rounded N fits. */
  method ChooseMaiRatio(clock: nat, rate: nat) returns (ok: bool, n: nat, m: nat)
    requires clock < U32 && 0 < rate < U32
    ensures ok <==> exists k :: Fits(clock, rate, k)
    ensures ok ==> BestUpTo(clock, rate, m, MAX_M) && n == Rounded(clock, rate, m)
    ensures ok ==> 1 <= m <= 256 && 1 <= n <= 0xFF_FFFF
  {
    var bestError := U64 - 1;
    n, m := 0, 0;
    var next := 1;
    while next <= MAX_M
      invariant 1 <= next <= MAX_M + 1
      invariant m == 0 ==> forall k :: 1 <= k < next ==> !Fits(clock, rate, k)
      invariant m != 0 ==> BestUpTo(clock, rate, m, next - 1)
      invariant m != 0 ==> n == Rounded(clock, rate, m) && bestError == Error(clock, rate, m)
    {
      NoOverflow(clock, rate, next, m);
      var n64 := (clock * next + rate / 2) / rate;
      if 1 <= n64 <= MAX_N {
        var err := Distance(n64 * rate, clock * next);
        assert Fits(clock, rate, next) && err == Error(clock, rate, next);
        if m == 0 || err * m < bestError * next {
          if m != 0 {
            CandidateWins(clock, rate, m, next);
          }
          bestError, n, m := err, n64, next;
          if err == 0 {
            PerfectIsBest(clock, rate, m);
            break;
          }
        }
      }
      next := next + 1;
    }
    if m == 0 {
      return false, 0, 0;
    }
    ok := true;
  }

  /** M and its rounded N fit the register: eight bits of M - 1 and 24 bits of N. */
  lemma FitsIff(clock: nat, rate: nat, m: nat)
    requires rate > 0
    ensures Fits(clock, rate, m) <==>
            0 < m && m - 1 < 256 && 0 < (clock * m + rate / 2) / rate < 0x100_0000
  {
  }

  /** No smaller M that fits is as close. */
  lemma ChosenIsSmallest(clock: nat, rate: nat, m: nat, k: nat)
    requires rate > 0 && BestUpTo(clock, rate, m, MAX_M) && Fits(clock, rate, k) && k < m
    ensures var e, e' := Rounded(clock, rate, m) * rate - clock * m, Rounded(clock, rate, k) * rate - clock * k;
            (if e < 0 then 0 - e else e) * k < (if e' < 0 then 0 - e' else e') * m
  {
  }

  /** The chosen pair is the closest of all pairs whose M admits a rounded N. */
  lemma ChosenIsOptimal(clock: nat, rate: nat, m: nat, n': nat, m': nat)
    requires rate > 0 && BestUpTo(clock, rate, m, MAX_M) && Fits(clock, rate, m')
    ensures var n := (clock * m + rate / 2) / rate;
            var e, e' := n * rate - clock * m, n' * rate - clock * m';
            (if e < 0 then 0 - e else e) * m' <= (if e' < 0 then 0 - e' else e') * m
  {
    RoundedIsNearest(clock, rate, n', m');
    var ek, e' := Error(clock, rate, m'), ErrorOf(clock, rate, n', m');
    ProductOrder(ek, e', m);
  }
}
