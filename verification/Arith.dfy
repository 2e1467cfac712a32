/** Division and remainder by a variable divisor. */
module Arith {
  lemma MulIncreases(a: nat, b: nat, m: nat)
    requires a <= b
    ensures a * m <= b * m
  {
  }

  lemma Successor(q: nat, m: nat)
    ensures (q + 1) * m == q * m + m
  {
  }

  lemma Below(a: nat, b: nat, m: nat, r: nat, r': nat)
    requires a < b && r < m
    ensures a * m + r < b * m + r'
  {
    MulIncreases(a + 1, b, m);
    Successor(a, m);
  }

  /** A quotient and remainder that fit are the quotient and remainder. */
  lemma Quotient(x: nat, m: nat, q: nat, r: nat)
    requires m > 0 && r < m && x == q * m + r
    ensures x / m == q && x % m == r
  {
    var q', r' := x / m, x % m;
    assert x == q' * m + r' && r' < m;
    if q' < q {
      Below(q', q, m, r', r);
    } else if q < q' {
      Below(q, q', m, r, r');
    }
  }

  /** Counting up by one either steps the remainder or wraps it and steps the quotient. */
  lemma NextIndex(j: nat, m: nat)
    requires m > 0
    ensures (j + 1) % m == if j % m == m - 1 then 0 else j % m + 1
    ensures (j + 1) / m == if j % m == m - 1 then j / m + 1 else j / m
  {
    var q, r := j / m, j % m;
    assert j == q * m + r;
    if r == m - 1 {
      Successor(q, m);
      Quotient(j + 1, m, q + 1, 0);
    } else {
      Quotient(j + 1, m, q, r + 1);
    }
  }

  lemma RemainderBelow(x: nat, m: nat)
    requires m > 0
    ensures x % m <= x && x % m < m
  {
    assert x == x / m * m + x % m;
    MulIncreases(0, x / m, m);
  }

  lemma Small(x: nat, m: nat)
    requires x < m
    ensures x / m == 0 && x % m == x
  {
    Quotient(x, m, 0, x);
  }

  lemma Shift(j: nat, m: nat)
    requires m > 0
    ensures (j + m) / m == 1 + j / m && (j + m) % m == j % m
  {
    var q, r := j / m, j % m;
    assert j == q * m + r;
    Successor(q, m);
    Quotient(j + m, m, q + 1, r);
  }

  /** Wrapping early or late to 32 bits is the same. */
  lemma WrapAdd(a: nat, b: nat)
    ensures (a % 0x1_0000_0000 + b) % 0x1_0000_0000 == (a + b) % 0x1_0000_0000
  {
  }

  lemma WrapBoth(a: nat, b: nat)
    ensures (a % 0x1_0000_0000 + b % 0x1_0000_0000) % 0x1_0000_0000 == (a + b) % 0x1_0000_0000
  {
  }
}
