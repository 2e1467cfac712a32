/** A bounded ring addressed by free-running 32-bit counters. Both the page request
    queue and the register event queue have this shape and this capacity. */
module Ring {
  import opened Words

  const CAPACITY: nat := 8192

  /** The unsigned 32-bit difference head - tail. */
  function Pending(head: nat, tail: nat): nat
    requires head < U32 && tail < U32
  {
    (head - tail) % U32
  }

  function Next(counter: nat): nat {
    (counter + 1) % U32
  }

  /** The live slots, oldest first. */
  function Live<T>(slots: seq<T>, head: nat, tail: nat): (q: seq<T>)
    requires |slots| == CAPACITY && head < U32 && tail < U32
    ensures |q| == Pending(head, tail)
  {
    seq(Pending(head, tail), i requires 0 <= i => slots[(tail + i) % CAPACITY])
  }

  /** Writing the slot at head, before head moves, touches no live slot. */
  lemma StoreKeepsLive<T>(slots: seq<T>, head: nat, tail: nat, x: T)
    requires |slots| == CAPACITY && head < U32 && tail < U32
    requires Pending(head, tail) < CAPACITY
    ensures Live(slots[head % CAPACITY := x], head, tail) == Live(slots, head, tail)
  {
    var q, q' := Live(slots, head, tail), Live(slots[head % CAPACITY := x], head, tail);
    forall i | 0 <= i < |q|
      ensures q'[i] == q[i]
    {
      assert head % CAPACITY == (tail + Pending(head, tail)) % CAPACITY;
      assert (tail + i) % CAPACITY != head % CAPACITY;
    }
  }

  /** Moving head past a stored slot appends it, also when the counter wraps. */
  lemma PublishAppends<T>(slots: seq<T>, head: nat, tail: nat)
    requires |slots| == CAPACITY && head < U32 && tail < U32
    requires Pending(head, tail) < CAPACITY
    ensures Pending(Next(head), tail) == Pending(head, tail) + 1
    ensures Live(slots, Next(head), tail) == Live(slots, head, tail) + [slots[head % CAPACITY]]
  {
    assert head % CAPACITY == (tail + Pending(head, tail)) % CAPACITY;
  }

  /** Moving tail past a live slot removes the oldest one. */
  lemma PopRemovesFirst<T>(slots: seq<T>, head: nat, tail: nat)
    requires |slots| == CAPACITY && head < U32 && tail < U32
    requires Pending(head, tail) > 0
    ensures Pending(head, Next(tail)) == Pending(head, tail) - 1
    ensures Live(slots, head, Next(tail)) == Live(slots, head, tail)[1..]
  {
    var q, q' := Live(slots, head, tail), Live(slots, head, Next(tail));
    forall i | 0 <= i < |q'|
      ensures q'[i] == q[1..][i]
    {
      assert (Next(tail) + i) % CAPACITY == (tail + (i + 1)) % CAPACITY;
    }
  }
}
