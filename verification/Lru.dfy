/** The JIT block lookup cache: sets of ways, each set with a mask of ways not touched lately.
    A mask is the set of its one bits counted from the top, so way 0 is bit 31. */
module Lru {
  import opened Words
  import opened Arith

  const INVALID: nat := 0xFFFF_FFFF
  const MASK_BITS: nat := 32

  type Mask = m: set<nat> | forall i :: i in m ==> i < MASK_BITS

  datatype Entry = Entry(m68k: nat, arm: nat)

  const EMPTY: Entry := Entry(INVALID, 0)

  datatype Cache = Cache(ways: nat, sets: nat, entries: seq<Entry>, alloc: seq<Mask>)

  ghost predicate Shaped(c: Cache) {
    && 0 < c.ways <= MASK_BITS && 0 < c.sets
    && |c.entries| == c.sets * c.ways && |c.alloc| == c.sets
  }

  function SetOf(address: nat, sets: nat): (s: nat)
    requires sets > 0
    ensures s < sets
  {
    address / 16 % sets
  }

  function Slot(set_: nat, way: nat, ways: nat): nat {
    set_ * ways + way
  }

  lemma SlotInRange(set_: nat, way: nat, ways: nat, sets: nat)
    requires set_ < sets && way < ways
    ensures Slot(set_, way, ways) < sets * ways
    ensures Slot(set_, way, ways) / ways == set_ && Slot(set_, way, ways) % ways == way
  {
    Below(set_, sets, ways, way, 0);
    Quotient(Slot(set_, way, ways), ways, set_, way);
  }

  // ---------------------------------------------------------------- the free mask

  function BitsBelow(n: nat): (m: Mask)
    requires n <= MASK_BITS
    ensures forall i: nat :: i in m <==> i < n
  {
    if n == 0 then {} else BitsBelow(n - 1) + {n - 1}
  }

  predicate HasWay(m: Mask, ways: nat) {
    exists i :: i in m && i < ways
  }

  /** The way is no longer free; when none is left, all but it are free again. */
  function Touched(m: Mask, way: nat, ways: nat): Mask {
    if HasWay(m - {way}, ways) then m - {way} else BitsBelow(MASK_BITS) - {way}
  }

  /** The number of leading zeros. */
  function LeadingZeros(m: Mask, i: nat): (z: nat)
    requires i <= MASK_BITS
    ensures i <= z <= MASK_BITS
    ensures z < MASK_BITS ==> z in m
    ensures forall k :: i <= k < z ==> k !in m
    decreases MASK_BITS - i
  {
    if i == MASK_BITS || i in m then i else LeadingZeros(m, i + 1)
  }

  function Victim(m: Mask): nat {
    LeadingZeros(m, 0)
  }

  /** With at least two ways a touch always leaves a way to choose, never the touched one. */
  lemma TouchLeavesAVictim(m: Mask, way: nat, ways: nat)
    requires way < ways && 2 <= ways <= MASK_BITS
    ensures HasWay(Touched(m, way, ways), ways)
    ensures Victim(Touched(m, way, ways)) < ways && Victim(Touched(m, way, ways)) != way
  {
    if !HasWay(m - {way}, ways) {
      var other := if way == 0 then 1 else 0;
      assert other in BitsBelow(MASK_BITS) - {way};
    }
    VictimInRange(Touched(m, way, ways), ways);
  }

  lemma VictimInRange(m: Mask, ways: nat)
    requires HasWay(m, ways) && ways <= MASK_BITS
    ensures Victim(m) < ways && Victim(m) in m
  {
  }

  /** With one way the first touch already makes the next victim lie outside the set. */
  lemma OneWayFails(m: Mask)
    ensures Victim(Touched(m, 0, 1)) == 1
  {
    assert !HasWay(m - {0}, 1);
    assert 0 !in Touched(m, 0, 1) && 1 in Touched(m, 0, 1);
  }

  /** So the victim after a touch is a way of the set exactly when there are two or more. */
  lemma VictimInRangeIff(m: Mask, way: nat, ways: nat)
    requires way < ways <= MASK_BITS
    ensures Victim(Touched(m, way, ways)) < ways <==> ways >= 2
  {
    if ways >= 2 {
      TouchLeavesAVictim(m, way, ways);
    } else {
      assert Victim(Touched(m, way, ways)) == 1 by { OneWayFails(m); }
    }
  }

  // ---------------------------------------------------------------- operations

  /** The first way from i on that holds the address, or ways. */
  function WayOf(c: Cache, address: nat, i: nat): (w: nat)
    requires Shaped(c) && i <= c.ways
    ensures i <= w <= c.ways
    decreases c.ways - i
  {
    if i == c.ways then i
    else
      SlotInRange(SetOf(address, c.sets), i, c.ways, c.sets);
      if c.entries[Slot(SetOf(address, c.sets), i, c.ways)].m68k == address then i
      else WayOf(c, address, i + 1)
  }

  function Found(c: Cache, address: nat): (r: Cache)
    requires Shaped(c)
    ensures Shaped(r)
  {
    var s, w := SetOf(address, c.sets), WayOf(c, address, 0);
    if w == c.ways then c else c.(alloc := c.alloc[s := Touched(c.alloc[s], w, c.ways)])
  }

  /** The entry point a lookup returns; 0 is NULL. */
  function Answer(c: Cache, address: nat): nat
    requires Shaped(c)
  {
    var s, w := SetOf(address, c.sets), WayOf(c, address, 0);
    if w == c.ways then 0
    else
      SlotInRange(s, w, c.ways, c.sets);
      c.entries[Slot(s, w, c.ways)].arm
  }

  function VictimSlot(c: Cache, address: nat): (k: nat)
    requires Usable(c)
    ensures k < |c.entries|
  {
    var s := SetOf(address, c.sets);
    VictimInRange(c.alloc[s], c.ways);
    SlotInRange(s, Victim(c.alloc[s]), c.ways, c.sets);
    Slot(s, Victim(c.alloc[s]), c.ways)
  }

  function Inserted(c: Cache, address: nat, arm: nat): (r: Cache)
    requires Usable(c)
    ensures Shaped(r)
  {
    var s := SetOf(address, c.sets);
    var w := Victim(c.alloc[s]);
    c.(entries := c.entries[VictimSlot(c, address) := Entry(address, arm)],
       alloc := c.alloc[s := Touched(c.alloc[s], w, c.ways)])
  }

  function Cleared(c: Cache, set_: nat, way: nat): (r: Cache)
    requires Shaped(c) && set_ < c.sets && way < c.ways
    ensures Shaped(r)
  {
    SlotInRange(set_, way, c.ways, c.sets);
    c.(entries := c.entries[Slot(set_, way, c.ways) := EMPTY], alloc := c.alloc[set_ := c.alloc[set_] + {way}])
  }

  function ClearedAt(c: Cache, k: nat): (r: Cache)
    requires Shaped(c) && k < |c.entries|
    ensures Shaped(r)
  {
    IndexParts(c, k);
    Cleared(c, k / c.ways, k % c.ways)
  }

  function Dropped(c: Cache, address: nat): (r: Cache)
    requires Shaped(c)
    ensures Shaped(r)
  {
    var w := WayOf(c, address, 0);
    if w == c.ways then c else Cleared(c, SetOf(address, c.sets), w)
  }

  function IndexOfArm(entries: seq<Entry>, arm: nat, i: nat): (k: nat)
    requires i <= |entries|
    ensures i <= k <= |entries|
    ensures k < |entries| ==> entries[k].arm == arm
    ensures forall j :: i <= j < k ==> entries[j].arm != arm
    decreases |entries| - i
  {
    if i == |entries| || entries[i].arm == arm then i else IndexOfArm(entries, arm, i + 1)
  }

  lemma IndexParts(c: Cache, k: nat)
    requires Shaped(c) && k < |c.entries|
    ensures k / c.ways < c.sets && k % c.ways < c.ways && Slot(k / c.ways, k % c.ways, c.ways) == k
  {
    if k / c.ways >= c.sets {
      MulIncreases(c.sets, k / c.ways, c.ways);
    }
  }

  function DroppedByArm(c: Cache, arm: nat): (r: Cache)
    requires Shaped(c)
    ensures Shaped(r)
  {
    var k := IndexOfArm(c.entries, arm, 0);
    if k == |c.entries| then c else ClearedAt(c, k)
  }

  function Emptied(c: Cache): (r: Cache)
    requires Shaped(c)
    ensures Shaped(r)
  {
    c.(entries := seq(|c.entries|, _ => EMPTY), alloc := seq(|c.alloc|, _ => BitsBelow(MASK_BITS)))
  }

  /** The sets take the 16-byte granules of the address space in turn. */
  lemma SetsInterleave(address: nat, other: nat, sets: nat)
    requires sets > 0
    ensures address / 16 == other / 16 ==> SetOf(address, sets) == SetOf(other, sets)
    ensures SetOf(address + 16, sets) == if SetOf(address, sets) == sets - 1 then 0 else SetOf(address, sets) + 1
    ensures SetOf(0, sets) == 0
  {
    assert (address + 16) / 16 == address / 16 + 1;
    NextIndex(address / 16, sets);
    Small(0, sets);
  }

  // ---------------------------------------------------------------- the invariant

  /** Every set can name a victim. */
  ghost predicate Usable(c: Cache) {
    Shaped(c) && c.ways >= 2 && forall s :: 0 <= s < c.sets ==> HasWay(c.alloc[s], c.ways)
  }

  /** No address is held twice. */
  ghost predicate Unique(entries: seq<Entry>) {
    forall i, j :: 0 <= i < j < |entries| && entries[i].m68k == entries[j].m68k ==> entries[i].m68k == INVALID
  }

  /** An address is only ever held in its own set. */
  ghost predicate Placed(c: Cache)
    requires Shaped(c)
  {
    forall k :: 0 <= k < |c.entries| && c.entries[k].m68k != INVALID ==>
      k / c.ways == SetOf(c.entries[k].m68k, c.sets)
  }

  ghost predicate Sound(c: Cache) {
    Usable(c) && Unique(c.entries) && Placed(c)
  }

  /** The map the cache stands for. */
  ghost function Contents(entries: seq<Entry>): map<nat, nat>
    requires Unique(entries)
  {
    map i | 0 <= i < |entries| && entries[i].m68k != INVALID :: entries[i].m68k := entries[i].arm
  }

  // ---------------------------------------------------------------- agreement with the map

  lemma ReplacedUnique(entries: seq<Entry>, k: nat, e: Entry)
    requires Unique(entries) && k < |entries|
    requires e.m68k == INVALID || e.m68k !in Contents(entries)
    ensures Unique(entries[k := e])
  {
    forall i | 0 <= i < |entries| && entries[i].m68k != INVALID
      ensures entries[i].m68k in Contents(entries)
    {
    }
  }

  lemma OthersKept(entries: seq<Entry>, k: nat, e: Entry, a: nat)
    requires k < |entries| && Unique(entries) && Unique(entries[k := e])
    requires a in Contents(entries) && a != entries[k].m68k
    ensures a in Contents(entries[k := e])
    ensures a != e.m68k ==> Contents(entries[k := e])[a] == Contents(entries)[a]
  {
    var i :| 0 <= i < |entries| && entries[i].m68k == a && a != INVALID;
    assert entries[k := e][i] == entries[i];
  }

  lemma NoneAdded(entries: seq<Entry>, k: nat, e: Entry, a: nat)
    requires k < |entries| && Unique(entries) && Unique(entries[k := e])
    requires a in Contents(entries[k := e]) && a != e.m68k
    ensures a in Contents(entries) && a != entries[k].m68k
  {
    var i :| 0 <= i < |entries| && entries[k := e][i].m68k == a && a != INVALID;
    assert entries[i].m68k == a && i != k;
  }

  /** Overwriting a slot forgets its old address and, unless emptied, learns the new one. */
  lemma ReplacedContents(entries: seq<Entry>, k: nat, e: Entry)
    requires k < |entries| && Unique(entries) && Unique(entries[k := e])
    requires e.m68k == INVALID || e.m68k !in Contents(entries)
    ensures var rest := Contents(entries) - {entries[k].m68k};
            Contents(entries[k := e]) == if e.m68k == INVALID then rest else rest[e.m68k := e.arm]
  {
    var next := Contents(entries[k := e]);
    var rest := Contents(entries) - {entries[k].m68k};
    forall a | a in rest
      ensures a in next && (a != e.m68k ==> next[a] == rest[a])
    {
      OthersKept(entries, k, e, a);
    }
    forall a | a in next && a != e.m68k
      ensures a in rest
    {
      NoneAdded(entries, k, e, a);
    }
    assert entries[k := e][k] == e;
  }

  lemma {:induction false} WayFound(c: Cache, address: nat, i: nat)
    requires Shaped(c) && i <= c.ways
    ensures var s, w := SetOf(address, c.sets), WayOf(c, address, i);
            && (w < c.ways ==> Slot(s, w, c.ways) < |c.entries| && c.entries[Slot(s, w, c.ways)].m68k == address)
            && forall j :: i <= j < w ==>
                 Slot(s, j, c.ways) < |c.entries| && c.entries[Slot(s, j, c.ways)].m68k != address
    decreases c.ways - i
  {
    var s := SetOf(address, c.sets);
    if i < c.ways {
      SlotInRange(s, i, c.ways, c.sets);
      WayFound(c, address, i + 1);
    }
  }

  /** A set without the address means a cache without it. */
  lemma MissIsAbsence(c: Cache, address: nat)
    requires Sound(c) && address != INVALID && WayOf(c, address, 0) == c.ways
    ensures address !in Contents(c.entries)
  {
    WayFound(c, address, 0);
    forall k | 0 <= k < |c.entries|
      ensures c.entries[k].m68k != address
    {
      IndexParts(c, k);
    }
  }

  /** A lookup answers what the map holds, and NULL for what it does not. */
  lemma AnswerAgrees(c: Cache, address: nat)
    requires Sound(c) && address != INVALID
    ensures Answer(c, address) == if address in Contents(c.entries) then Contents(c.entries)[address] else 0
  {
    WayFound(c, address, 0);
    if WayOf(c, address, 0) == c.ways {
      MissIsAbsence(c, address);
    }
  }

  lemma TouchKeepsUsable(c: Cache, s: nat, way: nat)
    requires Usable(c) && s < c.sets && way < c.ways
    ensures Usable(c.(alloc := c.alloc[s := Touched(c.alloc[s], way, c.ways)]))
  {
    TouchLeavesAVictim(c.alloc[s], way, c.ways);
  }

  /** A lookup moves no entry, and the next victim of its set is not the way it hit. */
  lemma FindKeepsSound(c: Cache, address: nat)
    requires Sound(c)
    ensures Sound(Found(c, address)) && Found(c, address).entries == c.entries
    ensures var s, w := SetOf(address, c.sets), WayOf(c, address, 0);
            w < c.ways ==> Victim(Found(c, address).alloc[s]) < c.ways && Victim(Found(c, address).alloc[s]) != w
  {
    var s, w := SetOf(address, c.sets), WayOf(c, address, 0);
    if w < c.ways {
      TouchKeepsUsable(c, s, w);
      TouchLeavesAVictim(c.alloc[s], w, c.ways);
    }
  }

  lemma ReplacedPlaced(c: Cache, k: nat, e: Entry)
    requires Shaped(c) && Placed(c) && k < |c.entries|
    requires e.m68k != INVALID ==> k / c.ways == SetOf(e.m68k, c.sets)
    ensures Placed(c.(entries := c.entries[k := e]))
  {
  }

  lemma PlacedIgnoresMasks(c: Cache, d: Cache)
    requires Shaped(c) && Shaped(d) && Placed(c)
    requires d.entries == c.entries && d.ways == c.ways && d.sets == c.sets
    ensures Placed(d)
  {
  }

  /** Inserting after a miss adds the unit and loses at most the victim it replaces. */
  lemma InsertAgrees(c: Cache, address: nat, arm: nat)
    requires Sound(c) && (address == INVALID || address !in Contents(c.entries))
    ensures Sound(Inserted(c, address, arm))
    ensures var rest := Contents(c.entries) - {c.entries[VictimSlot(c, address)].m68k};
            Contents(Inserted(c, address, arm).entries) ==
            if address == INVALID then rest else rest[address := arm]
  {
    var s, k, e := SetOf(address, c.sets), VictimSlot(c, address), Entry(address, arm);
    VictimInRange(c.alloc[s], c.ways);
    SlotInRange(s, Victim(c.alloc[s]), c.ways, c.sets);
    ReplacedUnique(c.entries, k, e);
    ReplacedContents(c.entries, k, e);
    ReplacedPlaced(c, k, e);
    PlacedIgnoresMasks(c.(entries := c.entries[k := e]), Inserted(c, address, arm));
    TouchKeepsUsable(c, s, Victim(c.alloc[s]));
  }

  /** Why an insertion must follow a miss: it keeps addresses unique exactly when no slot but
      the victim holds the address. */
  lemma InsertUniqueIff(c: Cache, address: nat, arm: nat)
    requires Sound(c) && address != INVALID
    ensures Unique(Inserted(c, address, arm).entries) <==>
            forall k :: 0 <= k < |c.entries| && k != VictimSlot(c, address) ==> c.entries[k].m68k != address
  {
    var v, next := VictimSlot(c, address), Inserted(c, address, arm).entries;
    assert next[v].m68k == address;
    if k :| 0 <= k < |c.entries| && k != v && c.entries[k].m68k == address {
      assert next[k].m68k == next[v].m68k;
    }
  }

  lemma ClearAgrees(c: Cache, s: nat, way: nat)
    requires Sound(c) && s < c.sets && way < c.ways
    ensures Slot(s, way, c.ways) < |c.entries| && Sound(Cleared(c, s, way))
    ensures Contents(Cleared(c, s, way).entries) == Contents(c.entries) - {c.entries[Slot(s, way, c.ways)].m68k}
  {
    SlotInRange(s, way, c.ways, c.sets);
    var k := Slot(s, way, c.ways);
    ReplacedUnique(c.entries, k, EMPTY);
    ReplacedContents(c.entries, k, EMPTY);
    ReplacedPlaced(c, k, EMPTY);
    PlacedIgnoresMasks(c.(entries := c.entries[k := EMPTY]), Cleared(c, s, way));
    assert way in Cleared(c, s, way).alloc[s];
    forall t | 0 <= t < c.sets
      ensures HasWay(Cleared(c, s, way).alloc[t], c.ways)
    {
    }
  }

  /** Invalidating an address removes it and nothing else. */
  lemma DropAgrees(c: Cache, address: nat)
    requires Sound(c)
    ensures Sound(Dropped(c, address))
    ensures Contents(Dropped(c, address).entries) == Contents(c.entries) - {address}
  {
    var s, w := SetOf(address, c.sets), WayOf(c, address, 0);
    WayFound(c, address, 0);
    if w < c.ways {
      ClearAgrees(c, s, w);
    } else if address != INVALID {
      MissIsAbsence(c, address);
    }
  }

  /** The address that an invalidation by entry point removes, or the invalid marker. */
  function AddressOfArm(entries: seq<Entry>, arm: nat): nat {
    var k := IndexOfArm(entries, arm, 0);
    if k == |entries| then INVALID else entries[k].m68k
  }

  lemma ClearAtAgrees(c: Cache, k: nat)
    requires Sound(c) && k < |c.entries|
    ensures Sound(ClearedAt(c, k)) && Contents(ClearedAt(c, k).entries) == Contents(c.entries) - {c.entries[k].m68k}
  {
    IndexParts(c, k);
    ClearAgrees(c, k / c.ways, k % c.ways);
  }

  /** Invalidating an entry point removes the first address that leads to it. */
  lemma DropByArmAgrees(c: Cache, arm: nat)
    requires Sound(c)
    ensures Sound(DroppedByArm(c, arm))
    ensures Contents(DroppedByArm(c, arm).entries) == Contents(c.entries) - {AddressOfArm(c.entries, arm)}
  {
    var k := IndexOfArm(c.entries, arm, 0);
    if k < |c.entries| {
      ClearAtAgrees(c, k);
    }
  }

  lemma EmptyAgrees(c: Cache)
    requires Shaped(c) && c.ways >= 2
    ensures Sound(Emptied(c)) && Contents(Emptied(c).entries) == map[]
  {
    var r := Emptied(c);
    forall s | 0 <= s < r.sets
      ensures HasWay(r.alloc[s], r.ways)
    {
      assert 0 in r.alloc[s];
    }
  }
}
