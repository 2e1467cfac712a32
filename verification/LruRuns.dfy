/** The lookup cache over whole runs, and as the C code holds it. */
module LruRuns {
  import opened Words
  import opened Arith
  import opened Lru

  /** A use of the cache. The dispatcher inserts only an address whose lookup missed. */
  datatype Use =
    | Find(address: nat)
    | Insert(address: nat, arm: nat)
    | Drop(address: nat)
    | DropArm(arm: nat)
    | Flush

  /** missed holds the looked-up addresses not inserted since; last maps every address to what
      was last inserted for it and not invalidated since, evictions notwithstanding. */
  datatype State = State(cache: Cache, missed: set<nat>, last: map<nat, nat>)

  ghost predicate Good(s: State) {
    && Sound(s.cache)
    && (forall a :: a in Contents(s.cache.entries) ==> a in s.last && Contents(s.cache.entries)[a] == s.last[a])
    && (forall a :: a in Contents(s.cache.entries) ==> Contents(s.cache.entries)[a] != 0)
    && (forall a :: a in s.missed ==> a !in Contents(s.cache.entries))
    && INVALID !in s.missed && Blank(s.cache.entries)
  }

  /** A slot without an address leads nowhere. */
  ghost predicate Blank(entries: seq<Entry>) {
    forall i :: 0 <= i < |entries| && entries[i].m68k == INVALID ==> entries[i].arm == 0
  }

  /** An insertion follows a miss of the same address and brings a real entry point. */
  predicate Allowed(s: State, u: Use) {
    u.Insert? ==> u.address in s.missed && u.arm != 0
  }

  ghost function Used(s: State, u: Use): (s': State)
    requires Good(s) && Allowed(s, u)
  {
    match u
    case Find(a) =>
      State(Found(s.cache, a), if Answer(s.cache, a) == 0 && a != INVALID then s.missed + {a} else s.missed, s.last)
    case Insert(a, arm) =>
      State(Inserted(s.cache, a, arm), s.missed - {a}, s.last[a := arm])
    case Drop(a) => State(Dropped(s.cache, a), s.missed, s.last - {a})
    case DropArm(arm) =>
      State(DroppedByArm(s.cache, arm), s.missed, s.last - {AddressOfArm(s.cache.entries, arm)})
    case Flush => State(Emptied(s.cache), s.missed, map[])
  }

  lemma FindKeepsGood(s: State, a: nat)
    requires Good(s)
    ensures Good(Used(s, Find(a)))
  {
    FindKeepsSound(s.cache, a);
    if a != INVALID {
      AnswerAgrees(s.cache, a);
    }
  }

  lemma InsertKeepsGood(s: State, a: nat, arm: nat)
    requires Good(s) && a in s.missed && arm != 0
    ensures Good(Used(s, Insert(a, arm)))
  {
    InsertAgrees(s.cache, a, arm);
  }

  lemma UseKeepsGood(s: State, u: Use)
    requires Good(s) && Allowed(s, u)
    ensures Good(Used(s, u))
  {
    match u
    case Find(a) => FindKeepsGood(s, a);
    case Insert(a, arm) => InsertKeepsGood(s, a, arm);
    case Drop(a) => DropAgrees(s.cache, a);
    case DropArm(arm) => DropByArmAgrees(s.cache, arm);
    case Flush => EmptyAgrees(s.cache);
  }

  ghost predicate AllAllowed(s: State, uses: seq<Use>)
    requires Good(s)
    decreases |uses|
  {
    uses == []
    || (Allowed(s, uses[0])
        && (UseKeepsGood(s, uses[0]); AllAllowed(Used(s, uses[0]), uses[1..])))
  }

  ghost function AllUsed(s: State, uses: seq<Use>): (s': State)
    requires Good(s) && AllAllowed(s, uses)
    ensures Good(s')
    decreases |uses|
  {
    if uses == [] then s
    else
      UseKeepsGood(s, uses[0]);
      AllUsed(Used(s, uses[0]), uses[1..])
  }

  ghost predicate Fresh(s: State) {
    Shaped(s.cache) && s.cache.ways >= 2 && s.cache == Emptied(s.cache) && s.missed == {} && s.last == map[]
  }

  /** Where every run starts. */
  lemma FreshIsGood(s: State)
    requires Fresh(s)
    ensures Good(s)
  {
    EmptyAgrees(s.cache);
  }

  /** Over every run of lookups, insertions after a miss and invalidations: no address is held
      twice, the victim the next insertion would take lies in the set, and a hit returns the
      entry point last inserted for the address and not invalidated since. */
  lemma HitsAreCurrent(s0: State, uses: seq<Use>, address: nat)
    requires Good(s0) && AllAllowed(s0, uses) && address != INVALID
    ensures var s := AllUsed(s0, uses);
            && Unique(s.cache.entries)
            && Victim(s.cache.alloc[SetOf(address, s.cache.sets)]) < s.cache.ways
            && (Answer(s.cache, address) != 0 ==>
                  address in s.last && Answer(s.cache, address) == s.last[address])
  {
    var s := AllUsed(s0, uses);
    AnswerAgrees(s.cache, address);
    VictimInRange(s.cache.alloc[SetOf(address, s.cache.sets)], s.cache.ways);
  }

  /** An inserted unit is found until it is invalidated or chosen as a victim. */
  lemma InsertedIsFound(s: State, address: nat, arm: nat)
    requires Good(s) && address in s.missed && arm != 0 && address != INVALID
    ensures Sound(Inserted(s.cache, address, arm)) && Answer(Inserted(s.cache, address, arm), address) == arm
  {
    InsertAgrees(s.cache, address, arm);
    AnswerAgrees(Inserted(s.cache, address, arm), address);
  }

  // ---------------------------------------------------------------- shared entry points

  /** At most one address leads to the entry point. */
  ghost predicate LeadsOnce(contents: map<nat, nat>, arm: nat) {
    forall a, b :: a in contents && b in contents && contents[a] == arm && contents[b] == arm ==> a == b
  }

  /** The first slot that leads to an entry point holds an address. */
  lemma FirstArm(s: State, arm: nat, a: nat)
    requires Good(s) && arm != 0
    requires a in Contents(s.cache.entries) && Contents(s.cache.entries)[a] == arm
    ensures var x := AddressOfArm(s.cache.entries, arm);
            x in Contents(s.cache.entries) && Contents(s.cache.entries)[x] == arm
  {
    var entries := s.cache.entries;
    var i :| 0 <= i < |entries| && entries[i].m68k == a && entries[i].arm == arm;
    var k := IndexOfArm(entries, arm, 0);
    assert k <= i && entries[k].m68k in Contents(entries);
  }

  /** Invalidating an entry point stops at the first slot: afterwards no hit returns it if and
      only if at most one address led to it. */
  lemma InvalidatedArmIsGoneIff(s: State, arm: nat)
    requires Good(s) && arm != 0
    ensures Sound(DroppedByArm(s.cache, arm))
    ensures (forall address :: address != INVALID ==> Answer(DroppedByArm(s.cache, arm), address) != arm)
            <==> LeadsOnce(Contents(s.cache.entries), arm)
  {
    var contents, x, after := Contents(s.cache.entries), AddressOfArm(s.cache.entries, arm), DroppedByArm(s.cache, arm);
    DropByArmAgrees(s.cache, arm);
    forall a | a != INVALID
      ensures Answer(after, a) == arm <==> a in contents && contents[a] == arm && a != x
    {
      AnswerAgrees(after, a);
    }
    forall a | a in contents && contents[a] == arm
      ensures x in contents && contents[x] == arm && a != INVALID
    {
      FirstArm(s, arm, a);
    }
    assert LeadsOnce(contents, arm) ==>
        forall a :: a in contents && contents[a] == arm && x in contents && contents[x] == arm ==> a == x;
  }

  /** The insertion brings an entry point that no address leads to. */
  ghost predicate OwnArm(s: State, u: Use)
    requires Good(s)
  {
    u.Insert? ==> u.arm !in Contents(s.cache.entries).Values
  }

  ghost predicate OwnArms(s: State, uses: seq<Use>)
    requires Good(s) && AllAllowed(s, uses)
    decreases |uses|
  {
    uses == []
    || (OwnArm(s, uses[0]) && (UseKeepsGood(s, uses[0]); OwnArms(Used(s, uses[0]), uses[1..])))
  }

  ghost predicate Apart(contents: map<nat, nat>) {
    forall a, b :: a in contents && b in contents && contents[a] == contents[b] ==> a == b
  }

  lemma UseKeepsApart(s: State, u: Use)
    requires Good(s) && Allowed(s, u) && OwnArm(s, u) && Apart(Contents(s.cache.entries))
    ensures Good(Used(s, u)) && Apart(Contents(Used(s, u).cache.entries))
  {
    UseKeepsGood(s, u);
    match u
    case Find(a) => FindKeepsSound(s.cache, a);
    case Insert(a, arm) => InsertKeepsApart(s, a, arm);
    case Drop(a) => DropAgrees(s.cache, a);
    case DropArm(arm) => DropByArmAgrees(s.cache, arm);
    case Flush => EmptyAgrees(s.cache);
  }

  lemma InsertKeepsApart(s: State, a: nat, arm: nat)
    requires Good(s) && Allowed(s, Insert(a, arm)) && OwnArm(s, Insert(a, arm)) && Apart(Contents(s.cache.entries))
    ensures Good(Used(s, Insert(a, arm))) && Apart(Contents(Used(s, Insert(a, arm)).cache.entries))
  {
    InsertKeepsGood(s, a, arm);
    InsertAgrees(s.cache, a, arm);
    AddedApart(Contents(s.cache.entries), s.cache.entries[VictimSlot(s.cache, a)].m68k, a, arm);
  }

  lemma AddedApart(c: map<nat, nat>, lost: nat, a: nat, arm: nat)
    requires Apart(c) && arm !in c.Values
    ensures Apart((c - {lost})[a := arm])
  {
  }

  /** If every insertion of a run brings an entry point of its own, then at its end an
      invalidated entry point is gone. */
  lemma {:induction false} InvalidatedArmIsGone(s: State, uses: seq<Use>, arm: nat, address: nat)
    requires Good(s) && AllAllowed(s, uses) && OwnArms(s, uses) && Apart(Contents(s.cache.entries))
    requires arm != 0 && address != INVALID
    ensures var c := DroppedByArm(AllUsed(s, uses).cache, arm);
            Sound(c) && Answer(c, address) != arm
    decreases |uses|
  {
    if uses == [] {
      InvalidatedArmIsGoneIff(s, arm);
    } else {
      UseKeepsApart(s, uses[0]);
      InvalidatedArmIsGone(Used(s, uses[0]), uses[1..], arm, address);
    }
  }

  // ---------------------------------------------------------------- the arrays

  datatype Unit = Unit(epoch: nat, address: nat, arm: nat)

  class LruCache {
    const ways: nat
    const sets: nat
    const cache: array<Entry>
    const alloc: array<Mask>

    ghost function Abs(): Cache
      reads this, cache, alloc
    {
      Cache(ways, sets, cache[..], alloc[..])
    }

    ghost predicate Valid()
      reads this, cache, alloc
    {
      Sound(Abs())
    }

    /** Both arrays allocated and LRU_InvalidateAll run over them. */
    constructor (ways: nat, sets: nat)
      requires 2 <= ways <= MASK_BITS && sets > 0
      ensures Valid() && fresh(cache) && fresh(alloc)
      ensures this.ways == ways && this.sets == sets && Abs() == Emptied(Abs())
    {
      this.ways, this.sets := ways, sets;
      cache := new Entry[sets * ways](_ => EMPTY);
      alloc := new Mask[sets](_ => BitsBelow(MASK_BITS));
      new;
      EmptyAgrees(Abs());
      assert Abs() == Emptied(Abs());
    }

    method Touch(s: nat, way: nat)
      requires Shaped(Abs()) && s < sets && way < ways
      modifies alloc
      ensures alloc[..] == old(alloc[..])[s := Touched(old(alloc[s]), way, ways)]
    {
      var current := alloc[s] - {way};
      var any := false;
      for i := 0 to ways
        invariant any <==> exists k :: k in current && k < i
      {
        any := any || i in current;
      }
      alloc[s] := if any then current else BitsBelow(MASK_BITS) - {way};
    }

    method FindBlock(address: nat) returns (arm: nat)
      requires Valid()
      modifies alloc
      ensures Valid() && Abs() == Found(old(Abs()), address)
      ensures arm == Answer(old(Abs()), address)
    {
      ghost var before := Abs();
      FindKeepsSound(before, address);
      var s := SetOf(address, sets);
      var i := 0;
      while i < ways
        invariant i <= ways && Abs() == before
        invariant WayOf(before, address, i) == WayOf(before, address, 0)
      {
        SlotInRange(s, i, ways, sets);
        if cache[Slot(s, i, ways)].m68k == address {
          Touch(s, i);
          assert Abs() == Found(before, address);
          return cache[Slot(s, i, ways)].arm;
        }
        i := i + 1;
      }
      arm := 0;
    }

    method InsertBlock(address: nat, arm: nat)
      requires Valid() && (address == INVALID || address !in Contents(cache[..]))
      modifies cache, alloc
      ensures Valid() && Abs() == Inserted(old(Abs()), address, arm)
    {
      ghost var before := Abs();
      InsertAgrees(before, address, arm);
      var s := SetOf(address, sets);
      var way := CountLeadingZeros(alloc[s]);
      VictimInRange(alloc[s], ways);
      SlotInRange(s, way, ways, sets);
      cache[Slot(s, way, ways)] := Entry(address, arm);
      Touch(s, way);
      assert Abs() == Inserted(before, address, arm);
    }

    static method CountLeadingZeros(m: Mask) returns (z: nat)
      ensures z == Victim(m)
    {
      z := 0;
      while z < MASK_BITS && z !in m
        invariant z <= MASK_BITS && LeadingZeros(m, z) == Victim(m)
      {
        z := z + 1;
      }
    }

    method Clear(s: nat, way: nat)
      requires Shaped(Abs()) && s < sets && way < ways
      modifies cache, alloc
      ensures Abs() == Cleared(old(Abs()), s, way)
    {
      SlotInRange(s, way, ways, sets);
      cache[Slot(s, way, ways)] := EMPTY;
      alloc[s] := alloc[s] + {way};
    }

    method ClearAt(k: nat)
      requires Shaped(Abs()) && k < cache.Length
      modifies cache, alloc
      ensures Abs() == ClearedAt(old(Abs()), k)
    {
      IndexParts(Abs(), k);
      Clear(k / ways, k % ways);
    }

    method InvalidateByArmAddress(arm: nat)
      requires Valid()
      modifies cache, alloc
      ensures Valid() && Abs() == DroppedByArm(old(Abs()), arm)
    {
      ghost var before := Abs();
      DropByArmAgrees(before, arm);
      var k := 0;
      while k < cache.Length
        invariant k <= cache.Length && Abs() == before
        invariant IndexOfArm(before.entries, arm, k) == IndexOfArm(before.entries, arm, 0)
      {
        if cache[k].arm == arm {
          ClearAt(k);
          break;
        }
        k := k + 1;
      }
    }

    method InvalidateByM68kAddress(address: nat)
      requires Valid()
      modifies cache, alloc
      ensures Valid() && Abs() == Dropped(old(Abs()), address)
    {
      ghost var before := Abs();
      DropAgrees(before, address);
      var s := SetOf(address, sets);
      var i := 0;
      while i < ways
        invariant i <= ways && Abs() == before
        invariant WayOf(before, address, i) == WayOf(before, address, 0)
      {
        SlotInRange(s, i, ways, sets);
        if cache[Slot(s, i, ways)].m68k == address {
          Clear(s, i);
          break;
        }
        i := i + 1;
      }
    }

    method InvalidateAll()
      requires Valid()
      modifies cache, alloc
      ensures Valid() && Abs() == Emptied(old(Abs()))
    {
      EmptyAgrees(Abs());
      EmptySlots();
      FreeWays();
    }

    method EmptySlots()
      modifies cache
      ensures cache[..] == seq(cache.Length, _ => EMPTY)
    {
      for i := 0 to cache.Length
        invariant cache[..i] == seq(i, _ => EMPTY)
      {
        cache[i] := EMPTY;
        assert cache[..i + 1] == cache[..i] + [EMPTY];
      }
      assert cache[..] == cache[..cache.Length];
    }

    method FreeWays()
      modifies alloc
      ensures alloc[..] == seq(alloc.Length, _ => BitsBelow(MASK_BITS))
    {
      for i := 0 to alloc.Length
        invariant alloc[..i] == seq(i, _ => BitsBelow(MASK_BITS))
      {
        alloc[i] := BitsBelow(MASK_BITS);
        assert alloc[..i + 1] == alloc[..i] + [BitsBelow(MASK_BITS)];
      }
      assert alloc[..] == alloc[..alloc.Length];
    }

    /** FindUnitQuick: the cache first, then the bucket, whose first unit of this epoch and address
        is put into the cache. */
    method FindUnitQuick(pc: nat, epoch: nat, bucket: seq<Unit>) returns (arm: nat)
      requires Valid()
      requires forall i :: 0 <= i < |bucket| ==> bucket[i].arm != 0
      requires forall a :: a in Contents(cache[..]) ==> Contents(cache[..])[a] != 0
      modifies cache, alloc
      ensures Valid()
      ensures Answer(old(Abs()), pc) != 0 ==> arm == Answer(old(Abs()), pc) && Abs() == Found(old(Abs()), pc)
      ensures Answer(old(Abs()), pc) == 0 ==>
                (arm == 0 <==> forall i :: 0 <= i < |bucket| ==> bucket[i].epoch != epoch || bucket[i].address != pc)
      ensures Answer(old(Abs()), pc) == 0 && arm != 0 ==>
                exists i :: 0 <= i < |bucket| && bucket[i] == Unit(epoch, pc, arm)
                            && forall j :: 0 <= j < i ==> bucket[j].epoch != epoch || bucket[j].address != pc
      ensures Answer(old(Abs()), pc) == 0 ==>
                var looked := Found(old(Abs()), pc);
                Usable(looked) && Abs() == if arm == 0 then looked else Inserted(looked, pc, arm)
      ensures pc != INVALID ==>
                && (pc in old(Contents(cache[..])) ==> arm == old(Contents(cache[..]))[pc])
                && (arm != 0 ==> pc in Contents(cache[..]) && Contents(cache[..])[pc] == arm)
    {
      if pc != INVALID {
        AnswerAgrees(Abs(), pc);
      }
      FindKeepsSound(Abs(), pc);
      arm := FindBlock(pc);
      if arm != 0 {
        return;
      }
      ghost var looked := Abs();
      var i := 0;
      while i < |bucket|
        invariant 0 <= i <= |bucket| && Valid() && Abs() == looked
        invariant forall j :: 0 <= j < i ==> bucket[j].epoch != epoch || bucket[j].address != pc
      {
        if bucket[i].epoch == epoch && bucket[i].address == pc {
          InsertAgrees(looked, pc, bucket[i].arm);
          InsertBlock(pc, bucket[i].arm);
          assert bucket[i] == Unit(epoch, pc, bucket[i].arm);
          return bucket[i].arm;
        }
        i := i + 1;
      }
    }
  }
}
