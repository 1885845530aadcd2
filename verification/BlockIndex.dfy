/** The block index of an implicit producer: a ring of pointers to entries that grows by doubling,
    in which the entry of a block is found by arithmetic on the block's first element index.

    Element indices are 64-bit and wrap; blocks are numbered by integers that do not. The ring,
    read from the slot after the tail round to the tail, is always three stretches: entries of
    blocks that were inserted and rewound again, entries never used, and the entries of the last
    blocks in order. `x & (capacity - 1)` is the remainder, since capacities are powers of two.
 */
module BlockIndexes {
  import opened Words
  import opened Options
  import opened Permutations

  const BLOCK_SIZE: int := 32
  const INITIAL_SIZE: int := 32
  const INVALID_BASE: int := 1

  /** 2^59: the number of blocks that 64-bit element indices can tell apart. */
  const MAX_CAPACITY: int := 0x800_0000_0000_0000

  datatype IndexEntry = IndexEntry(key: nat, value: Option<nat>)

  function Start(m: int): (r: nat)
    ensures r < WORD
  {
    Wrap(BLOCK_SIZE * m)
  }

  /** The index of the r-th element of block m. */
  function Element(m: int, r: nat): (i: nat)
    ensures i < WORD
  {
    Wrap(BLOCK_SIZE * m + r)
  }

  /** index belongs to block m. */
  ghost predicate ElementOf(index: nat, m: int)
  {
    exists r: nat :: r < BLOCK_SIZE && index == Element(m, r)
  }

  // ---------------------------------------------------------------------------------
  // Arithmetic
  // ---------------------------------------------------------------------------------

  ghost predicate PowerOfTwo(c: int)
    decreases c
  {
    c == 1 || (c > 1 && c % 2 == 0 && PowerOfTwo(c / 2))
  }

  /** A power of two up to 2^59 divides 2^59 ... */
  lemma {:induction false} Divides(c: int, top: int)
    requires PowerOfTwo(c) && PowerOfTwo(top) && c <= top
    ensures c > 0 && top % c == 0
    decreases top
  {
    if c == 1 {
    } else {
      Divides(c / 2, top / 2);
      var q := (top / 2) / (c / 2);
      assert top / 2 == (c / 2) * q;
      assert top == c * q by { assert top == 2 * ((c / 2) * q) && c == 2 * (c / 2); }
      ModMultiple(c, q);
    }
  }

  lemma ModMultiple(c: int, q: int)
    requires c > 0
    ensures (c * q) % c == 0
  {
    RemainderIs(c * q, c, q, 0);
  }

  lemma MaxIsPower()
    ensures PowerOfTwo(MAX_CAPACITY)
  {
    assert PowerOfTwo(0x1);
    assert PowerOfTwo(0x10) by { assert PowerOfTwo(0x4); }
    assert PowerOfTwo(0x800) by { assert PowerOfTwo(0x200) by { assert PowerOfTwo(0x80) by { assert PowerOfTwo(0x20); } } }
    Times16(0x800);
    Times16(0x8000);
    Times16(0x8_0000);
    Times16(0x80_0000);
    Times16(0x800_0000);
    Times16(0x8000_0000);
    Times16(0x8_0000_0000);
    Times16(0x80_0000_0000);
    Times16(0x800_0000_0000);
    Times16(0x8000_0000_0000);
    Times16(0x8_0000_0000_0000);
    Times16(0x80_0000_0000_0000);
  }

  lemma Times16(c: int)
    requires PowerOfTwo(c)
    ensures PowerOfTwo(16 * c)
  {
    TimesTwo(c);
    TimesTwo(2 * c);
    TimesTwo(4 * c);
    TimesTwo(8 * c);
  }

  lemma TimesTwo(c: int)
    requires PowerOfTwo(c)
    ensures PowerOfTwo(2 * c)
  {
    assert 2 * c / 2 == c && 2 * c % 2 == 0;
  }

  /** ... so adding 2^59 to a position leaves its remainder alone. */
  lemma AddMax(x: int, c: int)
    requires 0 < c && MAX_CAPACITY % c == 0
    ensures (x + MAX_CAPACITY) % c == x % c
  {
    var q := MAX_CAPACITY / c;
    assert MAX_CAPACITY == c * q;
    AddMultiple(x, c, q);
  }

  lemma {:induction false} AddMultiple(x: int, c: int, q: int)
    requires c > 0 && q >= 0
    ensures (x + c * q) % c == x % c
    decreases q
  {
    if q > 0 {
      AddMultiple(x, c, q - 1);
      assert x + c * q == (x + c * (q - 1)) + c;
      OneRound(x + c * (q - 1), c);
    }
  }

  lemma OneRound(x: int, c: int)
    requires c > 0
    ensures (x + c) % c == x % c
  {
    var q, r := x / c, x % c;
    assert x + c == c * (q + 1) + r;
    RemainderIs(x + c, c, q + 1, r);
  }

  lemma RemainderIs(x: int, c: int, q: int, r: int)
    requires c > 0 && x == c * q + r && 0 <= r < c
    ensures x % c == r
  {
    var k := x / c;
    assert x == c * k + x % c;
    assert c * (k - q) == c * k - c * q;
    Small(c, k - q);
  }

  lemma Small(c: int, t: int)
    requires c > 0 && -c < c * t < c
    ensures t == 0
  {
    assert t >= 1 ==> c * t >= c;
    assert t <= -1 ==> c * t <= -c;
  }

  /** The offset the lookup computes: the signed distance is divided as an unsigned word. */
  function Offset(index: nat, tailBase: nat): nat
    requires index < WORD
  {
    Wrap((index - index % BLOCK_SIZE) - tailBase) / BLOCK_SIZE
  }

  lemma BaseOf(index: nat, m: int)
    requires ElementOf(index, m)
    ensures index < WORD && index - index % BLOCK_SIZE == Start(m)
  {
    var r: nat :| r < BLOCK_SIZE && index == Element(m, r);
    var k := StartAligned(m);
    WrapAdd(BLOCK_SIZE * m, r);
    assert index == 32 * k + r;
  }

  lemma StartAligned(m: int) returns (k: nat)
    ensures Start(m) == 32 * k && k < MAX_CAPACITY
  {
    var q := 32 * m / WORD;
    assert Start(m) == 32 * m - WORD * q;
    k := m - 0x800_0000_0000_0000 * q;
  }

  lemma OffsetIs(index: nat, m: int, top: int)
    requires ElementOf(index, m) && -MAX_CAPACITY < m - top < MAX_CAPACITY
    ensures index < WORD
    ensures Offset(index, Start(top)) == if m >= top then m - top else MAX_CAPACITY + (m - top)
  {
    BaseOf(index, m);
    WrapSub(BLOCK_SIZE * m, BLOCK_SIZE * top);
    assert BLOCK_SIZE * m - BLOCK_SIZE * top == 32 * (m - top);
  }

  // ---------------------------------------------------------------------------------
  // The ring
  // ---------------------------------------------------------------------------------

  /** The slots from the one after the tail round to the tail. */
  function Unrolled(index: seq<nat>, tail: nat): (r: seq<nat>)
    requires tail < |index|
    ensures |r| == |index|
  {
    index[tail + 1..] + index[..tail + 1]
  }

  /** The slot j after the tail, or -j before it. */
  lemma SlotAt(index: seq<nat>, tail: nat, j: int)
    requires tail < |index| && -|index| < j < |index|
    ensures var r := Unrolled(index, tail); var p := (tail + j) % |index|;
            index[p] == if j <= 0 then r[|index| - 1 + j] else r[j - 1]
  {
    var c := |index|;
    var p := if tail + j < 0 then tail + j + c else if tail + j >= c then tail + j - c else tail + j;
    var q := if tail + j < 0 then -1 else if tail + j >= c then 1 else 0;
    assert tail + j == c * q + p;
    RemainderIs(tail + j, c, q, p);
  }

  lemma NextSlot(index: seq<nat>, tail: nat)
    requires tail < |index|
    ensures var t := (tail + 1) % |index|; var r := Unrolled(index, tail);
            t < |index| && index[t] == r[0] && Unrolled(index, t) == r[1..] + [r[0]]
  {
    if tail + 1 == |index| {
      assert (tail + 1) % |index| == 0 by { RemainderIs(tail + 1, |index|, 1, 0); }
    } else {
      assert (tail + 1) % |index| == tail + 1 by { RemainderIs(tail + 1, |index|, 0, tail + 1); }
    }
  }

  lemma PreviousSlot(index: seq<nat>, tail: nat)
    requires tail < |index|
    ensures var t := (tail - 1) % |index|; var r := Unrolled(index, tail);
            t < |index| && Unrolled(index, t) == [r[|r| - 1]] + r[..|r| - 1]
  {
    if tail == 0 {
      assert (tail - 1) % |index| == |index| - 1 by { RemainderIs(-1, |index|, -1, |index| - 1); }
    } else {
      assert (tail - 1) % |index| == tail - 1 by { RemainderIs(tail - 1, |index|, 0, tail - 1); }
    }
  }

  /** The three stretches of a ring whose newest entry is that of block top. */
  datatype Ring = Ring(above: seq<nat>, unused: seq<nat>, below: seq<nat>, top: int)

  function Slots(r: Ring): seq<nat>
  {
    r.above + r.unused + r.below
  }

  predicate Covers(r: Ring, m: int)
  {
    r.top - |r.below| < m <= r.top + |r.above|
  }

  /** The entry of block m. */
  function EntryFor(r: Ring, m: int): nat
    requires Covers(r, m)
  {
    if m <= r.top then r.below[|r.below| - 1 + (m - r.top)] else r.above[m - r.top - 1]
  }

  /** The slot after the tail becomes the tail, as the entry of the next block. */
  function InsertRing(r: Ring): Ring
    requires Slots(r) != []
  {
    var id := Slots(r)[0];
    if r.above != [] then Ring(r.above[1..], r.unused, r.below + [id], r.top + 1)
    else if r.unused != [] then Ring([], r.unused[1..], r.below + [id], r.top + 1)
    else Ring([], [], r.below[1..] + [id], r.top + 1)
  }

  /** The tail moves back one slot; the entry keeps its block. */
  function RewindRing(r: Ring): Ring
    requires r.below != []
  {
    var n := |r.below| - 1;
    Ring([r.below[n]] + r.above, r.unused, r.below[..n], r.top - 1)
  }

  lemma Inserted(r: Ring) returns (s: Ring)
    requires Slots(r) != []
    ensures s == InsertRing(r)
    ensures Slots(s) == Slots(r)[1..] + [Slots(r)[0]] && s.top == r.top + 1
    ensures s.below != [] && s.below[|s.below| - 1] == Slots(r)[0]
    ensures forall m :: Covers(s, m) && m != s.top ==> Covers(r, m) && EntryFor(s, m) == EntryFor(r, m)
    ensures forall m :: Covers(r, m) && !Covers(s, m) ==> EntryFor(r, m) == Slots(r)[0]
    ensures Covers(r, s.top) ==> EntryFor(r, s.top) == Slots(r)[0]
    ensures forall id :: id in s.unused ==> id in r.unused
  {
    s := InsertRing(r);
    assert Slots(s) == Slots(r)[1..] + [Slots(r)[0]];
  }

  lemma Rewound(r: Ring) returns (s: Ring)
    requires r.below != []
    ensures s == RewindRing(r)
    ensures Slots(s) == [Slots(r)[|Slots(r)| - 1]] + Slots(r)[..|Slots(r)| - 1] && s.top == r.top - 1
    ensures s.unused == r.unused
    ensures forall m :: Covers(s, m) <==> Covers(r, m)
    ensures forall m :: Covers(s, m) ==> EntryFor(s, m) == EntryFor(r, m)
  {
    s := RewindRing(r);
    assert Slots(s) == [Slots(r)[|Slots(r)| - 1]] + Slots(r)[..|Slots(r)| - 1];
  }

  lemma EntryForInjective(r: Ring, m: int, n: int)
    requires Covers(r, m) && Covers(r, n) && m != n
    requires NoRepeats(Slots(r))
    ensures EntryFor(r, m) != EntryFor(r, n) && EntryFor(r, m) in Slots(r) && EntryFor(r, m) !in r.unused
  {
    var i, j := PlaceOf(r, m), PlaceOf(r, n);
    assert Slots(r)[i] == EntryFor(r, m) && Slots(r)[j] == EntryFor(r, n);
    EntryNotUnused(r, m);
  }

  /** Where in the ring the entry of block m lies. */
  function PlaceOf(r: Ring, m: int): (i: nat)
    requires Covers(r, m)
    ensures i < |Slots(r)| && Slots(r)[i] == EntryFor(r, m)
    ensures i < |r.above| || i >= |r.above| + |r.unused|
  {
    if m <= r.top then |r.above| + |r.unused| + (|r.below| - 1 + (m - r.top)) else m - r.top - 1
  }

  lemma EntryNotUnused(r: Ring, m: int)
    requires Covers(r, m)
    requires NoRepeats(Slots(r))
    ensures EntryFor(r, m) !in r.unused
  {
    forall k | 0 <= k < |r.unused|
      ensures r.unused[k] != EntryFor(r, m)
    {
      assert Slots(r)[|r.above| + k] == r.unused[k];
      assert Slots(r)[PlaceOf(r, m)] == EntryFor(r, m);
    }
  }

  /** Everything the index keeps: the ring, the own entry of every live block, and the blocks
      whose entry has no value yet. */
  datatype Shape = Shape(ring: Ring, home: map<int, nat>, unset: set<int>)

  predicate Fits(ids: seq<nat>, n: nat)
  {
    forall i :: 0 <= i < |ids| ==> ids[i] < n
  }

  ghost predicate Sound(index: seq<nat>, tail: nat, entries: seq<IndexEntry>, x: Shape)
  {
    && 1 < |index| <= MAX_CAPACITY && PowerOfTwo(|index|) && tail < |index|
    && Unrolled(index, tail) == Slots(x.ring)
    && EntriesSound(entries, x)
  }

  ghost predicate EntriesSound(entries: seq<IndexEntry>, x: Shape)
  {
    && NoRepeats(Slots(x.ring)) && Fits(Slots(x.ring), |entries|)
    && (forall id :: id in x.ring.unused ==> id < |entries| && entries[id].key == INVALID_BASE)
    && (forall m :: Covers(x.ring, m) ==> BlockSound(entries, x, m))
    && (forall m :: m in x.home || m in x.unset ==> Covers(x.ring, m))
  }

  /** The entry of block m has its key; it has a value exactly if the block is live. */
  ghost predicate BlockSound(entries: seq<IndexEntry>, x: Shape, m: int)
    requires Covers(x.ring, m)
  {
    var id := EntryFor(x.ring, m);
    && id < |entries| && entries[id].key == Start(m)
    && (m in x.home ==> x.home[m] == id && m !in x.unset)
    && (m !in x.unset ==> (entries[id].value.Some? <==> m in x.home))
  }

  lemma StartIsNotInvalid(m: int)
    ensures Start(m) != INVALID_BASE
  {
    var k := StartAligned(m);
  }

  /** A reusable entry belongs to no live block. */
  lemma ReusableIsFree(entries: seq<IndexEntry>, x: Shape, id: nat)
    requires EntriesSound(entries, x) && id < |entries| && x.unset == {}
    requires entries[id].key == INVALID_BASE || entries[id].value == None
    ensures forall m :: Covers(x.ring, m) && EntryFor(x.ring, m) == id ==> m !in x.home
  {
    forall m | Covers(x.ring, m) && EntryFor(x.ring, m) == id
      ensures m !in x.home
    {
      assert BlockSound(entries, x, m);
      StartIsNotInvalid(m);
    }
  }

  lemma InsertKeeps(entries: seq<IndexEntry>, x: Shape, s: Ring, id: nat)
    requires EntriesSound(entries, x) && Slots(x.ring) != [] && id == Slots(x.ring)[0] && x.unset == {}
    requires entries[id].key == INVALID_BASE || entries[id].value == None
    requires forall m :: m in x.home ==> m <= x.ring.top
    requires Slots(s) == Slots(x.ring)[1..] + [id] && s.top == x.ring.top + 1
    requires s.below != [] && s.below[|s.below| - 1] == id
    requires forall m :: Covers(s, m) && m != s.top ==> Covers(x.ring, m) && EntryFor(s, m) == EntryFor(x.ring, m)
    requires forall m :: Covers(x.ring, m) && !Covers(s, m) ==> EntryFor(x.ring, m) == id
    requires forall k :: k in s.unused ==> k in x.ring.unused
    ensures EntriesSound(entries[id := entries[id].(key := Start(s.top))], Shape(s, x.home, {s.top}))
  {
    var after := entries[id := entries[id].(key := Start(s.top))];
    var y := Shape(s, x.home, {s.top});
    ReusableIsFree(entries, x, id);
    RotatedDistinct(Slots(x.ring), |entries|);
    assert EntryFor(s, s.top) == id;
    EntryNotUnused(s, s.top);
    forall m | Covers(s, m)
      ensures BlockSound(after, y, m)
    {
      if m != s.top {
        assert BlockSound(entries, x, m);
        EntryForInjective(s, m, s.top);
      }
    }
  }

  lemma RotatedDistinct(ids: seq<nat>, n: nat)
    requires ids != [] && NoRepeats(ids) && Fits(ids, n)
    ensures NoRepeats(ids[1..] + [ids[0]]) && Fits(ids[1..] + [ids[0]], n)
  {
  }

  lemma RotatedBackDistinct(ids: seq<nat>, n: nat)
    requires ids != [] && NoRepeats(ids) && Fits(ids, n)
    ensures NoRepeats([ids[|ids| - 1]] + ids[..|ids| - 1]) && Fits([ids[|ids| - 1]] + ids[..|ids| - 1], n)
  {
  }

  lemma RewindKeeps(entries: seq<IndexEntry>, x: Shape, s: Ring)
    requires EntriesSound(entries, x) && x.ring.below != []
    requires Slots(s) == [Slots(x.ring)[|Slots(x.ring)| - 1]] + Slots(x.ring)[..|Slots(x.ring)| - 1] && s.unused == x.ring.unused
    requires forall m :: Covers(s, m) <==> Covers(x.ring, m)
    requires forall m :: Covers(s, m) ==> EntryFor(s, m) == EntryFor(x.ring, m)
    ensures EntriesSound(entries, x.(ring := s))
  {
    RotatedBackDistinct(Slots(x.ring), |entries|);
    forall m | Covers(s, m)
      ensures BlockSound(entries, x.(ring := s), m)
    {
      assert BlockSound(entries, x, m);
    }
  }

  /** Storing a value into the entry of block m touches no other block. */
  lemma StoreKeeps(entries: seq<IndexEntry>, x: Shape, m: int, value: Option<nat>)
    requires EntriesSound(entries, x) && Covers(x.ring, m)
    ensures var id := EntryFor(x.ring, m);
            id < |entries| &&
            EntriesSound(entries[id := entries[id].(value := value)],
                         Shape(x.ring, if value.Some? then x.home[m := id] else x.home - {m}, x.unset - {m}))
  {
    assert BlockSound(entries, x, m);
    var id := EntryFor(x.ring, m);
    var after := entries[id := entries[id].(value := value)];
    var y := Shape(x.ring, if value.Some? then x.home[m := id] else x.home - {m}, x.unset - {m});
    forall n | Covers(x.ring, n)
      ensures BlockSound(after, y, n)
    {
      assert BlockSound(entries, x, n);
      if n != m {
        EntryForInjective(x.ring, n, m);
      }
    }
  }

  /** When no entry is reusable the ring is full of the entries of the last blocks. */
  lemma FullRing(entries: seq<IndexEntry>, x: Shape)
    requires EntriesSound(entries, x) && Slots(x.ring) != [] && x.unset == {}
    requires forall m :: m in x.home ==> m <= x.ring.top
    requires entries[Slots(x.ring)[0]].key != INVALID_BASE && entries[Slots(x.ring)[0]].value != None
    ensures x.ring.above == [] && x.ring.unused == [] && Slots(x.ring) == x.ring.below
  {
    FirstSlot(x.ring);
    assert x.ring.above != [] ==> BlockSound(entries, x, x.ring.top + 1);
    assert [] + x.ring.below == x.ring.below;
  }

  lemma FirstSlot(r: Ring)
    requires Slots(r) != []
    ensures r.above != [] ==> Covers(r, r.top + 1) && Slots(r)[0] == EntryFor(r, r.top + 1)
    ensures r.above == [] && r.unused != [] ==> Slots(r)[0] in r.unused
  {
    if r.above == [] && r.unused != [] {
      assert Slots(r)[0] == r.unused[0];
    }
  }

  function FreshIds(from: nat, count: nat): (r: seq<nat>)
    ensures |r| == count && forall i :: 0 <= i < count ==> r[i] == from + i
  {
    seq(count, i => from + i)
  }

  function FreshEntries(values: seq<Option<nat>>): (r: seq<IndexEntry>)
    ensures |r| == |values| && forall i :: 0 <= i < |values| ==> r[i] == IndexEntry(INVALID_BASE, values[i])
  {
    seq(|values|, i requires 0 <= i < |values| => IndexEntry(INVALID_BASE, values[i]))
  }

  /** More entries in the heap change nothing for the blocks already there. */
  lemma BlockStaysSound(entries: seq<IndexEntry>, more: seq<IndexEntry>, x: Shape, ring: Ring, m: int)
    requires Covers(x.ring, m) && BlockSound(entries, x, m)
    requires Covers(ring, m) && EntryFor(ring, m) == EntryFor(x.ring, m)
    ensures BlockSound(entries + more, x.(ring := ring), m)
  {
    var id := EntryFor(ring, m);
    assert (entries + more)[id] == entries[id];
  }

  lemma MoreAreUnused(entries: seq<IndexEntry>, values: seq<Option<nat>>)
    ensures forall id :: id in FreshIds(|entries|, |values|) ==>
              id < |entries + FreshEntries(values)| && (entries + FreshEntries(values))[id].key == INVALID_BASE
  {
    forall id | id in FreshIds(|entries|, |values|)
      ensures id < |entries + FreshEntries(values)| && (entries + FreshEntries(values))[id].key == INVALID_BASE
    {
      var k :| 0 <= k < |values| && FreshIds(|entries|, |values|)[k] == id;
      assert (entries + FreshEntries(values))[id] == FreshEntries(values)[k];
    }
  }

  lemma SameBelow(r: Ring, s: Ring, m: int)
    requires r.above == [] && s.above == [] && r.below == s.below && r.top == s.top && Covers(s, m)
    ensures Covers(r, m) && EntryFor(r, m) == EntryFor(s, m)
  {
  }

  lemma GrowBlocks(entries: seq<IndexEntry>, more: seq<IndexEntry>, x: Shape, grown: Ring)
    requires forall m :: Covers(x.ring, m) ==> BlockSound(entries, x, m)
    requires x.ring.above == [] && grown.above == [] && grown.below == x.ring.below && grown.top == x.ring.top
    ensures forall m :: Covers(grown, m) ==> BlockSound(entries + more, x.(ring := grown), m)
  {
    forall m | Covers(grown, m)
      ensures BlockSound(entries + more, x.(ring := grown), m)
    {
      SameBelow(x.ring, grown, m);
      assert BlockSound(entries, x, m);
      BlockStaysSound(entries, more, x, grown, m);
    }
  }

  /** Doubling a full ring: the old entries stay where they are, new ones come in between. */
  lemma GrowKeeps(entries: seq<IndexEntry>, x: Shape, values: seq<Option<nat>>, grown: Ring)
    requires EntriesSound(entries, x) && x.ring.above == [] && x.ring.unused == []
    requires grown == Ring([], FreshIds(|entries|, |values|), x.ring.below, x.ring.top)
    ensures EntriesSound(entries + FreshEntries(values), x.(ring := grown))
  {
    GrowBlocks(entries, FreshEntries(values), x, grown);
    MoreAreUnused(entries, values);
    assert NoRepeats(Slots(grown)) && Fits(Slots(grown), |entries| + |values|) by {
      GrownSlots(x.ring, grown);
      ExtraDistinct(x.ring.below, |entries|, |values|);
    }
    assert forall m :: Covers(x.ring, m) ==> Covers(grown, m);
  }

  lemma GrownSlots(r: Ring, s: Ring)
    requires r.above == [] && r.unused == [] && s.above == [] && s.below == r.below
    ensures Slots(r) == r.below && Slots(s) == s.unused + r.below
  {
  }

  lemma ExtraDistinct(ids: seq<nat>, n: nat, count: nat)
    requires NoRepeats(ids) && Fits(ids, n)
    ensures NoRepeats(FreshIds(n, count) + ids) && Fits(FreshIds(n, count) + ids, n + count)
  {
    var all := FreshIds(n, count) + ids;
    forall i, j | 0 <= i < j < |all|
      ensures all[i] != all[j]
    {
      assert i >= count ==> all[i] == ids[i - count];
      assert j >= count ==> all[j] == ids[j - count];
    }
  }

  lemma GrownUnrolled(index: seq<nat>, tail: nat, extra: seq<nat>)
    requires tail < |index|
    ensures Unrolled(Unrolled(index, tail) + extra, |index| - 1) == extra + Unrolled(index, tail)
  {
    var all := Unrolled(index, tail) + extra;
    assert all[|index|..] == extra && all[..|index|] == Unrolled(index, tail);
  }

  lemma DoubleFits(c: int)
    requires PowerOfTwo(c) && c < MAX_CAPACITY
    ensures PowerOfTwo(2 * c) && 2 * c <= MAX_CAPACITY
  {
    MaxIsPower();
    Divides(c, MAX_CAPACITY);
    var q := MAX_CAPACITY / c;
    assert MAX_CAPACITY == c * q;
    assert q >= 2 by { assert q <= 1 ==> c * q <= c; }
    assert c * q >= c * 2;
  }

  /** get_block_index_index_for_index. */
  function Find(index: seq<nat>, tail: nat, tailBase: nat, i: nat): nat
    requires tail < |index| && i < WORD
  {
    Wrap(tail + Offset(i, tailBase)) % |index|
  }

  /** The entry of block m stands as far from the tail as m is from the top. */
  lemma EntrySlot(index: seq<nat>, tail: nat, r: Ring, m: int)
    requires tail < |index| && Unrolled(index, tail) == Slots(r) && r.below != [] && Covers(r, m)
    ensures index[(tail + (m - r.top)) % |index|] == EntryFor(r, m)
  {
    assert |Slots(r)| == |index|;
    SlotAt(index, tail, m - r.top);
    assert Slots(r)[PlaceOf(r, m)] == EntryFor(r, m);
  }

  lemma LookupFinds(index: seq<nat>, tail: nat, entries: seq<IndexEntry>, x: Shape, m: int, i: nat)
    requires Sound(index, tail, entries, x) && x.ring.below != [] && Covers(x.ring, m) && ElementOf(i, m)
    ensures index[tail] < |entries| && i < WORD
    ensures var p := Find(index, tail, entries[index[tail]].key, i); p < |index| && index[p] == EntryFor(x.ring, m)
  {
    var r, c := x.ring, |index|;
    assert |Slots(r)| == c;
    assert index[tail] == Unrolled(index, tail)[c - 1] == EntryFor(r, r.top);
    assert Covers(r, r.top) && BlockSound(entries, x, r.top);
    OffsetIs(i, m, r.top);
    MaxIsPower();
    Divides(c, MAX_CAPACITY);
    AddMax(tail + (m - r.top), c);
    EntrySlot(index, tail, r, m);
  }

  /** One step round the ring. */
  method Advance(pos: nat, capacity: nat) returns (next: nat)
    requires pos < capacity
    ensures next == if pos + 1 == capacity then 0 else pos + 1
  {
    RemainderIs(pos + 1, capacity, if pos + 1 == capacity then 1 else 0, if pos + 1 == capacity then 0 else pos + 1);
    next := (pos + 1) % capacity;
  }

  lemma UnrolledAt(index: seq<nat>, tail: nat, k: nat)
    requires tail < |index| && k < |index|
    ensures var p := tail + 1 + k; Unrolled(index, tail)[k] == if p < |index| then index[p] else index[p - |index|]
  {
  }

  lemma PrefixGrows<T>(s: seq<T>, k: nat)
    requires k < |s|
    ensures s[..k] + [s[k]] == s[..k + 1]
  {
  }

  /** The do-while loop that copies the slots, starting after the tail and ending with it. */
  method CopyFromTail(index: seq<nat>, tail: nat) returns (copied: seq<nat>)
    requires tail < |index| && |index| > 1
    ensures copied == Unrolled(index, tail)
  {
    ghost var all := Unrolled(index, tail);
    var pos := Advance(tail, |index|);
    UnrolledAt(index, tail, 0);
    copied := [index[pos]];
    ghost var k := 1;
    while pos != tail
      invariant 1 <= k <= |index| && copied == all[..k]
      invariant pos == (if tail + k < |index| then tail + k else tail + k - |index|)
      decreases |index| - k
    {
      pos := Advance(pos, |index|);
      UnrolledAt(index, tail, k);
      PrefixGrows(all, k);
      copied := copied + [index[pos]];
      k := k + 1;
    }
  }

  // ---------------------------------------------------------------------------------
  // The object
  // ---------------------------------------------------------------------------------

  class BlockIndex {
    var capacity: nat
    var tail: nat
    var index: seq<nat>
    var entries: seq<IndexEntry>
    var nextCapacity: nat
    ghost var shape: Shape

    ghost predicate Valid()
      reads this
    {
      capacity == |index| && nextCapacity == 2 * capacity && Sound(index, tail, entries, shape)
    }

    /** The first index; the values of its entries are whatever the memory held. */
    constructor (first: int, values: seq<Option<nat>>)
      requires |values| == INITIAL_SIZE
      ensures Valid() && shape == Shape(Ring([], FreshIds(0, INITIAL_SIZE), [], first - 1), map[], {})
    {
      capacity := INITIAL_SIZE;
      nextCapacity := 2 * INITIAL_SIZE;
      tail := INITIAL_SIZE - 1;
      index := FreshIds(0, INITIAL_SIZE);
      entries := FreshEntries(values);
      shape := Shape(Ring([], FreshIds(0, INITIAL_SIZE), [], first - 1), map[], {});
      new;
      assert PowerOfTwo(32) by { assert PowerOfTwo(8) by { assert PowerOfTwo(2); } }
      assert Unrolled(index, tail) == Slots(shape.ring);
    }

    /** insert_block_index_entry. On success the new entry stands at the tail without a value, and
        every live block keeps its own entry, even if the index had to grow. */
    method Insert(blockStart: nat, mayAllocate: bool, values: seq<Option<nat>>) returns (ok: bool, id: nat)
      requires Valid() && blockStart == Start(shape.ring.top + 1) && |values| == capacity
      requires shape.unset == {} && forall m :: m in shape.home ==> m <= shape.ring.top
      modifies this
      ensures Valid() && shape.home == old(shape.home)
      ensures ok ==> shape.ring.top == old(shape.ring.top) + 1 && shape.unset == {shape.ring.top}
                     && Covers(shape.ring, shape.ring.top) && id == EntryFor(shape.ring, shape.ring.top)
      ensures !ok ==> shape == old(shape)
      ensures !ok ==> !mayAllocate || old(capacity) == MAX_CAPACITY
    {
      var newTail := NextTail();
      id := index[newTail];
      if entries[id].key == INVALID_BASE || entries[id].value == None {
        Take(newTail, id, blockStart);
        ok := true;
      } else {
        FullRing(entries, shape);
        ok := mayAllocate && capacity < MAX_CAPACITY;
        if ok { id := GrowAndTake(blockStart, values); }
      }
    }

    method GrowAndTake(blockStart: nat, values: seq<Option<nat>>) returns (id: nat)
      requires Valid() && blockStart == Start(shape.ring.top + 1) && |values| == capacity < MAX_CAPACITY
      requires shape.ring.above == [] && shape.ring.unused == []
      requires shape.unset == {} && forall m :: m in shape.home ==> m <= shape.ring.top
      modifies this
      ensures Valid() && shape.home == old(shape.home)
      ensures shape.ring.top == old(shape.ring.top) + 1 && shape.unset == {shape.ring.top}
      ensures Covers(shape.ring, shape.ring.top) && id == EntryFor(shape.ring, shape.ring.top)
    {
      NewBlockIndex(values);
      id := TakeUnused(blockStart);
    }

    /** The entry after the tail of an index that just grew has never been used. */
    method TakeUnused(blockStart: nat) returns (id: nat)
      requires Valid() && blockStart == Start(shape.ring.top + 1)
      requires shape.ring.above == [] && shape.ring.unused != []
      requires shape.unset == {} && forall m :: m in shape.home ==> m <= shape.ring.top
      modifies this
      ensures Valid() && shape.home == old(shape.home)
      ensures shape.ring.top == old(shape.ring.top) + 1 && shape.unset == {shape.ring.top}
      ensures Covers(shape.ring, shape.ring.top) && id == EntryFor(shape.ring, shape.ring.top)
    {
      var newTail := (tail + 1) % capacity;
      NextSlot(index, tail);
      id := index[newTail];
      FirstSlot(shape.ring);
      assert id in shape.ring.unused;
      Take(newTail, id, blockStart);
    }

    method NextTail() returns (t: nat)
      requires Valid()
      ensures t == (tail + 1) % capacity && t < |index| && Slots(shape.ring) != []
      ensures index[t] == Slots(shape.ring)[0] && index[t] < |entries|
    {
      NextSlot(index, tail);
      t := (tail + 1) % capacity;
    }

    /** Store the key and move the tail. */
    method Take(newTail: nat, id: nat, blockStart: nat)
      requires Valid() && newTail == (tail + 1) % capacity && newTail < |index| && id == index[newTail]
      requires blockStart == Start(shape.ring.top + 1)
      requires shape.unset == {} && forall m :: m in shape.home ==> m <= shape.ring.top
      requires id < |entries| && (entries[id].key == INVALID_BASE || entries[id].value == None)
      modifies this
      ensures Valid() && shape.home == old(shape.home)
      ensures shape.ring.top == old(shape.ring.top) + 1 && shape.unset == {shape.ring.top}
      ensures Covers(shape.ring, shape.ring.top) && id == EntryFor(shape.ring, shape.ring.top)
    {
      NextSlot(index, tail);
      ghost var s := Inserted(shape.ring);
      InsertKeeps(entries, shape, s, id);
      entries := entries[id := entries[id].(key := blockStart)];
      tail := newTail;
      shape := Shape(s, shape.home, {s.top});
    }

    /** new_block_index: the old slots in order from after the tail, then as many new entries. */
    method NewBlockIndex(values: seq<Option<nat>>)
      requires Valid() && |values| == capacity < MAX_CAPACITY
      requires shape.ring.above == [] && shape.ring.unused == []
      modifies this
      ensures Valid() && capacity == 2 * old(capacity) && shape.home == old(shape.home) && shape.unset == old(shape.unset)
      ensures shape.ring.below == old(shape.ring.below) && shape.ring.top == old(shape.ring.top)
      ensures shape.ring.above == [] && shape.ring.unused != []
    {
      var copied := CopyFromTail(index, tail);
      var extra := FreshIds(|entries|, capacity);
      ghost var grown := Ring([], extra, shape.ring.below, shape.ring.top);
      GrowKeeps(entries, shape, values, grown);
      GrownUnrolled(index, tail, extra);
      DoubleFits(capacity);
      shape := shape.(ring := grown);
      entries := entries + FreshEntries(values);
      index := copied + extra;
      tail := capacity - 1;
      capacity := nextCapacity;
      nextCapacity := 2 * nextCapacity;
    }

    method RewindTail()
      requires Valid() && shape.ring.below != []
      modifies this
      ensures Valid() && shape.home == old(shape.home) && shape.unset == old(shape.unset)
      ensures shape.ring.top == old(shape.ring.top) - 1
      ensures forall m :: Covers(shape.ring, m) <==> Covers(old(shape.ring), m)
      ensures forall m :: Covers(shape.ring, m) ==> EntryFor(shape.ring, m) == EntryFor(old(shape.ring), m)
    {
      PreviousSlot(index, tail);
      ghost var s := Rewound(shape.ring);
      RewindKeeps(entries, shape, s);
      tail := (tail - 1) % capacity;
      shape := shape.(ring := s);
    }

    /** Publishing a block in its entry, or releasing it again. */
    method Store(id: nat, value: Option<nat>, ghost m: int)
      requires Valid() && Covers(shape.ring, m) && id == EntryFor(shape.ring, m)
      modifies this
      ensures Valid() && shape.ring == old(shape.ring) && shape.unset == old(shape.unset) - {m}
      ensures shape.home == if value.Some? then old(shape.home)[m := id] else old(shape.home) - {m}
    {
      StoreKeeps(entries, shape, m, value);
      entries := entries[id := entries[id].(value := value)];
      shape := Shape(shape.ring, if value.Some? then shape.home[m := id] else shape.home - {m}, shape.unset - {m});
    }

    /** get_block_index_entry_for_index: the entry found for any element of a live block is that
        block's own, with its key and its value. */
    method Lookup(i: nat) returns (id: nat)
      requires Valid() && shape.ring.below != [] && i < WORD
      ensures id < |entries|
      ensures forall m :: m in shape.home && ElementOf(i, m) ==>
                id == shape.home[m] && entries[id].key == Start(m) && entries[id].value.Some?
      ensures forall m :: Covers(shape.ring, m) && ElementOf(i, m) ==> id == EntryFor(shape.ring, m)
    {
      assert index[tail] == Unrolled(index, tail)[|index| - 1];
      assert Fits(Slots(shape.ring), |entries|);
      var p := Find(index, tail, entries[index[tail]].key, i);
      id := index[p];
      assert id in Slots(shape.ring) by { SlotIn(index, tail, p); }
      forall m | Covers(shape.ring, m) && ElementOf(i, m)
        ensures id == EntryFor(shape.ring, m) && BlockSound(entries, shape, m)
      {
        LookupFinds(index, tail, entries, shape, m, i);
      }
    }
  }

  lemma SlotIn(index: seq<nat>, tail: nat, p: nat)
    requires tail < |index| && p < |index|
    ensures index[p] in Unrolled(index, tail)
  {
    var r := Unrolled(index, tail);
    assert index[p] == if p > tail then r[p - tail - 1] else r[|index| - 1 - tail + p];
  }
}
