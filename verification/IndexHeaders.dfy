/** The headers of the block index: the current one and those that growth has superseded. A superseded
    header keeps its slots and its tail but shares its entries with the newer ones, whose keys go on
    changing. What makes lookups in it work all the same is that a slot is only ever for blocks that
    are equal modulo the capacity of its header.
 */
module IndexHeaders {
  import opened Words
  import opened Options
  import opened Permutations
  import opened BlockIndexes

  /** BlockIndexHeader; base is on record only: slot p is for the blocks base + p modulo the capacity. */
  datatype Header = Header(index: seq<nat>, tail: nat, base: int)

  predicate HeaderShaped(g: Header, n: nat)
  {
    g.tail < |g.index| && Fits(g.index, n)
  }

  /** The header new_block_index publishes. */
  function Larger(g: Header, entries: nat, top: int): Header
    requires g.tail < |g.index|
  {
    Header(Unrolled(g.index, g.tail) + FreshIds(entries, |g.index|), |g.index| - 1, top - (|g.index| - 1))
  }

  /** The ring once the key of the next block is stored, the tail not yet moved. */
  function Keyed(r: Ring): Ring
    requires Slots(r) != []
  {
    RewindRing(InsertRing(r))
  }

  predicate Reusable(e: IndexEntry)
  {
    e.key == INVALID_BASE || e.value == None
  }

  // ---------------------------------------------------------------------------------
  // Congruence
  // ---------------------------------------------------------------------------------

  predicate Cong(a: int, b: int, c: int)
    requires c > 0
  {
    (a - b) % c == 0
  }

  lemma CongTrans(x: int, y: int, z: int, c: int)
    requires c > 0 && Cong(x, y, c) && Cong(y, z, c)
    ensures Cong(x, z, c)
  {
    var j, k := (x - y) / c, (y - z) / c;
    assert x - z == c * j + c * k == c * (j + k) + 0;
    RemainderIs(x - z, c, j + k, 0);
  }

  lemma CongSym(x: int, y: int, c: int)
    requires c > 0 && Cong(x, y, c)
    ensures Cong(y, x, c)
  {
    var k := (x - y) / c;
    assert y - x == c * -k + 0;
    RemainderIs(y - x, c, -k, 0);
  }

  /** Equal modulo d is equal modulo a divisor of d. */
  lemma CongCoarser(x: int, y: int, c: int, d: int)
    requires c > 0 && d > 0 && d % c == 0 && Cong(x, y, d)
    ensures Cong(x, y, c)
  {
    var k, j := (x - y) / d, d / c;
    assert x - y == d * k && d == c * j;
    assert x - y == c * (j * k) + 0;
    RemainderIs(x - y, c, j * k, 0);
  }

  lemma CongRemainder(x: int, c: int)
    requires c > 0
    ensures 0 <= x % c < c && Cong(x, x % c, c)
  {
    assert x - x % c == c * (x / c) + 0;
    RemainderIs(x - x % c, c, x / c, 0);
  }

  lemma CongSmall(x: int, q: int, c: int)
    requires c > 0 && 0 <= q < c && Cong(x, q, c)
    ensures x % c == q
  {
    var k := (x - q) / c;
    assert x == c * k + q;
    RemainderIs(x, c, k, q);
  }

  lemma OneTurn(x: int, c: int)
    requires c > 0
    ensures Cong(x, x, c) && Cong(x - c, x, c)
  {
    RemainderIs(0, c, 0, 0);
    RemainderIs(-c, c, -1, 0);
  }

  lemma Twice(c: int)
    requires c > 0
    ensures (c + c) % c == 0
  {
    RemainderIs(c + c, c, 2, 0);
  }

  // ---------------------------------------------------------------------------------
  // Headers and the ring
  // ---------------------------------------------------------------------------------

  /** The entries of header g are in the current header too, for the same blocks modulo the
      capacity of g. */
  ghost predicate Nested(g: Header, cur: Header)
  {
    && 0 < |g.index| && |cur.index| % |g.index| == 0 && MAX_CAPACITY % |g.index| == 0
    && (forall q :: 0 <= q < |g.index| ==> g.index[q] in cur.index)
    && (forall p, q :: 0 <= p < |cur.index| && 0 <= q < |g.index| && cur.index[p] == g.index[q] ==>
          Cong(cur.base + p, g.base + q, |g.index|))
  }

  /** Header g holds the ring, its tail at the slot of the top block. */
  ghost predicate RingAt(g: Header, entries: seq<IndexEntry>, x: Shape)
  {
    Sound(g.index, g.tail, entries, x) && Cong(x.ring.top - g.tail, g.base, |g.index|)
  }

  // ---------------------------------------------------------------------------------
  // Finding a slot
  // ---------------------------------------------------------------------------------

  /** The slot of block n in the current header. */
  lemma SlotOf(cur: Header, entries: seq<IndexEntry>, x: Shape, n: int) returns (p: nat)
    requires RingAt(cur, entries, x) && x.ring.below != [] && Covers(x.ring, n)
    ensures p < |cur.index| && cur.index[p] == EntryFor(x.ring, n) && Cong(n, cur.base + p, |cur.index|)
  {
    var r, c, j := x.ring, |cur.index|, n - x.ring.top;
    CongRemainder(cur.tail + j, c);
    p := (cur.tail + j) % c;
    EntrySlot(cur.index, cur.tail, r, n);
    SlotCong(r.top, cur.tail, cur.base, n, p, c);
  }

  lemma SlotCong(top: int, tail: int, base: int, n: int, p: int, c: int)
    requires c > 0 && Cong(top - tail, base, c) && Cong(tail + (n - top), p, c)
    ensures Cong(n, base + p, c)
  {
    assert Cong(n, top - tail + p, c) by { assert n - (top - tail + p) == tail + (n - top) - p; }
    assert Cong(top - tail + p, base + p, c) by { assert top - tail + p - (base + p) == top - tail - base; }
    CongTrans(n, top - tail + p, base + p, c);
  }

  /** In whichever header the entry of block n is found, it stands in a slot for n. */
  lemma SlotFor(g: Header, cur: Header, entries: seq<IndexEntry>, x: Shape, q: nat, n: int)
    requires RingAt(cur, entries, x) && Nested(g, cur) && q < |g.index|
    requires x.ring.below != [] && Covers(x.ring, n) && g.index[q] == EntryFor(x.ring, n)
    ensures Cong(n, g.base + q, |g.index|)
  {
    var p := SlotOf(cur, entries, x, n);
    CongCoarser(n, cur.base + p, |g.index|, |cur.index|);
    CongTrans(n, cur.base + p, g.base + q, |g.index|);
  }

  /** The arithmetic of the lookup, with a tail slot that may by now hold a later block. */
  lemma FindIs(g: Header, tail: nat, k: int, m: int, i: nat, q: nat)
    requires tail < |g.index| <= MAX_CAPACITY && q < |g.index| && MAX_CAPACITY % |g.index| == 0
    requires Cong(k, g.base + tail, |g.index|) && Cong(m, g.base + q, |g.index|)
    requires ElementOf(i, m) && -MAX_CAPACITY < m - k < MAX_CAPACITY
    ensures i < WORD && Find(g.index, tail, Start(k), i) == q
  {
    var c := |g.index|;
    OffsetIs(i, m, k);
    var x := tail + Offset(i, Start(k));
    CongSym(k, g.base + tail, c);
    assert Cong(g.base + tail + (m - k), k + (m - k), c);
    CongTrans(g.base + tail + (m - k), m, g.base + q, c);
    assert Cong(tail + (m - k), q, c);
    assert Cong(x, tail + (m - k), c);
    CongTrans(x, tail + (m - k), q, c);
    CongSmall(x, q, c);
  }

  lemma InSlots(index: seq<nat>, tail: nat, id: nat)
    requires tail < |index| && id in index
    ensures id in Unrolled(index, tail)
  {
    var p :| 0 <= p < |index| && index[p] == id;
    SlotIn(index, tail, p);
  }

  lemma InIndex(index: seq<nat>, tail: nat, id: nat)
    requires tail < |index| && id in Unrolled(index, tail)
    ensures id in index
  {
    var k :| 0 <= k < |index| && Unrolled(index, tail)[k] == id;
    UnrolledAt(index, tail, k);
  }

  lemma UnusedPlaces(r: Ring)
    ensures forall p :: |r.above| <= p < |r.above| + |r.unused| ==> Slots(r)[p] in r.unused
  {
    assert forall p :: |r.above| <= p < |r.above| + |r.unused| ==> Slots(r)[p] == r.unused[p - |r.above|];
  }

  /** An entry with a key is that of a block. */
  lemma BlockAt(r: Ring, id: nat) returns (k: int)
    requires id in Slots(r) && id !in r.unused
    ensures Covers(r, k) && EntryFor(r, k) == id
  {
    var p :| 0 <= p < |Slots(r)| && Slots(r)[p] == id;
    UnusedPlaces(r);
    k := if p < |r.above| then r.top + 1 + p else r.top - |r.below| + 1 + (p - |r.above| - |r.unused|);
  }

  lemma NestedFits(g: Header, cur: Header)
    requires Nested(g, cur)
    ensures |g.index| <= MAX_CAPACITY
  {
    var c, k := |g.index|, MAX_CAPACITY / |g.index|;
    assert MAX_CAPACITY == c * k;
    assert k <= 0 ==> c * k <= 0;
    assert k >= 1 ==> c * k >= c;
  }

  /** A lookup in header g, which may be superseded, from a tail slot that may by now hold a later
      block, ends at the entry of the element's block. */
  lemma LookupIn(g: Header, cur: Header, entries: seq<IndexEntry>, x: Shape, tail: nat, m: int, i: nat)
    requires RingAt(cur, entries, x) && Nested(g, cur) && x.ring.below != [] && tail < |g.index|
    requires g.index[tail] < |entries| && entries[g.index[tail]].key != INVALID_BASE
    requires Covers(x.ring, m) && EntryFor(x.ring, m) in g.index && ElementOf(i, m)
    ensures i < WORD
    ensures var p := Find(g.index, tail, entries[g.index[tail]].key, i); p < |g.index| && g.index[p] == EntryFor(x.ring, m)
  {
    var id := g.index[tail];
    InSlots(cur.index, cur.tail, id);
    var k := BlockAt(x.ring, id);
    assert BlockSound(entries, x, k);
    SlotFor(g, cur, entries, x, tail, k);
    var q :| 0 <= q < |g.index| && g.index[q] == EntryFor(x.ring, m);
    SlotFor(g, cur, entries, x, q, m);
    assert |x.ring.above| + |x.ring.below| <= |Slots(x.ring)| == |cur.index| <= MAX_CAPACITY;
    NestedFits(g, cur);
    FindIs(g, tail, k, m, i, q);
  }

  /** The slot after that of a block is that of the next block, if it has one. */
  lemma NextIn(g: Header, cur: Header, entries: seq<IndexEntry>, x: Shape, slot: nat, m: int)
    requires RingAt(cur, entries, x) && Nested(g, cur) && x.ring.below != [] && slot < |g.index|
    requires Covers(x.ring, m) && g.index[slot] == EntryFor(x.ring, m)
    requires Covers(x.ring, m + 1) && EntryFor(x.ring, m + 1) in g.index
    ensures var p := (slot + 1) % |g.index|; 0 <= p < |g.index| && g.index[p] == EntryFor(x.ring, m + 1)
  {
    var c := |g.index|;
    SlotFor(g, cur, entries, x, slot, m);
    var q :| 0 <= q < c && g.index[q] == EntryFor(x.ring, m + 1);
    SlotFor(g, cur, entries, x, q, m + 1);
    NextCong(g.base, slot, m, q, c);
  }

  lemma NextCong(base: int, slot: int, m: int, q: int, c: int)
    requires c > 0 && 0 <= q < c && Cong(m, base + slot, c) && Cong(m + 1, base + q, c)
    ensures (slot + 1) % c == q
  {
    CongSym(m, base + slot, c);
    assert Cong(base + slot + 1, m + 1, c);
    CongTrans(base + slot + 1, m + 1, base + q, c);
    assert Cong(slot + 1, q, c);
    CongSmall(slot + 1, q, c);
  }

  // ---------------------------------------------------------------------------------
  // The ring after each store of the producer
  // ---------------------------------------------------------------------------------

  lemma KeyedRing(g: Header, entries: seq<IndexEntry>, x: Shape, id: nat)
    requires RingAt(g, entries, x) && Slots(x.ring) != [] && x.unset == {} && id == Slots(x.ring)[0]
    requires id < |entries| && Reusable(entries[id]) && forall m :: m in x.home ==> m <= x.ring.top
    ensures RingAt(g, entries[id := entries[id].(key := Start(x.ring.top + 1))],
                   Shape(Keyed(x.ring), x.home, {x.ring.top + 1}))
  {
    KeyedSlots(x.ring);
    KeyedEntries(entries, x, id);
  }

  lemma KeyedSlots(r: Ring)
    requires Slots(r) != []
    ensures Slots(Keyed(r)) == Slots(r) && Keyed(r).top == r.top
  {
    var s := Inserted(r);
    var keyed := Rewound(s);
    assert Slots(keyed) == Slots(r);
  }

  lemma KeyedEntries(entries: seq<IndexEntry>, x: Shape, id: nat)
    requires EntriesSound(entries, x) && Slots(x.ring) != [] && x.unset == {} && id == Slots(x.ring)[0]
    requires id < |entries| && Reusable(entries[id]) && forall m :: m in x.home ==> m <= x.ring.top
    ensures EntriesSound(entries[id := entries[id].(key := Start(x.ring.top + 1))],
                         Shape(Keyed(x.ring), x.home, {x.ring.top + 1}))
  {
    var r := Inserted(x.ring);
    InsertKeeps(entries, x, r, id);
    var keyed := Rewound(r);
    RewindKeeps(entries[id := entries[id].(key := Start(r.top))], Shape(r, x.home, {r.top}), keyed);
  }

  /** The tail follows the key: the entry of the next block keeps its block. */
  lemma AdvanceKeeps(entries: seq<IndexEntry>, x: Shape)
    requires EntriesSound(entries, x) && x.ring.above != []
    ensures EntriesSound(entries, x.(ring := InsertRing(x.ring)))
  {
    var s := Inserted(x.ring);
    RotatedDistinct(Slots(x.ring), |entries|);
    forall m | Covers(s, m)
      ensures BlockSound(entries, x.(ring := s), m)
    {
      assert BlockSound(entries, x, m);
    }
  }

  /** Tail and top move together, the tail round the ring. */
  lemma TailMoves(top: int, tail: int, base: int, c: int, top': int, x: int, tail': int)
    requires c > 0 && Cong(top - tail, base, c) && top' - top == x - tail && tail' == x % c
    ensures Cong(top' - tail', base, c)
  {
    CongRemainder(x, c);
    assert top' - tail' - (top - tail) == x - tail';
    CongTrans(top' - tail', top - tail, base, c);
  }

  lemma AdvancedRing(g: Header, entries: seq<IndexEntry>, x: Shape)
    requires RingAt(g, entries, x) && x.ring.above != []
    ensures RingAt(g.(tail := (g.tail + 1) % |g.index|), entries, x.(ring := InsertRing(x.ring)))
  {
    AdvancedSound(g.index, g.tail, entries, x);
    TailMoves(x.ring.top, g.tail, g.base, |g.index|, x.ring.top + 1, g.tail + 1, (g.tail + 1) % |g.index|);
  }

  lemma AdvancedSound(index: seq<nat>, tail: nat, entries: seq<IndexEntry>, x: Shape)
    requires Sound(index, tail, entries, x) && x.ring.above != []
    ensures Sound(index, (tail + 1) % |index|, entries, x.(ring := InsertRing(x.ring)))
  {
    NextSlot(index, tail);
    AdvanceKeeps(entries, x);
    var r := Inserted(x.ring);
  }

  lemma RewoundRing(g: Header, entries: seq<IndexEntry>, x: Shape)
    requires RingAt(g, entries, x) && x.ring.below != []
    ensures RingAt(g.(tail := (g.tail - 1) % |g.index|), entries, x.(ring := RewindRing(x.ring)))
  {
    RewoundSound(g.index, g.tail, entries, x);
    TailMoves(x.ring.top, g.tail, g.base, |g.index|, x.ring.top - 1, g.tail - 1, (g.tail - 1) % |g.index|);
  }

  lemma RewoundSound(index: seq<nat>, tail: nat, entries: seq<IndexEntry>, x: Shape)
    requires Sound(index, tail, entries, x) && x.ring.below != []
    ensures Sound(index, (tail - 1) % |index|, entries, x.(ring := RewindRing(x.ring)))
  {
    PreviousSlot(index, tail);
    var r := Rewound(x.ring);
    RewindKeeps(entries, x, r);
  }

  /** The tail slot of a header that holds a block has a key. */
  lemma TailKey(g: Header, entries: seq<IndexEntry>, x: Shape)
    requires RingAt(g, entries, x) && x.ring.below != []
    ensures g.index[g.tail] < |entries| && entries[g.index[g.tail]].key != INVALID_BASE
  {
    assert g.index[g.tail] == Unrolled(g.index, g.tail)[|g.index| - 1] == EntryFor(x.ring, x.ring.top);
    assert Covers(x.ring, x.ring.top) && BlockSound(entries, x, x.ring.top);
    StartIsNotInvalid(x.ring.top);
  }

  lemma LargerRing(g: Header, entries: seq<IndexEntry>, x: Shape, values: seq<Option<nat>>)
    requires RingAt(g, entries, x) && x.ring.above == [] && x.ring.unused == [] && |values| == |g.index| < MAX_CAPACITY
    ensures var grown := Ring([], FreshIds(|entries|, |values|), x.ring.below, x.ring.top);
      RingAt(Larger(g, |entries|, x.ring.top), entries + FreshEntries(values), x.(ring := grown))
  {
    var grown := Ring([], FreshIds(|entries|, |values|), x.ring.below, x.ring.top);
    GrowKeeps(entries, x, values, grown);
    LargerSlots(g, |entries|, x.ring, grown);
    DoubleFits(|g.index|);
    OneTurn(x.ring.top - (|g.index| - 1), 2 * |g.index|);
  }

  lemma LargerSlots(g: Header, n: nat, r: Ring, grown: Ring)
    requires g.tail < |g.index| && Unrolled(g.index, g.tail) == Slots(r) && r.above == [] && r.unused == []
    requires grown == Ring([], FreshIds(n, |g.index|), r.below, r.top)
    ensures var cur := Larger(g, n, r.top);
      cur.tail < |cur.index| == 2 * |g.index| && Unrolled(cur.index, cur.tail) == Slots(grown)
  {
    GrownUnrolled(g.index, g.tail, FreshIds(n, |g.index|));
    GrownSlots(r, grown);
  }

  // ---------------------------------------------------------------------------------
  // Growth
  // ---------------------------------------------------------------------------------

  /** Slot p of the larger header is the p-th slot after the tail of the smaller one. */
  lemma LargerNests(g: Header, n: nat, top: int, p: nat, q: nat)
    requires g.tail < |g.index| && Fits(g.index, n) && NoRepeats(g.index) && Cong(top - g.tail, g.base, |g.index|)
    requires p < 2 * |g.index| && q < |g.index| && Larger(g, n, top).index[p] == g.index[q]
    ensures p < |g.index| && Cong(Larger(g, n, top).base + p, g.base + q, |g.index|)
  {
    var c := |g.index|;
    UnrolledAt(g.index, g.tail, if p < c then p else 0);
    var r := g.tail + 1 + p;
    assert q == if r < c then r else r - c;
    assert Cong(g.base + q, g.base + r, c) by { OneTurn(g.base + r, c); }
    CongSym(g.base + q, g.base + r, c);
    CongSym(top - g.tail, g.base, c);
    assert Cong(top - g.tail + r, g.base + r, c);
    CongTrans(top - g.tail + r, g.base + r, g.base + q, c);
    OneTurn(top + 1 + p, c);
    CongTrans(top + 1 + p - c, top + 1 + p, g.base + q, c);
  }

  lemma IndexDistinct(index: seq<nat>, tail: nat)
    requires tail < |index| && NoRepeats(Unrolled(index, tail))
    ensures NoRepeats(index)
  {
    var r := Unrolled(index, tail);
    forall p, q | 0 <= p < q < |index|
      ensures index[p] != index[q]
    {
      assert index[p] == r[if p > tail then p - tail - 1 else |index| - 1 - tail + p];
      assert index[q] == r[if q > tail then q - tail - 1 else |index| - 1 - tail + q];
    }
  }

  lemma SlotsCopied(g: Header, n: nat, top: int)
    requires g.tail < |g.index|
    ensures forall q :: 0 <= q < |g.index| ==> g.index[q] in Larger(g, n, top).index
  {
    forall q | 0 <= q < |g.index|
      ensures g.index[q] in Larger(g, n, top).index
    {
      SlotIn(g.index, g.tail, q);
      var k :| 0 <= k < |g.index| && Unrolled(g.index, g.tail)[k] == g.index[q];
      assert Larger(g, n, top).index[k] == g.index[q];
    }
  }

  lemma NestedInLarger(g: Header, n: nat, top: int)
    requires g.tail < |g.index| && Fits(g.index, n) && NoRepeats(g.index) && Cong(top - g.tail, g.base, |g.index|)
    requires MAX_CAPACITY % |g.index| == 0
    ensures Nested(g, Larger(g, n, top))
  {
    LargerSize(g, n, top);
    SlotsCopied(g, n, top);
    LargerCong(g, n, top);
  }

  lemma LargerSize(g: Header, n: nat, top: int)
    requires g.tail < |g.index|
    ensures |Larger(g, n, top).index| == |g.index| + |g.index| && |Larger(g, n, top).index| % |g.index| == 0
  {
    Twice(|g.index|);
  }

  lemma LargerCong(g: Header, n: nat, top: int)
    requires g.tail < |g.index| && Fits(g.index, n) && NoRepeats(g.index) && Cong(top - g.tail, g.base, |g.index|)
    ensures var cur := Larger(g, n, top);
      forall p, q :: 0 <= p < |cur.index| && 0 <= q < |g.index| && cur.index[p] == g.index[q] ==>
        Cong(cur.base + p, g.base + q, |g.index|)
  {
    var cur := Larger(g, n, top);
    forall p, q | 0 <= p < |cur.index| && 0 <= q < |g.index| && cur.index[p] == g.index[q]
      ensures Cong(cur.base + p, g.base + q, |g.index|)
    {
      LargerNests(g, n, top, p, q);
    }
  }

  lemma NestedSame(g: Header, cur: Header, g': Header, cur': Header)
    requires Nested(g, cur) && g'.index == g.index && g'.base == g.base && cur'.index == cur.index && cur'.base == cur.base
    ensures Nested(g', cur')
  {
  }

  lemma NestedTrans(f: Header, g: Header, h: Header)
    requires Nested(f, g) && Nested(g, h)
    ensures Nested(f, h)
  {
    CongTrans(|h.index|, 0, 0, |g.index|);
    CongCoarser(|h.index|, 0, |f.index|, |g.index|);
    forall p, q | 0 <= p < |h.index| && 0 <= q < |f.index| && h.index[p] == f.index[q]
      ensures Cong(h.base + p, f.base + q, |f.index|)
    {
      var r :| 0 <= r < |g.index| && g.index[r] == f.index[q];
      CongCoarser(h.base + p, g.base + r, |f.index|, |g.index|);
      CongTrans(h.base + p, g.base + r, f.base + q, |f.index|);
    }
  }

  lemma NestedInItself(g: Header)
    requires 0 < |g.index| && NoRepeats(g.index) && MAX_CAPACITY % |g.index| == 0
    ensures Nested(g, g)
  {
    RemainderIs(|g.index|, |g.index|, 1, 0);
    forall p, q | 0 <= p < |g.index| && 0 <= q < |g.index| && g.index[p] == g.index[q]
      ensures Cong(g.base + p, g.base + q, |g.index|)
    {
      assert p == q;
      OneTurn(g.base + p, |g.index|);
    }
  }

  lemma RingFacts(g: Header, entries: seq<IndexEntry>, x: Shape)
    requires RingAt(g, entries, x)
    ensures NoRepeats(g.index) && MAX_CAPACITY % |g.index| == 0 && HeaderShaped(g, |entries|)
  {
    IndexDistinct(g.index, g.tail);
    MaxIsPower();
    Divides(|g.index|, MAX_CAPACITY);
    forall p | 0 <= p < |g.index|
      ensures g.index[p] < |entries|
    {
      SlotIn(g.index, g.tail, p);
    }
  }

  /** A covered block at or below the top: the ring is not empty there, and its entry has a slot. */
  lemma CoveredBelow(g: Header, entries: seq<IndexEntry>, x: Shape, m: int)
    requires RingAt(g, entries, x) && Covers(x.ring, m) && m <= x.ring.top
    ensures x.ring.below != [] && EntryFor(x.ring, m) in g.index
  {
    assert Slots(x.ring)[PlaceOf(x.ring, m)] == EntryFor(x.ring, m);
    InIndex(g.index, g.tail, EntryFor(x.ring, m));
  }
}
