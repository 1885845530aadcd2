/** The producer and the consumers of one implicit sub-queue at work on its block index at once.

    Every store of enqueue and enqueue_bulk into the index, with the rollbacks, and every load of a
    lookup (the header, its tail, the key found there), every count of emptied elements and every
    withdrawal of an emptied block is a step of its own, on sequentially consistent memory; building a
    larger header is private until it is published. Elements are numbered by integers that do not
    wrap; the code sees them modulo 2^64.
 */
module IndexReaders {
  import opened Words
  import opened Options
  import opened Permutations
  import opened BlockIndexes
  import opened IndexHeaders
  import Runs

  /** The headers, oldest first, the last one current; the entries they share; what the index keeps. */
  datatype Index = Index(headers: seq<Header>, entries: seq<IndexEntry>, shape: Shape)

  /** Where the producer is: between insertions, after the stores of an insertion, withdrawing the
      entry it got no block for, or undoing its new blocks, the oldest first but the tail from the
      newest down. */
  datatype Producer =
    | Working
    | KeyPut
    | TailPut
    | Dropping
    | Undoing(next: int, last: int)
    | Rewinding(next: int, last: int)

  /** A dequeue that obtained the elements from e up to f. */
  datatype Reader =
    | Resting
    | Claimed(e: int, f: int)
    | HasHeader(e: int, f: int, h: nat)
    | HasTail(e: int, f: int, h: nat, tail: nat)
    | At(e: int, f: int, h: nat, slot: nat)
    | Clearing(e: int, f: int, h: nat, slot: nat, m: int)   // it emptied block m, the rest starts at e

  datatype State = State(
    ix: Index,
    producer: Producer,
    first: int,              // the number of the first block
    published: int,          // the last block with a published element
    elements: int,           // tailIndex
    head: int,               // headIndex
    gone: map<int, nat>,     // elementsCompletelyDequeued of each block
    blocks: map<int, nat>,   // on record: the Block stored for each number
    readers: seq<Reader>)

  datatype Step =
    | PutKey
    | MoveTail
    | Grow(values: seq<Option<nat>>)
    | PutBlock(block: nat)
    | Drop
    | ClearDropped
    | GiveUp
    | ClearNew
    | RewindNew
    | Undone
    | Publish(to: int)
    | Claim(reader: nat, count: nat)
    | Load(reader: nat)
    | Empty(reader: nat)
    | Clear(reader: nat)

  // ---------------------------------------------------------------------------------
  // The stores into the index
  // ---------------------------------------------------------------------------------

  predicate Shaped(ix: Index)
  {
    && ix.headers != []
    && (forall h :: 0 <= h < |ix.headers| ==> HeaderShaped(ix.headers[h], |ix.entries|))
    && Slots(ix.shape.ring) != []
  }

  function Current(ix: Index): Header
    requires ix.headers != []
  {
    ix.headers[|ix.headers| - 1]
  }

  /** The entry after the tail. */
  function Upcoming(ix: Index): (id: nat)
    requires Shaped(ix)
    ensures id < |ix.entries|
  {
    var g := Current(ix);
    assert HeaderShaped(g, |ix.entries|);
    g.index[(g.tail + 1) % |g.index|]
  }

  /** The entry at the tail. */
  function Latest(ix: Index): (id: nat)
    requires Shaped(ix)
    ensures id < |ix.entries|
  {
    var g := Current(ix);
    assert HeaderShaped(g, |ix.entries|);
    g.index[g.tail]
  }

  /** get_block_index_entry_for_index, called by the producer, which alone changes keys and tails. */
  function Looked(ix: Index, m: int): (id: nat)
    requires Shaped(ix)
    ensures id < |ix.entries|
  {
    var g := Current(ix);
    assert HeaderShaped(g, |ix.entries|);
    g.index[Find(g.index, g.tail, ix.entries[g.index[g.tail]].key, Start(m))]
  }

  function SetCurrent(ix: Index, g: Header): Index
    requires ix.headers != []
  {
    ix.(headers := ix.headers[|ix.headers| - 1 := g])
  }

  function PutKeyAt(ix: Index, id: nat): Index
    requires Slots(ix.shape.ring) != [] && id < |ix.entries|
  {
    var x := ix.shape;
    ix.(entries := ix.entries[id := ix.entries[id].(key := Start(x.ring.top + 1))],
        shape := Shape(Keyed(x.ring), x.home, {x.ring.top + 1}))
  }

  function TailForward(ix: Index): Index
    requires Shaped(ix)
  {
    var x, g := ix.shape, Current(ix);
    assert HeaderShaped(g, |ix.entries|);
    SetCurrent(ix, g.(tail := (g.tail + 1) % |g.index|)).(shape := x.(ring := InsertRing(x.ring)))
  }

  function TailBack(ix: Index): Index
    requires Shaped(ix)
  {
    var x, g := ix.shape, Current(ix);
    assert HeaderShaped(g, |ix.entries|);
    SetCurrent(ix, g.(tail := (g.tail - 1) % |g.index|))
      .(shape := x.(ring := if x.ring.below == [] then x.ring else RewindRing(x.ring)))
  }

  function Grown(ix: Index, values: seq<Option<nat>>): Index
    requires Shaped(ix)
  {
    var x, g := ix.shape, Current(ix);
    assert HeaderShaped(g, |ix.entries|);
    Index(ix.headers + [Larger(g, |ix.entries|, x.ring.top)],
          ix.entries + FreshEntries(values),
          x.(ring := Ring([], FreshIds(|ix.entries|, |values|), x.ring.below, x.ring.top)))
  }

  /** Store a value into an entry, the one of block m. */
  function Stored(ix: Index, id: nat, m: int, value: Option<nat>): Index
    requires id < |ix.entries|
  {
    var x := ix.shape;
    ix.(entries := ix.entries[id := ix.entries[id].(value := value)],
        shape := Shape(x.ring, if value.Some? then x.home[m := id] else x.home - {m}, x.unset - {m}))
  }

  // ---------------------------------------------------------------------------------
  // Steps
  // ---------------------------------------------------------------------------------

  function BlockOf(e: int): int
  {
    e / BLOCK_SIZE
  }

  function Gone(s: State, m: int): nat
  {
    if m in s.gone then s.gone[m] else 0
  }

  /** Whether the next step of the code can be taken. */
  predicate Enabled(s: State, step: Step)
  {
    && Shaped(s.ix)
    && match step
       case PutKey => s.producer.Working? && Reusable(s.ix.entries[Upcoming(s.ix)])
       case Grow(values) =>
         && s.producer.Working? && !Reusable(s.ix.entries[Upcoming(s.ix)])
         && |values| == |Current(s.ix).index| < MAX_CAPACITY
       case MoveTail => s.producer.KeyPut?
       case PutBlock(_) => s.producer.TailPut?
       case Drop => s.producer.TailPut?
       case ClearDropped => s.producer.Dropping?
       case GiveUp => s.producer.Working?
       case ClearNew => s.producer.Undoing? && s.producer.next <= s.producer.last
       case RewindNew => s.producer.Rewinding?
       case Undone => s.producer.Undoing? && s.producer.next > s.producer.last
       case Publish(to) =>
         && s.producer.Working? && s.elements < to
         && BLOCK_SIZE * s.ix.shape.ring.top < to <= BLOCK_SIZE * (s.ix.shape.ring.top + 1)
       case Claim(k, count) => k < |s.readers| && s.readers[k].Resting? && 0 < count && s.head + count <= s.elements
       case Load(k) => k < |s.readers| && Loadable(s.ix, s.readers[k])
       case Empty(k) => k < |s.readers| && s.readers[k].At? && s.readers[k].h < |s.ix.headers|
       case Clear(k) =>
         && k < |s.readers| && s.readers[k].Clearing? && s.readers[k].h < |s.ix.headers|
         && s.readers[k].slot < |s.ix.headers[s.readers[k].h].index|
  }

  predicate Loadable(ix: Index, r: Reader)
  {
    match r
    case Claimed(_, _) => true
    case HasHeader(_, _, h) => h < |ix.headers|
    case HasTail(_, _, h, tail) => h < |ix.headers| && tail < |ix.headers[h].index|
    case _ => false
  }

  /** One load of get_block_index_index_for_index. */
  function Loaded(ix: Index, r: Reader): Reader
    requires Shaped(ix) && Loadable(ix, r)
  {
    match r
    case Claimed(e, f) => HasHeader(e, f, |ix.headers| - 1)
    case HasHeader(e, f, h) => HasTail(e, f, h, ix.headers[h].tail)
    case HasTail(e, f, h, tail) =>
      assert HeaderShaped(ix.headers[h], |ix.entries|);
      var g := ix.headers[h];
      At(e, f, h, Find(g.index, tail, ix.entries[g.index[tail]].key, Wrap(e)))
    case _ => r
  }

  function Min(a: int, b: int): int
  {
    if a < b then a else b
  }

  function Max(a: int, b: int): int
  {
    if a < b then b else a
  }

  /** On to the next slot, unless all elements are done. */
  function Onward(e: int, f: int, h: nat, slot: nat, capacity: nat): Reader
    requires capacity > 0
  {
    if e >= f then Resting else At(e, f, h, (slot + 1) % capacity)
  }

  /** set_empty or set_many_empty on the elements of one block. */
  function Emptied(s: State, k: nat): State
    requires Enabled(s, Empty(k))
  {
    var At(e, f, h, slot) := s.readers[k];
    assert HeaderShaped(s.ix.headers[h], |s.ix.entries|);
    var m := BlockOf(e);
    var end := Min(f, BLOCK_SIZE * (m + 1));
    var gone := Gone(s, m) + Max(end - e, 0);
    s.(gone := s.gone[m := gone],
       readers := s.readers[k := if gone == BLOCK_SIZE then Clearing(end, f, h, slot, m)
                                 else Onward(end, f, h, slot, |s.ix.headers[h].index|)])
  }

  /** The entry of an emptied block is given up. */
  function Cleared(s: State, k: nat): State
    requires Enabled(s, Clear(k))
  {
    var Clearing(e, f, h, slot, m) := s.readers[k];
    assert HeaderShaped(s.ix.headers[h], |s.ix.entries|);
    s.(ix := Stored(s.ix, s.ix.headers[h].index[slot], m, None),
       readers := s.readers[k := Onward(e, f, h, slot, |s.ix.headers[h].index|)])
  }

  /** The entry that got no block is withdrawn; then the other new blocks are undone. */
  function DroppedAt(s: State, id: nat): State
    requires id < |s.ix.entries|
  {
    var top := s.ix.shape.ring.top;
    s.(ix := Stored(s.ix, id, top + 1, None), producer := Undoing(s.published + 1, top))
  }

  function Next(s: State, step: Step): State
    requires Enabled(s, step)
  {
    var top := s.ix.shape.ring.top;
    match step
    case PutKey => s.(ix := PutKeyAt(s.ix, Upcoming(s.ix)), producer := KeyPut)
    case Grow(values) => s.(ix := Grown(s.ix, values))
    case MoveTail => s.(ix := TailForward(s.ix), producer := TailPut)
    case PutBlock(block) =>
      s.(ix := Stored(s.ix, Latest(s.ix), top, Some(block)), producer := Working, blocks := s.blocks[top := block])
    case Drop => s.(ix := TailBack(s.ix), producer := Dropping)
    case ClearDropped => DroppedAt(s, Upcoming(s.ix))
    case GiveUp => s.(producer := Undoing(s.published + 1, top))
    case ClearNew =>
      s.(ix := Stored(s.ix, Looked(s.ix, s.producer.next), s.producer.next, None),
         producer := Rewinding(s.producer.next, s.producer.last))
    case RewindNew => s.(ix := TailBack(s.ix), producer := Undoing(s.producer.next + 1, s.producer.last))
    case Undone => s.(producer := Working)
    case Publish(to) => s.(elements := to, published := top)
    case Claim(k, count) => s.(head := s.head + count, readers := s.readers[k := Claimed(s.head, s.head + count)])
    case Load(k) => s.(readers := s.readers[k := Loaded(s.ix, s.readers[k])])
    case Empty(k) => Emptied(s, k)
    case Clear(k) => Cleared(s, k)
  }

  // ---------------------------------------------------------------------------------
  // The index under each store
  // ---------------------------------------------------------------------------------

  predicate KeyStored(ix: Index, id: nat)
  {
    id < |ix.entries| && ix.entries[id].key != INVALID_BASE
  }

  ghost predicate TailStored(ix: Index, h: nat)
    requires Shaped(ix) && h < |ix.headers|
  {
    HeaderShaped(ix.headers[h], |ix.entries|) && KeyStored(ix, ix.headers[h].index[ix.headers[h].tail])
  }

  ghost predicate HeadersOk(ix: Index)
    requires Shaped(ix)
  {
    && (forall h :: 0 <= h < |ix.headers| ==> Nested(ix.headers[h], Current(ix)))
    && (forall h :: 0 <= h < |ix.headers| - 1 ==> TailStored(ix, h))
  }

  /** The current header holds the ring; the older ones nest in it and have a key at their tail. */
  ghost predicate IndexOk(ix: Index)
  {
    Shaped(ix) && RingAt(Current(ix), ix.entries, ix.shape) && HeadersOk(ix)
  }

  /** Slots are never rewritten and keys never withdrawn. */
  ghost predicate Carries(ix: Index, jx: Index)
  {
    && |ix.headers| <= |jx.headers| && |ix.entries| <= |jx.entries|
    && (forall h :: 0 <= h < |ix.headers| ==> jx.headers[h].index == ix.headers[h].index)
    && (forall id :: 0 <= id < |ix.entries| && KeyStored(ix, id) ==> KeyStored(jx, id))
  }

  /** Only the tail of the current header, the entries and the shape may change. */
  ghost predicate SameSlots(ix: Index, jx: Index)
  {
    && ix.headers != [] && |jx.headers| == |ix.headers| && |jx.entries| == |ix.entries|
    && (forall h :: 0 <= h < |ix.headers| - 1 ==> jx.headers[h] == ix.headers[h])
    && Current(jx).index == Current(ix).index && Current(jx).base == Current(ix).base
    && Current(jx).tail < |Current(jx).index| && Slots(jx.shape.ring) != []
  }

  lemma HeaderKept(ix: Index, jx: Index, h: nat)
    requires Shaped(ix) && HeadersOk(ix) && SameSlots(ix, jx) && h < |ix.headers|
    ensures HeaderShaped(jx.headers[h], |jx.entries|) && Nested(jx.headers[h], Current(jx))
  {
    assert HeaderShaped(ix.headers[h], |ix.entries|) && Nested(ix.headers[h], Current(ix));
    assert h < |ix.headers| - 1 ==> jx.headers[h] == ix.headers[h];
    NestedSame(ix.headers[h], Current(ix), jx.headers[h], Current(jx));
  }

  lemma IndexKept(ix: Index, jx: Index)
    requires IndexOk(ix) && SameSlots(ix, jx) && Carries(ix, jx) && RingAt(Current(jx), jx.entries, jx.shape)
    ensures IndexOk(jx)
  {
    forall h | 0 <= h < |jx.headers|
      ensures HeaderShaped(jx.headers[h], |jx.entries|) && Nested(jx.headers[h], Current(jx))
    {
      HeaderKept(ix, jx, h);
    }
    forall h | 0 <= h < |jx.headers| - 1
      ensures TailStored(jx, h)
    {
      assert TailStored(ix, h);
    }
  }

  lemma UpcomingIs(ix: Index)
    requires IndexOk(ix)
    ensures Upcoming(ix) == Slots(ix.shape.ring)[0]
  {
    NextSlot(Current(ix).index, Current(ix).tail);
  }

  lemma PutKeyIndex(ix: Index, id: nat)
    requires IndexOk(ix) && id == Slots(ix.shape.ring)[0] && id < |ix.entries| && Reusable(ix.entries[id])
    requires ix.shape.unset == {} && forall m :: m in ix.shape.home ==> m <= ix.shape.ring.top
    ensures IndexOk(PutKeyAt(ix, id)) && Carries(ix, PutKeyAt(ix, id))
  {
    PutKeyRing(ix, id);
    PutKeyStays(ix, id);
    IndexKept(ix, PutKeyAt(ix, id));
  }

  lemma PutKeyRing(ix: Index, id: nat)
    requires ix.headers != [] && RingAt(Current(ix), ix.entries, ix.shape) && Slots(ix.shape.ring) != []
    requires id == Slots(ix.shape.ring)[0] && id < |ix.entries| && Reusable(ix.entries[id])
    requires ix.shape.unset == {} && forall m :: m in ix.shape.home ==> m <= ix.shape.ring.top
    ensures RingAt(Current(PutKeyAt(ix, id)), PutKeyAt(ix, id).entries, PutKeyAt(ix, id).shape)
  {
    KeyedRing(Current(ix), ix.entries, ix.shape, id);
  }

  lemma PutKeyStays(ix: Index, id: nat)
    requires Shaped(ix) && id < |ix.entries|
    ensures SameSlots(ix, PutKeyAt(ix, id)) && Carries(ix, PutKeyAt(ix, id))
  {
    KeyedSlots(ix.shape.ring);
    assert HeaderShaped(Current(ix), |ix.entries|);
    StartIsNotInvalid(ix.shape.ring.top + 1);
  }

  lemma TailForwardIndex(ix: Index)
    requires IndexOk(ix) && ix.shape.ring.above != []
    ensures IndexOk(TailForward(ix)) && Carries(ix, TailForward(ix))
  {
    AdvancedRing(Current(ix), ix.entries, ix.shape);
    TailForwardStays(ix);
    IndexKept(ix, TailForward(ix));
  }

  lemma TailForwardStays(ix: Index)
    requires Shaped(ix)
    ensures SameSlots(ix, TailForward(ix)) && Carries(ix, TailForward(ix))
  {
    assert HeaderShaped(Current(ix), |ix.entries|);
    CongRemainder(Current(ix).tail + 1, |Current(ix).index|);
    var r := Inserted(ix.shape.ring);
  }

  lemma TailBackIndex(ix: Index)
    requires IndexOk(ix) && ix.shape.ring.below != []
    ensures IndexOk(TailBack(ix)) && Carries(ix, TailBack(ix))
    ensures TailBack(ix).shape == ix.shape.(ring := RewindRing(ix.shape.ring)) && TailBack(ix).entries == ix.entries
  {
    RewoundRing(Current(ix), ix.entries, ix.shape);
    TailBackStays(ix);
    IndexKept(ix, TailBack(ix));
  }

  lemma TailBackStays(ix: Index)
    requires Shaped(ix) && ix.shape.ring.below != []
    ensures SameSlots(ix, TailBack(ix)) && Carries(ix, TailBack(ix))
  {
    assert HeaderShaped(Current(ix), |ix.entries|);
    CongRemainder(Current(ix).tail - 1, |Current(ix).index|);
    var r := Rewound(ix.shape.ring);
  }

  lemma StoredIndex(ix: Index, id: nat, m: int, value: Option<nat>)
    requires IndexOk(ix) && Covers(ix.shape.ring, m) && id == EntryFor(ix.shape.ring, m) && id < |ix.entries|
    ensures IndexOk(Stored(ix, id, m, value)) && Carries(ix, Stored(ix, id, m, value))
  {
    StoreKeeps(ix.entries, ix.shape, m, value);
    IndexKept(ix, Stored(ix, id, m, value));
  }

  lemma GrownIndex(ix: Index, values: seq<Option<nat>>)
    requires IndexOk(ix) && ix.shape.ring.above == [] && ix.shape.ring.unused == []
    requires |values| == |Current(ix).index| < MAX_CAPACITY
    ensures IndexOk(Grown(ix, values)) && Carries(ix, Grown(ix, values))
  {
    LargerRing(Current(ix), ix.entries, ix.shape, values);
    assert ix.shape.ring.below != [] by { assert Slots(ix.shape.ring) == ix.shape.ring.below; }
    GrownHeaders(ix, Grown(ix, values));
  }

  lemma GrownHeaders(ix: Index, jx: Index)
    requires IndexOk(ix) && ix.shape.ring.below != [] && Carries(ix, jx)
    requires jx.headers == ix.headers + [Larger(Current(ix), |ix.entries|, ix.shape.ring.top)]
    requires RingAt(Current(jx), jx.entries, jx.shape)
    ensures IndexOk(jx)
  {
    var g, cur := Current(ix), Current(jx);
    RingFacts(g, ix.entries, ix.shape);
    RingFacts(cur, jx.entries, jx.shape);
    NestedInLarger(g, |ix.entries|, ix.shape.ring.top);
    NestedInItself(cur);
    forall h | 0 <= h < |jx.headers|
      ensures HeaderShaped(jx.headers[h], |jx.entries|) && Nested(jx.headers[h], cur)
    {
      if h < |ix.headers| {
        assert HeaderShaped(ix.headers[h], |ix.entries|) && Nested(ix.headers[h], g);
        NestedTrans(ix.headers[h], g, cur);
      }
    }
    OldTails(ix, jx);
  }

  /** The tail of every superseded header has a key, now also that of the one just replaced. */
  lemma OldTails(ix: Index, jx: Index)
    requires IndexOk(ix) && Carries(ix, jx) && ix.shape.ring.below != [] && Shaped(jx)
    requires |jx.headers| == |ix.headers| + 1 && forall h :: 0 <= h < |ix.headers| ==> jx.headers[h] == ix.headers[h]
    ensures forall h :: 0 <= h < |jx.headers| - 1 ==> TailStored(jx, h)
  {
    TailKey(Current(ix), ix.entries, ix.shape);
    forall h | 0 <= h < |jx.headers| - 1
      ensures TailStored(jx, h)
    {
      assert HeaderShaped(jx.headers[h], |jx.entries|);
      assert h < |ix.headers| - 1 ==> TailStored(ix, h);
    }
  }

  /** The tail that a lookup reads in any header has a key. */
  lemma AnyTailStored(ix: Index, h: nat)
    requires IndexOk(ix) && ix.shape.ring.below != [] && h < |ix.headers|
    ensures TailStored(ix, h)
  {
    assert HeaderShaped(ix.headers[h], |ix.entries|);
    if h < |ix.headers| - 1 {
      assert TailStored(ix, h);
    } else {
      TailKey(Current(ix), ix.entries, ix.shape);
    }
  }

  // ---------------------------------------------------------------------------------
  // Counting elements
  // ---------------------------------------------------------------------------------

  /** How many of the elements from e up to f are in block m. */
  function Overlap(e: int, f: int, m: int): nat
  {
    Max(Min(f, BLOCK_SIZE * (m + 1)) - Max(e, BLOCK_SIZE * m), 0)
  }

  function Holds(r: Reader, m: int): nat
  {
    if r.Resting? then 0 else Overlap(r.e, r.f, m)
  }

  /** The elements of block m that dequeues in progress have obtained and not yet counted as emptied. */
  function Held(readers: seq<Reader>, m: int): nat
  {
    if readers == [] then 0 else Holds(readers[0], m) + Held(readers[1..], m)
  }

  /** The elements of block m that nobody has obtained. */
  function Untaken(head: int, m: int): nat
  {
    Overlap(head, BLOCK_SIZE * (m + 1), m)
  }

  lemma {:induction false} HeldUpdate(readers: seq<Reader>, k: nat, r: Reader, m: int)
    requires k < |readers|
    ensures Held(readers[k := r], m) == Held(readers, m) - Holds(readers[k], m) + Holds(r, m)
  {
    if k > 0 {
      assert readers[k := r][1..] == readers[1..][k - 1 := r];
      HeldUpdate(readers[1..], k - 1, r, m);
    } else {
      assert readers[k := r][1..] == readers[1..];
    }
  }

  lemma {:induction false} HeldBound(readers: seq<Reader>, k: nat, m: int)
    requires k < |readers|
    ensures Holds(readers[k], m) <= Held(readers, m)
  {
    if k > 0 { HeldBound(readers[1..], k - 1, m); }
  }

  lemma {:induction false} RestingHold(readers: seq<Reader>, m: int)
    requires forall k :: 0 <= k < |readers| ==> readers[k].Resting?
    ensures Held(readers, m) == 0
  {
    if readers != [] { RestingHold(readers[1..], m); }
  }

  /** Block n has one of the elements from e up to f. */
  predicate Spans(e: int, f: int, n: int)
  {
    e < f && BlockOf(e) <= n <= BlockOf(f - 1)
  }

  lemma SpanOverlaps(e: int, f: int, n: int)
    ensures Spans(e, f, n) ==> Overlap(e, f, n) > 0
  {
  }

  // ---------------------------------------------------------------------------------
  // The invariant
  // ---------------------------------------------------------------------------------

  /** The live blocks above the published ones are those from next to last. */
  ghost predicate NewBlocks(x: Shape, published: int, next: int, last: int)
  {
    && (forall m :: m in x.home ==> m <= published || next <= m <= last)
    && (forall m :: next <= m <= last ==> m in x.home)
  }

  ghost predicate ProducerAt(p: Producer, x: Shape, published: int)
  {
    var top := x.ring.top;
    match p
    case Working => x.unset == {} && published <= top && NewBlocks(x, published, published + 1, top)
    case KeyPut => x.unset == {top + 1} && published <= top && NewBlocks(x, published, published + 1, top)
    case TailPut => x.unset == {top} && published < top && NewBlocks(x, published, published + 1, top - 1)
    case Dropping => x.unset == {top + 1} && published <= top && NewBlocks(x, published, published + 1, top)
    case Undoing(k, n) =>
      && x.unset == {} && published < k <= n + 1 && top == n + published + 1 - k && NewBlocks(x, published, k, n)
      && (forall m :: published < m <= n ==> Covers(x.ring, m))
    case Rewinding(k, n) =>
      && x.unset == {} && published < k <= n && top == n + published + 1 - k && NewBlocks(x, published, k + 1, n)
      && (forall m :: published < m <= n ==> Covers(x.ring, m))
  }

  ghost predicate ProducerOk(s: State)
  {
    ProducerAt(s.producer, s.ix.shape, s.published)
  }

  /** Every element of block m is counted as emptied, obtained, or still to be obtained; and a
      published block that is not live has been emptied. */
  ghost predicate BlockCounted(s: State, m: int)
  {
    && Gone(s, m) + Held(s.readers, m) + Untaken(s.head, m) == BLOCK_SIZE
    && (m <= s.published && m !in s.ix.shape.home ==> Gone(s, m) == BLOCK_SIZE)
  }

  ghost predicate Counted(s: State)
  {
    && s.first <= s.published + 1
    && BLOCK_SIZE * s.first <= s.head <= s.elements <= BLOCK_SIZE * (s.published + 1)
    && (forall m :: s.first <= m ==> BlockCounted(s, m))
  }

  /** The entry of every live block holds the Block that was stored for it. */
  ghost predicate ValuesOk(s: State)
  {
    forall m :: m in s.ix.shape.home ==>
      m in s.blocks && s.ix.shape.home[m] < |s.ix.entries| && s.ix.entries[s.ix.shape.home[m]].value == Some(s.blocks[m])
  }

  /** The blocks of the elements from e up to f are live. */
  ghost predicate Live(s: State, e: int, f: int)
  {
    BLOCK_SIZE * s.first <= e < f <= s.head && forall n :: Spans(e, f, n) ==> n in s.ix.shape.home
  }

  /** And header h has their entries. */
  ghost predicate Placed(s: State, e: int, f: int, h: nat)
  {
    && Live(s, e, f) && h < |s.ix.headers|
    && (forall n :: Spans(e, f, n) ==> s.ix.shape.home[n] in s.ix.headers[h].index)
  }

  ghost predicate SlotHas(s: State, h: nat, slot: nat, m: int)
  {
    && h < |s.ix.headers| && slot < |s.ix.headers[h].index|
    && m in s.ix.shape.home && s.ix.headers[h].index[slot] == s.ix.shape.home[m]
  }

  ghost predicate ReaderOk(s: State, r: Reader)
  {
    match r
    case Resting => true
    case Claimed(e, f) => Live(s, e, f)
    case HasHeader(e, f, h) => Placed(s, e, f, h)
    case HasTail(e, f, h, tail) =>
      Placed(s, e, f, h) && tail < |s.ix.headers[h].index| && KeyStored(s.ix, s.ix.headers[h].index[tail])
    case At(e, f, h, slot) => Placed(s, e, f, h) && SlotHas(s, h, slot, BlockOf(e))
    case Clearing(e, f, h, slot, m) =>
      && s.first <= m <= s.published && Gone(s, m) == BLOCK_SIZE && SlotHas(s, h, slot, m)
      && (e < f ==> Placed(s, e, f, h) && BlockOf(e) == m + 1)
  }

  /** No two consumers withdraw the same block. */
  ghost predicate Exclusive(readers: seq<Reader>)
  {
    forall j, k :: 0 <= j < k < |readers| && readers[j].Clearing? && readers[k].Clearing? ==> readers[j].m != readers[k].m
  }

  ghost predicate ReadersOk(s: State)
  {
    Exclusive(s.readers) && forall k :: 0 <= k < |s.readers| ==> ReaderOk(s, s.readers[k])
  }

  ghost predicate Inv(s: State)
  {
    IndexOk(s.ix) && ProducerOk(s) && Counted(s) && ValuesOk(s) && ReadersOk(s)
  }

  /** The published blocks are at or below the top. */
  lemma PublishedBelow(s: State)
    requires ProducerOk(s)
    ensures s.published <= s.ix.shape.ring.top
  {
  }

  /** A live block has its own entry, at or below the top if it is published. */
  lemma LiveEntry(s: State, m: int)
    requires IndexOk(s.ix) && ProducerOk(s) && m in s.ix.shape.home && m <= s.published
    ensures var x := s.ix.shape;
      Covers(x.ring, m) && x.home[m] == EntryFor(x.ring, m) && x.ring.below != [] && x.home[m] in Current(s.ix).index
  {
    PublishedBelow(s);
    assert Covers(s.ix.shape.ring, m) && BlockSound(s.ix.entries, s.ix.shape, m);
    CoveredBelow(Current(s.ix), s.ix.entries, s.ix.shape, m);
  }

  lemma SpanPublished(s: State, e: int, f: int, n: int)
    requires Counted(s) && Live(s, e, f) && Spans(e, f, n)
    ensures s.first <= n <= s.published
  {
  }

  // ---------------------------------------------------------------------------------
  // The producer's steps
  // ---------------------------------------------------------------------------------

  /** What a step of the producer leaves to the consumers. */
  ghost predicate Untouched(s: State, t: State)
  {
    && t.readers == s.readers && t.first == s.first && t.head == s.head && t.gone == s.gone
    && s.published <= t.published && Carries(s.ix, t.ix)
    && (forall m :: m <= s.published && m in s.ix.shape.home ==>
          m in t.ix.shape.home && t.ix.shape.home[m] == s.ix.shape.home[m])
    && (forall m :: s.published < m <= t.published ==> m in t.ix.shape.home)
    && t.head <= t.elements <= BLOCK_SIZE * (t.published + 1)
  }

  lemma LiveKept(s: State, t: State, e: int, f: int)
    requires Counted(s) && Untouched(s, t) && Live(s, e, f)
    ensures Live(t, e, f) && forall n :: Spans(e, f, n) ==> t.ix.shape.home[n] == s.ix.shape.home[n]
  {
    forall n | Spans(e, f, n)
      ensures n in t.ix.shape.home && t.ix.shape.home[n] == s.ix.shape.home[n]
    {
      SpanPublished(s, e, f, n);
    }
  }

  lemma ReaderKept(s: State, t: State, r: Reader)
    requires Counted(s) && Untouched(s, t) && ReaderOk(s, r)
    ensures ReaderOk(t, r)
  {
    if !r.Resting? && r.e < r.f && (r.Clearing? || Live(s, r.e, r.f)) { LiveKept(s, t, r.e, r.f); }
    if r.At? { SpanPublished(s, r.e, r.f, BlockOf(r.e)); }
  }

  lemma ProducerStep(s: State, t: State)
    requires Inv(s) && Untouched(s, t) && IndexOk(t.ix) && ProducerOk(t) && ValuesOk(t)
    ensures Inv(t)
  {
    forall m | t.first <= m
      ensures BlockCounted(t, m)
    {
      assert BlockCounted(s, m);
    }
    forall k | 0 <= k < |t.readers|
      ensures ReaderOk(t, t.readers[k])
    {
      assert ReaderOk(s, s.readers[k]);
      ReaderKept(s, t, s.readers[k]);
    }
  }

  ghost predicate SameValues(ix: Index, jx: Index)
  {
    && |ix.entries| <= |jx.entries| && jx.shape.home == ix.shape.home
    && forall id :: 0 <= id < |ix.entries| ==> jx.entries[id].value == ix.entries[id].value
  }

  /** A step that changes keys, tails or headers but no value. */
  lemma QuietStep(s: State, jx: Index, p: Producer)
    requires Inv(s) && IndexOk(jx) && Carries(s.ix, jx) && SameValues(s.ix, jx) && ProducerOk(s.(ix := jx, producer := p))
    ensures Inv(s.(ix := jx, producer := p))
  {
    ProducerStep(s, s.(ix := jx, producer := p));
  }

  lemma AfterKey(x: Shape, published: int)
    requires ProducerAt(Working, x, published) && Slots(x.ring) != []
    ensures ProducerAt(KeyPut, Shape(Keyed(x.ring), x.home, {x.ring.top + 1}), published)
    ensures forall m :: m in x.home ==> m <= x.ring.top
  {
    KeyedSlots(x.ring);
  }

  lemma KeepPutKey(s: State)
    requires Inv(s) && Enabled(s, PutKey)
    ensures Inv(Next(s, PutKey))
  {
    var id := Upcoming(s.ix);
    UpcomingIs(s.ix);
    AfterKey(s.ix.shape, s.published);
    PutKeyIndex(s.ix, id);
    QuietStep(s, PutKeyAt(s.ix, id), KeyPut);
  }

  lemma FullIndex(ix: Index)
    requires IndexOk(ix) && ix.shape.unset == {} && !Reusable(ix.entries[Upcoming(ix)])
    requires forall m :: m in ix.shape.home ==> m <= ix.shape.ring.top
    ensures ix.shape.ring.above == [] && ix.shape.ring.unused == []
  {
    UpcomingIs(ix);
    FullRing(ix.entries, ix.shape);
  }

  lemma KeepGrow(s: State, values: seq<Option<nat>>)
    requires Inv(s) && Enabled(s, Grow(values))
    ensures Inv(Next(s, Grow(values)))
  {
    FullIndex(s.ix);
    GrownIndex(s.ix, values);
    QuietStep(s, Grown(s.ix, values), Working);
  }

  /** Before the tail moves on, the next block is covered and stands above the top. */
  lemma UnsetAbove(ix: Index, m: int)
    requires IndexOk(ix) && m in ix.shape.unset
    ensures Covers(ix.shape.ring, m)
  {
  }

  lemma KeepMoveTail(s: State)
    requires Inv(s) && Enabled(s, MoveTail)
    ensures Inv(Next(s, MoveTail))
  {
    UnsetAbove(s.ix, s.ix.shape.ring.top + 1);
    TailForwardIndex(s.ix);
    QuietStep(s, TailForward(s.ix), TailPut);
  }

  lemma AfterDrop(x: Shape, published: int)
    requires ProducerAt(TailPut, x, published) && x.ring.below != []
    ensures ProducerAt(Dropping, x.(ring := RewindRing(x.ring)), published)
  {
  }

  lemma KeepDrop(s: State)
    requires Inv(s) && Enabled(s, Drop)
    ensures Inv(Next(s, Drop))
  {
    UnsetAbove(s.ix, s.ix.shape.ring.top);
    AfterDrop(s.ix.shape, s.published);
    BackStep(s, Dropping);
  }

  lemma AfterRewind(k: int, n: int, x: Shape, published: int)
    requires ProducerAt(Rewinding(k, n), x, published)
    ensures x.ring.below != [] && ProducerAt(Undoing(k + 1, n), x.(ring := RewindRing(x.ring)), published)
  {
    assert Covers(x.ring, x.ring.top);
    var back := Rewound(x.ring);
  }

  lemma KeepRewindNew(s: State)
    requires Inv(s) && Enabled(s, RewindNew)
    ensures Inv(Next(s, RewindNew))
  {
    AfterRewind(s.producer.next, s.producer.last, s.ix.shape, s.published);
    BackStep(s, Undoing(s.producer.next + 1, s.producer.last));
  }

  /** The tail moves back, and the producer goes on at p. */
  lemma BackStep(s: State, p: Producer)
    requires Inv(s) && s.ix.shape.ring.below != []
    requires ProducerAt(p, s.ix.shape.(ring := RewindRing(s.ix.shape.ring)), s.published)
    ensures Inv(s.(ix := TailBack(s.ix), producer := p))
  {
    TailBackIndex(s.ix);
    QuietStep(s, TailBack(s.ix), p);
  }

  lemma AfterGiveUp(ix: Index, published: int)
    requires IndexOk(ix) && ProducerAt(Working, ix.shape, published)
    ensures ProducerAt(Undoing(published + 1, ix.shape.ring.top), ix.shape, published)
  {
    assert forall m :: published < m <= ix.shape.ring.top ==> m in ix.shape.home;
  }

  lemma KeepGiveUp(s: State)
    requires Inv(s) && Enabled(s, GiveUp)
    ensures Inv(Next(s, GiveUp))
  {
    AfterGiveUp(s.ix, s.published);
    QuietStep(s, s.ix, Undoing(s.published + 1, s.ix.shape.ring.top));
  }

  lemma KeepUndone(s: State)
    requires Inv(s) && Enabled(s, Undone)
    ensures Inv(Next(s, Undone))
  {
    QuietStep(s, s.ix, Working);
  }

  /** A value stored for a block that is not published. */
  lemma StoreStep(s: State, id: nat, m: int, value: Option<nat>, p: Producer, blocks: map<int, nat>)
    requires Inv(s) && s.published < m && Covers(s.ix.shape.ring, m) && id == EntryFor(s.ix.shape.ring, m) && id < |s.ix.entries|
    requires blocks == if value.Some? then s.blocks[m := value.value] else s.blocks
    requires var t := s.(ix := Stored(s.ix, id, m, value), producer := p, blocks := blocks); ProducerOk(t)
    ensures Inv(s.(ix := Stored(s.ix, id, m, value), producer := p, blocks := blocks))
  {
    var t := s.(ix := Stored(s.ix, id, m, value), producer := p, blocks := blocks);
    StoredIndex(s.ix, id, m, value);
    StoredValues(s, id, m, value, blocks);
    assert ValuesOk(t);
    ProducerStep(s, t);
  }

  lemma StoredValues(s: State, id: nat, m: int, value: Option<nat>, blocks: map<int, nat>)
    requires IndexOk(s.ix) && ValuesOk(s) && Covers(s.ix.shape.ring, m) && id == EntryFor(s.ix.shape.ring, m) && id < |s.ix.entries|
    requires blocks == if value.Some? then s.blocks[m := value.value] else s.blocks
    ensures ValuesOk(s.(ix := Stored(s.ix, id, m, value), blocks := blocks))
  {
    var x := s.ix.shape;
    forall n | n in x.home && n != m
      ensures x.home[n] != id
    {
      assert Covers(x.ring, n) && BlockSound(s.ix.entries, x, n);
      EntryForInjective(x.ring, n, m);
    }
  }

  lemma LatestIs(ix: Index)
    requires IndexOk(ix) && ix.shape.ring.below != []
    ensures Latest(ix) == EntryFor(ix.shape.ring, ix.shape.ring.top)
  {
    var g := Current(ix);
    assert Unrolled(g.index, g.tail)[|g.index| - 1] == g.index[g.tail];
  }

  lemma AfterBlock(x: Shape, published: int, id: nat)
    requires ProducerAt(TailPut, x, published)
    ensures ProducerAt(Working, Shape(x.ring, x.home[x.ring.top := id], x.unset - {x.ring.top}), published)
  {
  }

  lemma KeepPutBlock(s: State, block: nat)
    requires Inv(s) && Enabled(s, PutBlock(block))
    ensures Inv(Next(s, PutBlock(block)))
  {
    var top := s.ix.shape.ring.top;
    UnsetAbove(s.ix, top);
    LatestIs(s.ix);
    AfterBlock(s.ix.shape, s.published, Latest(s.ix));
    StoreStep(s, Latest(s.ix), top, Some(block), Working, s.blocks[top := block]);
  }

  lemma AfterClearDropped(ix: Index, published: int)
    requires IndexOk(ix) && ProducerAt(Dropping, ix.shape, published)
    ensures var x, top := ix.shape, ix.shape.ring.top;
      ProducerAt(Undoing(published + 1, top), Shape(x.ring, x.home - {top + 1}, x.unset - {top + 1}), published)
  {
    assert forall m :: published < m <= ix.shape.ring.top ==> m in ix.shape.home;
  }

  lemma UpcomingFor(ix: Index)
    requires IndexOk(ix) && Covers(ix.shape.ring, ix.shape.ring.top + 1)
    ensures Upcoming(ix) == EntryFor(ix.shape.ring, ix.shape.ring.top + 1)
  {
    UpcomingIs(ix);
    FirstSlot(ix.shape.ring);
  }

  lemma KeepClearDropped(s: State)
    requires Inv(s) && Enabled(s, ClearDropped)
    ensures Inv(Next(s, ClearDropped))
  {
    UnsetAbove(s.ix, s.ix.shape.ring.top + 1);
    UpcomingFor(s.ix);
    DropEntry(s, Upcoming(s.ix));
  }

  lemma DropEntry(s: State, id: nat)
    requires Inv(s) && s.producer == Dropping && Covers(s.ix.shape.ring, s.ix.shape.ring.top + 1)
    requires id == EntryFor(s.ix.shape.ring, s.ix.shape.ring.top + 1) && id < |s.ix.entries|
    ensures Inv(DroppedAt(s, id))
  {
    var top := s.ix.shape.ring.top;
    AfterClearDropped(s.ix, s.published);
    StoreStep(s, id, top + 1, None, Undoing(s.published + 1, top), s.blocks);
  }

  /** The producer finds the entry of its new block, also when the tail is already below it. */
  lemma LookedIs(ix: Index, m: int)
    requires IndexOk(ix) && ix.shape.ring.below != [] && Covers(ix.shape.ring, m)
    ensures Looked(ix, m) == EntryFor(ix.shape.ring, m)
  {
    assert Start(m) == Element(m, 0);
    LookupFinds(Current(ix).index, Current(ix).tail, ix.entries, ix.shape, m, Start(m));
  }

  lemma AfterClearNew(k: int, n: int, x: Shape, published: int)
    requires ProducerAt(Undoing(k, n), x, published) && k <= n
    ensures Covers(x.ring, k) && x.ring.below != []
    ensures ProducerAt(Rewinding(k, n), Shape(x.ring, x.home - {k}, x.unset - {k}), published)
  {
    assert Covers(x.ring, x.ring.top);
  }

  lemma KeepClearNew(s: State)
    requires Inv(s) && Enabled(s, ClearNew)
    ensures Inv(Next(s, ClearNew))
  {
    var Undoing(k, n) := s.producer;
    AfterClearNew(k, n, s.ix.shape, s.published);
    LookedIs(s.ix, k);
    StoreStep(s, Looked(s.ix, k), k, None, Rewinding(k, n), s.blocks);
  }

  lemma KeepPublish(s: State, to: int)
    requires Inv(s) && Enabled(s, Publish(to))
    ensures Inv(Next(s, Publish(to)))
  {
    ProducerStep(s, Next(s, Publish(to)));
  }

  // ---------------------------------------------------------------------------------
  // The consumers' steps
  // ---------------------------------------------------------------------------------

  /** ReaderOk does not look at the other readers. */
  lemma OthersOk(s: State, t: State, k: nat, r: Reader)
    requires ReadersOk(s) && k < |s.readers| && t.readers == s.readers[k := r] && ReaderOk(t, r)
    requires forall j :: 0 <= j < |s.readers| && j != k ==> ReaderOk(t, s.readers[j])
    requires r.Clearing? ==> forall j :: 0 <= j < |s.readers| && j != k && s.readers[j].Clearing? ==> s.readers[j].m != r.m
    ensures ReadersOk(t)
  {
  }

  /** A step of a consumer that leaves the index and the producer alone. */
  ghost predicate IndexStays(s: State, t: State)
  {
    t.ix == s.ix && t.producer == s.producer && t.first == s.first && t.published == s.published && t.blocks == s.blocks
  }

  lemma ConsumerStep(s: State, t: State)
    requires Inv(s) && IndexStays(s, t) && Counted(t) && ReadersOk(t)
    ensures Inv(t)
  {
  }

  /** A load moves one lookup on and changes nothing else. */
  lemma LoadStep(s: State, k: nat, r: Reader)
    requires Inv(s) && k < |s.readers| && ReaderOk(s, r) && !r.Clearing? && !s.readers[k].Resting? && !r.Resting?
    requires r.e == s.readers[k].e && r.f == s.readers[k].f
    ensures Inv(s.(readers := s.readers[k := r]))
  {
    var t := s.(readers := s.readers[k := r]);
    forall m | t.first <= m
      ensures BlockCounted(t, m)
    {
      assert BlockCounted(s, m);
      HeldUpdate(s.readers, k, r, m);
    }
    ReadersMove(s, t, k, r);
    ConsumerStep(s, t);
  }

  lemma ReadersMove(s: State, t: State, k: nat, r: Reader)
    requires ReadersOk(s) && k < |s.readers| && t.readers == s.readers[k := r] && ReaderOk(t, r) && !r.Clearing?
    requires IndexStays(s, t) && s.head <= t.head && t.gone == s.gone
    ensures ReadersOk(t)
  {
    forall j | 0 <= j < |s.readers| && j != k
      ensures ReaderOk(t, s.readers[j])
    {
      assert ReaderOk(s, s.readers[j]);
      SameReader(s, t, s.readers[j]);
    }
    OthersOk(s, t, k, r);
  }

  /** A reader stays right while index and counts stay and the head does not go back. */
  lemma SameReader(s: State, t: State, r: Reader)
    requires ReaderOk(s, r) && t.ix == s.ix && t.first == s.first && t.published == s.published && s.head <= t.head
    requires r.Clearing? ==> Gone(t, r.m) == Gone(s, r.m)
    ensures ReaderOk(t, r)
  {
  }

  lemma ElementIs(e: int)
    ensures ElementOf(Wrap(e), BlockOf(e))
  {
    assert Wrap(e) == Element(BlockOf(e), e % BLOCK_SIZE) by { assert BLOCK_SIZE * BlockOf(e) + e % BLOCK_SIZE == e; }
  }

  /** Whatever the producer did between the three loads, the lookup ends at the entry of its
      element's block. */
  lemma KeyLoadFinds(s: State, r: Reader)
    requires Inv(s) && r.HasTail? && ReaderOk(s, r)
    ensures Loadable(s.ix, r) && Loaded(s.ix, r).At? && SlotHas(s, r.h, Loaded(s.ix, r).slot, BlockOf(r.e))
  {
    var HasTail(e, f, h, tail) := r;
    assert Spans(e, f, BlockOf(e));
    SpanPublished(s, e, f, BlockOf(e));
    LiveEntry(s, BlockOf(e));
    ElementIs(e);
    assert Nested(s.ix.headers[h], Current(s.ix));
    LookupIn(s.ix.headers[h], Current(s.ix), s.ix.entries, s.ix.shape, tail, BlockOf(e), Wrap(e));
  }

  lemma HeaderLoadFinds(s: State, e: int, f: int)
    requires Inv(s) && Live(s, e, f)
    ensures Placed(s, e, f, |s.ix.headers| - 1)
  {
    forall n | Spans(e, f, n)
      ensures s.ix.shape.home[n] in Current(s.ix).index
    {
      SpanPublished(s, e, f, n);
      LiveEntry(s, n);
    }
  }

  lemma LoadKeeps(s: State, r: Reader)
    requires Inv(s) && ReaderOk(s, r) && Loadable(s.ix, r)
    ensures ReaderOk(s, Loaded(s.ix, r)) && !Loaded(s.ix, r).Clearing? && !Loaded(s.ix, r).Resting?
    ensures Loaded(s.ix, r).e == r.e && Loaded(s.ix, r).f == r.f
  {
    match r
    case Claimed(e, f) => HeaderLoadFinds(s, e, f);
    case HasHeader(e, f, h) =>
      assert Spans(e, f, BlockOf(e));
      SpanPublished(s, e, f, BlockOf(e));
      LiveEntry(s, BlockOf(e));
      AnyTailStored(s.ix, h);
    case HasTail(_, _, _, _) => KeyLoadFinds(s, r);
  }

  lemma KeepLoad(s: State, k: nat)
    requires Inv(s) && Enabled(s, Load(k))
    ensures Inv(Next(s, Load(k)))
  {
    assert ReaderOk(s, s.readers[k]);
    LoadKeeps(s, s.readers[k]);
    LoadStep(s, k, Loaded(s.ix, s.readers[k]));
  }

  /** Elements nobody has obtained are in live blocks. */
  lemma UntakenLive(s: State, e: int, f: int)
    requires Counted(s) && s.head == e < f <= s.elements
    ensures Live(s.(head := f), e, f)
  {
    forall n | Spans(e, f, n)
      ensures n in s.ix.shape.home
    {
      SpanOverlaps(e, f, n);
      assert BlockCounted(s, n);
    }
  }

  lemma TakeCounted(head: int, count: nat, m: int)
    ensures Overlap(head, head + count, m) + Untaken(head + count, m) == Untaken(head, m)
  {
  }

  lemma ClaimCounted(s: State, k: nat, count: nat)
    requires Inv(s) && Enabled(s, Claim(k, count))
    ensures Counted(Next(s, Claim(k, count)))
  {
    var t := Next(s, Claim(k, count));
    forall m | t.first <= m
      ensures BlockCounted(t, m)
    {
      ClaimCountedAt(s, k, count, m);
    }
  }

  lemma ClaimCountedAt(s: State, k: nat, count: nat, m: int)
    requires BlockCounted(s, m) && k < |s.readers| && s.readers[k].Resting?
    ensures BlockCounted(s.(head := s.head + count, readers := s.readers[k := Claimed(s.head, s.head + count)]), m)
  {
    HeldUpdate(s.readers, k, Claimed(s.head, s.head + count), m);
    TakeCounted(s.head, count, m);
  }

  lemma KeepClaim(s: State, k: nat, count: nat)
    requires Inv(s) && Enabled(s, Claim(k, count))
    ensures Inv(Next(s, Claim(k, count)))
  {
    var t := Next(s, Claim(k, count));
    UntakenLive(s, s.head, s.head + count);
    ClaimCounted(s, k, count);
    ReadersMove(s, t, k, Claimed(s.head, s.head + count));
    ConsumerStep(s, t);
  }

  /** The elements of the first block of a range, and the rest. */
  lemma SplitRange(e: int, f: int, m: int)
    requires e < f
    ensures var end := Min(f, BLOCK_SIZE * (BlockOf(e) + 1));
      e < end <= f && Overlap(e, f, m) == Overlap(end, f, m) + (if m == BlockOf(e) then end - e else 0)
      && (end < f ==> BlockOf(end) == BlockOf(e) + 1)
  {
  }

  /** The walk of a bulk dequeue: the slot after that of block m is that of the next block. */
  lemma WalkFinds(s: State, e: int, f: int, h: nat, slot: nat, m: int)
    requires Inv(s) && SlotHas(s, h, slot, m) && s.first <= m <= s.published
    requires e < f && Placed(s, e, f, h) && BlockOf(e) == m + 1
    ensures |s.ix.headers[h].index| > 0 && SlotHas(s, h, (slot + 1) % |s.ix.headers[h].index|, m + 1)
  {
    assert Spans(e, f, m + 1);
    SpanPublished(s, e, f, m + 1);
    LiveEntry(s, m);
    LiveEntry(s, m + 1);
    assert Nested(s.ix.headers[h], Current(s.ix));
    NextIn(s.ix.headers[h], Current(s.ix), s.ix.entries, s.ix.shape, slot, m);
  }

  lemma OnwardOk(s: State, e: int, f: int, h: nat, slot: nat, m: int)
    requires Inv(s) && SlotHas(s, h, slot, m) && s.first <= m <= s.published
    requires e < f ==> Placed(s, e, f, h) && BlockOf(e) == m + 1
    ensures |s.ix.headers[h].index| > 0 && ReaderOk(s, Onward(e, f, h, slot, |s.ix.headers[h].index|))
  {
    assert HeaderShaped(s.ix.headers[h], |s.ix.entries|);
    if e < f { WalkFinds(s, e, f, h, slot, m); }
  }

  /** While a consumer holds elements of a block, not all of it is emptied. */
  lemma NotYetGone(s: State, k: nat, m: int)
    requires Counted(s) && k < |s.readers| && Holds(s.readers[k], m) > 0 && s.first <= m
    ensures Gone(s, m) < BLOCK_SIZE
  {
    assert BlockCounted(s, m);
    HeldBound(s.readers, k, m);
  }

  lemma EmptyCounted(s: State, k: nat)
    requires Inv(s) && Enabled(s, Empty(k))
    ensures Counted(Emptied(s, k))
  {
    var t := Emptied(s, k);
    assert ReaderOk(s, s.readers[k]);
    forall n | t.first <= n
      ensures BlockCounted(t, n)
    {
      EmptyCountedAt(s, k, n);
    }
  }

  lemma EmptyCountedAt(s: State, k: nat, n: int)
    requires Enabled(s, Empty(k)) && BlockCounted(s, n) && s.readers[k].e < s.readers[k].f
    requires BlockOf(s.readers[k].e) in s.ix.shape.home
    ensures BlockCounted(Emptied(s, k), n)
  {
    HeldUpdate(s.readers, k, Emptied(s, k).readers[k], n);
    SplitRange(s.readers[k].e, s.readers[k].f, n);
  }

  lemma EmptyReaders(s: State, k: nat)
    requires Inv(s) && Enabled(s, Empty(k))
    ensures ReadersOk(Emptied(s, k))
  {
    var t := Emptied(s, k);
    var At(e, f, h, slot) := s.readers[k];
    var m := BlockOf(e);
    assert ReaderOk(s, s.readers[k]) && Spans(e, f, m);
    SpanPublished(s, e, f, m);
    SpanOverlaps(e, f, m);
    NotYetGone(s, k, m);
    EmptyMoves(s, k);
    forall j | 0 <= j < |s.readers| && j != k
      ensures ReaderOk(t, s.readers[j]) && (s.readers[j].Clearing? ==> s.readers[j].m != m)
    {
      assert ReaderOk(s, s.readers[j]);
      SameReader(s, t, s.readers[j]);
    }
    OthersOk(s, t, k, t.readers[k]);
  }

  /** The consumer that counted the elements of a block is right about what it does next. */
  lemma EmptyMoves(s: State, k: nat)
    requires Inv(s) && Enabled(s, Empty(k))
    ensures ReaderOk(Emptied(s, k), Emptied(s, k).readers[k])
  {
    assert ReaderOk(s, s.readers[k]);
    if Emptied(s, k).readers[k].Clearing? { EmptyLast(s, k); } else { EmptyOn(s, k); }
  }

  lemma EmptyLast(s: State, k: nat)
    requires Inv(s) && Enabled(s, Empty(k)) && ReaderOk(s, s.readers[k]) && Emptied(s, k).readers[k].Clearing?
    ensures ReaderOk(Emptied(s, k), Emptied(s, k).readers[k])
  {
    var At(e, f, h, slot) := s.readers[k];
    RestOk(s, e, f, h, slot);
  }

  lemma EmptyOn(s: State, k: nat)
    requires Inv(s) && Enabled(s, Empty(k)) && ReaderOk(s, s.readers[k]) && !Emptied(s, k).readers[k].Clearing?
    ensures ReaderOk(Emptied(s, k), Emptied(s, k).readers[k])
  {
    var At(e, f, h, slot) := s.readers[k];
    RestOk(s, e, f, h, slot);
    SameReader(s, Emptied(s, k), Emptied(s, k).readers[k]);
  }

  /** What a consumer relies on once it is done with the first block of its range. */
  lemma RestOk(s: State, e: int, f: int, h: nat, slot: nat)
    requires Inv(s) && Placed(s, e, f, h) && SlotHas(s, h, slot, BlockOf(e))
    ensures var m := BlockOf(e); var end := Min(f, BLOCK_SIZE * (m + 1));
      && s.first <= m <= s.published && |s.ix.headers[h].index| > 0
      && (end < f ==> Placed(s, end, f, h) && BlockOf(end) == m + 1)
      && ReaderOk(s, Onward(end, f, h, slot, |s.ix.headers[h].index|))
  {
    var m := BlockOf(e);
    assert Spans(e, f, m);
    SpanPublished(s, e, f, m);
    SplitRange(e, f, m);
    var end := Min(f, BLOCK_SIZE * (m + 1));
    RestPlaced(s, e, end, f, h);
    OnwardOk(s, end, f, h, slot, m);
  }

  lemma RestPlaced(s: State, e: int, end: int, f: int, h: nat)
    requires Placed(s, e, f, h) && e <= end <= f
    ensures end < f ==> Placed(s, end, f, h)
  {
    assert forall n :: Spans(end, f, n) ==> Spans(e, f, n);
  }

  lemma KeepEmpty(s: State, k: nat)
    requires Inv(s) && Enabled(s, Empty(k))
    ensures Inv(Next(s, Empty(k)))
  {
    EmptyCounted(s, k);
    EmptyReaders(s, k);
    ConsumerStep(s, Emptied(s, k));
  }

  /** The index after the entry of an emptied block is given up. */
  lemma ClearIndex(s: State, k: nat)
    requires Inv(s) && Enabled(s, Clear(k))
    ensures IndexOk(Cleared(s, k).ix) && Carries(s.ix, Cleared(s, k).ix) && ValuesOk(Cleared(s, k)) && ProducerOk(Cleared(s, k))
  {
    var Clearing(e, f, h, slot, m) := s.readers[k];
    assert ReaderOk(s, s.readers[k]);
    LiveEntry(s, m);
    ClearEntry(s, s.ix.headers[h].index[slot], m);
  }

  lemma ClearEntry(s: State, id: nat, m: int)
    requires IndexOk(s.ix) && ValuesOk(s) && ProducerOk(s) && m <= s.published
    requires Covers(s.ix.shape.ring, m) && id == EntryFor(s.ix.shape.ring, m) && id < |s.ix.entries|
    ensures var jx := Stored(s.ix, id, m, None);
      IndexOk(jx) && Carries(s.ix, jx) && ValuesOk(s.(ix := jx)) && ProducerOk(s.(ix := jx))
  {
    StoredIndex(s.ix, id, m, None);
    StoredValues(s, id, m, None, s.blocks);
    ClearProducer(s.producer, s.ix.shape, s.published, m);
  }

  lemma ClearProducer(p: Producer, x: Shape, published: int, m: int)
    requires ProducerAt(p, x, published) && m <= published
    ensures ProducerAt(p, Shape(x.ring, x.home - {m}, x.unset - {m}), published)
  {
    assert x.unset - {m} == x.unset;
  }

  lemma ClearCounted(s: State, k: nat)
    requires Inv(s) && Enabled(s, Clear(k))
    ensures Counted(Cleared(s, k))
  {
    var t, m := Cleared(s, k), s.readers[k].m;
    assert ReaderOk(s, s.readers[k]);
    forall n | t.first <= n
      ensures BlockCounted(t, n)
    {
      assert BlockCounted(s, n);
      HeldUpdate(s.readers, k, t.readers[k], n);
    }
  }

  /** No other consumer has anything to do with a block that is given up. */
  lemma NobodyThere(s: State, k: nat, j: nat)
    requires Inv(s) && k < |s.readers| && s.readers[k].Clearing? && j < |s.readers|
    ensures Holds(s.readers[j], s.readers[k].m) == 0
  {
    assert ReaderOk(s, s.readers[k]) && BlockCounted(s, s.readers[k].m);
    HeldBound(s.readers, j, s.readers[k].m);
  }

  lemma StaysRight(s: State, t: State, r: Reader, m: int)
    requires ReaderOk(s, r) && Carries(s.ix, t.ix) && t.ix.headers == s.ix.headers && t.ix.shape.home == s.ix.shape.home - {m}
    requires t.first == s.first && t.published == s.published && t.head == s.head && t.gone == s.gone
    requires !r.Resting? ==> !Spans(r.e, r.f, m)
    requires r.Clearing? ==> r.m != m
    ensures ReaderOk(t, r)
  {
    if r.At? { assert Spans(r.e, r.f, BlockOf(r.e)); }
  }

  lemma ClearOther(s: State, k: nat, j: nat)
    requires Inv(s) && Enabled(s, Clear(k)) && j < |s.readers| && j != k && Carries(s.ix, Cleared(s, k).ix)
    ensures ReaderOk(Cleared(s, k), s.readers[j])
  {
    var m := s.readers[k].m;
    assert ReaderOk(s, s.readers[j]);
    NobodyThere(s, k, j);
    if !s.readers[j].Resting? { SpanOverlaps(s.readers[j].e, s.readers[j].f, m); }
    StaysRight(s, Cleared(s, k), s.readers[j], m);
  }

  lemma ClearReaders(s: State, k: nat)
    requires Inv(s) && Enabled(s, Clear(k)) && Carries(s.ix, Cleared(s, k).ix)
    ensures ReadersOk(Cleared(s, k))
  {
    var t := Cleared(s, k);
    var Clearing(e, f, h, slot, m) := s.readers[k];
    assert ReaderOk(s, s.readers[k]);
    forall j | 0 <= j < |s.readers| && j != k
      ensures ReaderOk(t, s.readers[j])
    {
      ClearOther(s, k, j);
    }
    OnwardOk(s, e, f, h, slot, m);
    StaysRight(s, t, t.readers[k], m);
    OthersOk(s, t, k, t.readers[k]);
  }

  lemma KeepClear(s: State, k: nat)
    requires Inv(s) && Enabled(s, Clear(k))
    ensures Inv(Next(s, Clear(k)))
  {
    ClearIndex(s, k);
    ClearCounted(s, k);
    ClearReaders(s, k);
  }

  predicate ByConsumer(step: Step)
  {
    step.Claim? || step.Load? || step.Empty? || step.Clear?
  }

  lemma ConsumerInv(s: State, step: Step)
    requires Inv(s) && Enabled(s, step) && ByConsumer(step)
    ensures Inv(Next(s, step))
  {
    match step
    case Claim(k, count) => KeepClaim(s, k, count);
    case Load(k) => KeepLoad(s, k);
    case Empty(k) => KeepEmpty(s, k);
    case Clear(k) => KeepClear(s, k);
  }

  lemma ProducerInv(s: State, step: Step)
    requires Inv(s) && Enabled(s, step) && !ByConsumer(step)
    ensures Inv(Next(s, step))
  {
    match step
    case PutKey => KeepPutKey(s);
    case Grow(values) => KeepGrow(s, values);
    case MoveTail => KeepMoveTail(s);
    case PutBlock(block) => KeepPutBlock(s, block);
    case Drop => KeepDrop(s);
    case ClearDropped => KeepClearDropped(s);
    case GiveUp => KeepGiveUp(s);
    case ClearNew => KeepClearNew(s);
    case RewindNew => KeepRewindNew(s);
    case Undone => KeepUndone(s);
    case Publish(to) => KeepPublish(s, to);
  }

  lemma StepInv(s: State, step: Step)
    requires Inv(s) && Enabled(s, step)
    ensures Inv(Next(s, step))
  {
    if ByConsumer(step) { ConsumerInv(s, step); } else { ProducerInv(s, step); }
  }

  // ---------------------------------------------------------------------------------
  // Runs
  // ---------------------------------------------------------------------------------

  /** The first index, its entries unused, nothing published and no dequeue under way. */
  ghost predicate Init(s: State)
  {
    && |s.ix.entries| == INITIAL_SIZE
    && s.ix.headers == [Header(FreshIds(0, INITIAL_SIZE), INITIAL_SIZE - 1, s.first - INITIAL_SIZE)]
    && s.ix.shape == Shape(Ring([], FreshIds(0, INITIAL_SIZE), [], s.first - 1), map[], {})
    && (forall id :: 0 <= id < |s.ix.entries| ==> s.ix.entries[id].key == INVALID_BASE)
    && s.producer.Working? && s.published == s.first - 1 && s.elements == s.head == BLOCK_SIZE * s.first
    && s.gone == map[] && s.blocks == map[]
    && (forall k :: 0 <= k < |s.readers| ==> s.readers[k].Resting?)
  }

  lemma InitIndex(s: State)
    requires Init(s)
    ensures IndexOk(s.ix)
  {
    var g := s.ix.headers[0];
    assert PowerOfTwo(32) by { assert PowerOfTwo(8) by { assert PowerOfTwo(2); } }
    assert Unrolled(g.index, g.tail) == Slots(s.ix.shape.ring);
    OneTurn(g.base, |g.index|);
    RingFacts(g, s.ix.entries, s.ix.shape);
    NestedInItself(g);
  }

  lemma InitInv(s: State)
    requires Init(s)
    ensures Inv(s)
  {
    InitIndex(s);
    forall m | s.first <= m
      ensures BlockCounted(s, m)
    {
      RestingHold(s.readers, m);
    }
  }

  ghost predicate Run(states: seq<State>, steps: seq<Step>)
  {
    && |states| == |steps| + 1 && Init(states[0])
    && (forall i :: 0 <= i < |steps| ==> StepAt(states, steps, i))
  }

  ghost predicate StepAt(states: seq<State>, steps: seq<Step>, i: nat)
    requires i < |steps| && |states| == |steps| + 1
  {
    Enabled(states[i], steps[i]) && states[i + 1] == Next(states[i], steps[i])
  }

  lemma RunInv(states: seq<State>, steps: seq<Step>, i: nat)
    requires Run(states, steps) && i < |states|
    ensures Inv(states[i])
  {
    InitInv(states[0]);
    forall k | 0 <= k < |states| - 1 && Inv(states[k])
      ensures Inv(states[k + 1])
    {
      assert StepAt(states, steps, k);
      StepInv(states[k], steps[k]);
    }
    Runs.Along(states, Inv, i);
  }

  /** However the loads of a lookup fall among the producer's insertions, rollbacks and growth, the
      slot it ends at, and every slot a bulk dequeue walks on to, holds the entry of the block whose
      elements it is about to take, with that block's key and the Block that was stored for it; and
      the key read at the tail was never the invalid one. */
  lemma LookupsFindLiveBlocks(states: seq<State>, steps: seq<Step>, t: nat, k: nat)
    requires Run(states, steps) && t < |states| && k < |states[t].readers|
    ensures var s := states[t]; var r := s.readers[k];
      && (r.HasTail? ==> r.h < |s.ix.headers| && r.tail < |s.ix.headers[r.h].index|
                         && KeyStored(s.ix, s.ix.headers[r.h].index[r.tail]))
      && (r.At? ==> r.h < |s.ix.headers| && r.slot < |s.ix.headers[r.h].index|
                    && var m, id := BlockOf(r.e), s.ix.headers[r.h].index[r.slot];
                       && id < |s.ix.entries| && s.ix.entries[id].key == Start(m)
                       && m in s.blocks && s.ix.entries[id].value == Some(s.blocks[m])
                       && Covers(s.ix.shape.ring, m) && EntryFor(s.ix.shape.ring, m) == id)
  {
    RunInv(states, steps, t);
    var s := states[t];
    var r := s.readers[k];
    assert ReaderOk(s, r);
    if r.At? {
      assert Spans(r.e, r.f, BlockOf(r.e));
      SpanPublished(s, r.e, r.f, BlockOf(r.e));
      LiveEntry(s, BlockOf(r.e));
      assert BlockSound(s.ix.entries, s.ix.shape, BlockOf(r.e));
    }
  }

  /** No dequeue is ever stuck: whatever it has loaded, its next step is possible. */
  lemma LookupsProceed(states: seq<State>, steps: seq<Step>, t: nat, k: nat)
    requires Run(states, steps) && t < |states| && k < |states[t].readers| && !states[t].readers[k].Resting?
    ensures Enabled(states[t], Load(k)) || Enabled(states[t], Empty(k)) || Enabled(states[t], Clear(k))
  {
    RunInv(states, steps, t);
    assert ReaderOk(states[t], states[t].readers[k]);
    Proceeds(states[t], k);
  }

  lemma Proceeds(s: State, k: nat)
    requires Shaped(s.ix) && k < |s.readers| && ReaderOk(s, s.readers[k]) && !s.readers[k].Resting?
    ensures Enabled(s, Load(k)) || Enabled(s, Empty(k)) || Enabled(s, Clear(k))
  {
  }

  /** A block is withdrawn only when all its elements have been counted as emptied, nobody holds any
      of them, and nobody else is withdrawing it; and what is cleared is its own entry. */
  lemma WithdrawnWhenEmptied(states: seq<State>, steps: seq<Step>, t: nat, k: nat)
    requires Run(states, steps) && t < |states| && k < |states[t].readers| && states[t].readers[k].Clearing?
    ensures var s := states[t]; var r := s.readers[k];
      && Gone(s, r.m) == BLOCK_SIZE && Held(s.readers, r.m) == 0 && Untaken(s.head, r.m) == 0
      && (forall j :: 0 <= j < |s.readers| && j != k && s.readers[j].Clearing? ==> s.readers[j].m != r.m)
      && r.h < |s.ix.headers| && r.slot < |s.ix.headers[r.h].index| && Covers(s.ix.shape.ring, r.m)
      && s.ix.headers[r.h].index[r.slot] == EntryFor(s.ix.shape.ring, r.m)
  {
    RunInv(states, steps, t);
    var s := states[t];
    var r := s.readers[k];
    assert ReaderOk(s, r) && BlockCounted(s, r.m);
    LiveEntry(s, r.m);
  }

  /** A published block that is no longer live. */
  ghost predicate Withdrawn(s: State, m: int)
  {
    m <= s.published && m !in s.ix.shape.home
  }

  lemma StaysWithdrawn(s: State, step: Step, m: int)
    requires Inv(s) && Enabled(s, step) && Withdrawn(s, m)
    ensures Withdrawn(Next(s, step), m)
  {
    PublishedBelow(s);
  }

  /** No block is withdrawn twice. */
  lemma WithdrawnOnce(states: seq<State>, steps: seq<Step>, i: nat, j: nat)
    requires Run(states, steps) && i < j < |steps| && steps[i].Clear? && steps[j].Clear?
    requires steps[i].reader < |states[i].readers| && states[i].readers[steps[i].reader].Clearing?
    requires steps[j].reader < |states[j].readers| && states[j].readers[steps[j].reader].Clearing?
    ensures states[i].readers[steps[i].reader].m != states[j].readers[steps[j].reader].m
  {
    var m := states[i].readers[steps[i].reader].m;
    ClearWithdraws(states, steps, i);
    var later, out := states[i + 1..j + 1], (s: State) => Withdrawn(s, m);
    forall k | 0 <= k < |later| - 1 && out(later[k])
      ensures out(later[k + 1])
    {
      WithdrawnAcross(states, steps, i + 1 + k, m);
    }
    Runs.Along(later, out, j - i - 1);
    RunInv(states, steps, j);
    assert ReaderOk(states[j], states[j].readers[steps[j].reader]);
  }

  lemma WithdrawnAcross(states: seq<State>, steps: seq<Step>, i: nat, m: int)
    requires Run(states, steps) && i < |steps| && Withdrawn(states[i], m)
    ensures Withdrawn(states[i + 1], m)
  {
    assert StepAt(states, steps, i);
    RunInv(states, steps, i);
    StaysWithdrawn(states[i], steps[i], m);
  }

  lemma ClearWithdraws(states: seq<State>, steps: seq<Step>, i: nat)
    requires Run(states, steps) && i < |steps| && steps[i].Clear?
    requires steps[i].reader < |states[i].readers| && states[i].readers[steps[i].reader].Clearing?
    ensures Withdrawn(states[i + 1], states[i].readers[steps[i].reader].m)
  {
    RunInv(states, steps, i);
    assert StepAt(states, steps, i) && ReaderOk(states[i], states[i].readers[steps[i].reader]);
  }

  /** A rollback, which clears its blocks from the oldest but rewinds the tail from the newest, ends
      with the tail on the last published block and none of its blocks live. */
  lemma RollbackRestores(states: seq<State>, steps: seq<Step>, t: nat)
    requires Run(states, steps) && t < |steps| && steps[t].Undone?
    ensures var s := states[t + 1];
      s.ix.shape.ring.top == s.published && forall m :: m in s.ix.shape.home ==> m <= s.published
  {
    RunInv(states, steps, t);
    assert StepAt(states, steps, t);
  }
}
