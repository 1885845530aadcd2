/** DevcashRingQueue: a ring of pointers with two positions, a count and two flags, used by one
    producer (push) and one consumer (popGuard, then pop). Each call is one atomic step that
    waits until its flag allows it.
 */
module RingQueues {
  import opened Options
  import Runs

  /** ptrRing_, pushAt_, popAt_, pending_, isEmpty_, isFull_, and whether the consumer is between
      popGuard and pop. */
  datatype Ring<T> = Ring(slots: seq<Option<T>>, pushAt: nat, popAt: nat, pending: int, isEmpty: bool, isFull: bool,
                          guarded: bool)

  function Empty<T>(capacity: nat): Ring<T>
  {
    Ring(seq(capacity, i => None), 0, 0, 0, true, false, false)
  }

  predicate WellFormed<T>(r: Ring<T>)
  {
    r.pushAt < |r.slots| && r.popAt < |r.slots|
  }

  function Bump(at: nat, capacity: nat): nat
  {
    if at + 1 >= capacity then 0 else at + 1
  }

  /** push, once isFull_ is false. */
  function Pushed<T>(r: Ring<T>, x: T): Ring<T>
    requires WellFormed(r)
  {
    var pushAt := Bump(r.pushAt, |r.slots|);
    r.(slots := r.slots[r.pushAt := Some(x)], pending := r.pending + 1, isEmpty := false,
       pushAt := pushAt, isFull := pushAt == r.popAt)
  }

  /** popGuard, once isEmpty_ is false. */
  function Guarded<T>(r: Ring<T>): Ring<T>
    requires WellFormed(r)
  {
    var last := r.popAt + 1 == r.pushAt || (r.popAt + 1 >= |r.slots| && r.pushAt == 0);
    r.(pending := r.pending - 1, isEmpty := r.isEmpty || last, guarded := true)
  }

  /** pop: what is moved out, and the ring after it. */
  function Popped<T>(r: Ring<T>): (Option<T>, Ring<T>)
    requires WellFormed(r)
  {
    var popAt := Bump(r.popAt, |r.slots|);
    (r.slots[r.popAt],
     r.(slots := r.slots[r.popAt := None], isFull := false, popAt := popAt, isEmpty := popAt == r.pushAt, guarded := false))
  }

  // ---------------------------------------------------------------------------------
  // What the ring holds
  // ---------------------------------------------------------------------------------

  function Place(popAt: nat, i: nat, capacity: nat): nat
  {
    if popAt + i < capacity then popAt + i else popAt + i - capacity
  }

  /** The ring holds exactly the queue q, oldest first, and its flags and count say so. */
  ghost predicate Holds<T(!new)>(r: Ring<T>, q: seq<T>)
  {
    var c := |r.slots|;
    && WellFormed(r) && |q| <= c && r.pushAt == (if |q| == c then r.popAt else Place(r.popAt, |q|, c))
    && (forall i :: 0 <= i < |q| ==> r.slots[Place(r.popAt, i, c)] == Some(q[i]))
    && (forall i :: |q| <= i < c ==> r.slots[Place(r.popAt, i, c)] == None)
    && (r.guarded ==> q != [])
    && r.pending == |q| - (if r.guarded then 1 else 0)
    && (r.isFull <==> |q| == c) && (r.isEmpty <==> r.pending == 0)
  }

  lemma EmptyHolds<T(!new)>(capacity: nat)
    requires capacity >= 1
    ensures Holds<T>(Empty(capacity), [])
  {
  }

  lemma PlaceInjective(popAt: nat, i: nat, j: nat, c: nat)
    requires popAt < c && i < c && j < c && i != j
    ensures Place(popAt, i, c) != Place(popAt, j, c) && Place(popAt, i, c) < c
  {
  }

  /** The slot written to is free: nothing undelivered is overwritten. */
  lemma PushHolds<T(!new)>(r: Ring<T>, q: seq<T>, x: T)
    requires Holds(r, q) && !r.isFull
    ensures r.slots[r.pushAt] == None && Holds(Pushed(r, x), q + [x])
  {
    var c := |r.slots|;
    assert r.pushAt == Place(r.popAt, |q|, c);
    var s := Pushed(r, x);
    forall i | 0 <= i < c
      ensures s.slots[Place(s.popAt, i, c)] == if i < |q| then Some(q[i]) else if i == |q| then Some(x) else None
    {
      if i != |q| {
        PlaceInjective(r.popAt, i, |q|, c);
      }
    }
  }

  lemma PopGuardHolds<T(!new)>(r: Ring<T>, q: seq<T>)
    requires Holds(r, q) && !r.isEmpty && !r.guarded
    ensures Holds(Guarded(r), q)
  {
  }

  /** pop delivers the oldest message, never null. */
  lemma PopHolds<T(!new)>(r: Ring<T>, q: seq<T>)
    requires Holds(r, q) && r.guarded
    ensures q != [] && Popped(r).0 == Some(q[0]) && Holds(Popped(r).1, q[1..])
  {
    var c := |r.slots|;
    var s := Popped(r).1;
    assert Place(r.popAt, 0, c) == r.popAt;
    forall i | 0 <= i < c
      ensures s.slots[Place(s.popAt, i, c)] == if i < |q| - 1 then Some(q[i + 1]) else None
    {
      if i == c - 1 {
        assert Place(s.popAt, i, c) == r.popAt;
      } else {
        assert Place(s.popAt, i, c) == Place(r.popAt, i + 1, c);
        PlaceInjective(r.popAt, i + 1, 0, c);
      }
    }
  }

  // ---------------------------------------------------------------------------------
  // Runs
  // ---------------------------------------------------------------------------------

  datatype Call<T> = DoPush(x: T) | DoPopGuard | DoPop

  /** A call that need not wait; pop is only called after popGuard. */
  predicate Ready<T>(r: Ring<T>, call: Call<T>)
  {
    match call
    case DoPush(_) => !r.isFull
    case DoPopGuard => !r.isEmpty && !r.guarded
    case DoPop => r.guarded
  }

  /** A history: the ring, what was pushed and what pop returned. */
  datatype History<T> = History(ring: Ring<T>, pushed: seq<T>, popped: seq<Option<T>>)

  function Do<T>(h: History<T>, call: Call<T>): History<T>
    requires WellFormed(h.ring)
  {
    match call
    case DoPush(x) => h.(ring := Pushed(h.ring, x), pushed := h.pushed + [x])
    case DoPopGuard => h.(ring := Guarded(h.ring))
    case DoPop => h.(ring := Popped(h.ring).1, popped := h.popped + [Popped(h.ring).0])
  }

  ghost predicate Run<T(!new)>(hs: seq<History<T>>, calls: seq<Call<T>>, capacity: nat)
  {
    && |hs| == |calls| + 1 && hs[0] == History(Empty(capacity), [], [])
    && (forall t :: 0 <= t < |calls| ==> StepAt(hs, calls, t))
  }

  ghost predicate StepAt<T(!new)>(hs: seq<History<T>>, calls: seq<Call<T>>, t: nat)
    requires t < |calls| && |hs| == |calls| + 1
  {
    WellFormed(hs[t].ring) && Ready(hs[t].ring, calls[t]) && hs[t + 1] == Do(hs[t], calls[t])
  }

  /** What was delivered, in order, then what is still held, is what was pushed. */
  ghost predicate Fifo<T(!new)>(h: History<T>, q: seq<T>)
  {
    && Holds(h.ring, q) && |h.popped| + |q| == |h.pushed|
    && (forall i :: 0 <= i < |h.popped| ==> h.popped[i] == Some(h.pushed[i]))
    && (forall i :: 0 <= i < |q| ==> q[i] == h.pushed[|h.popped| + i])
  }

  lemma StepFifo<T(!new)>(h: History<T>, call: Call<T>, q: seq<T>) returns (q': seq<T>)
    requires Fifo(h, q) && Ready(h.ring, call)
    ensures Fifo(Do(h, call), q')
  {
    match call
    case DoPush(x) =>
      PushHolds(h.ring, q, x);
      q' := q + [x];
    case DoPopGuard =>
      PopGuardHolds(h.ring, q);
      q' := q;
    case DoPop =>
      PopHolds(h.ring, q);
      q' := q[1..];
  }

  ghost predicate FifoRing<T(!new)>(h: History<T>, capacity: nat)
  {
    |h.ring.slots| == capacity && exists q :: Fifo(h, q)
  }

  /** In every interleaving the ring is a FIFO queue: pop returns, in order, what was pushed, and
      the ring, its count and its flags describe exactly what is still to be delivered. */
  lemma RingIsFifo<T(!new)>(hs: seq<History<T>>, calls: seq<Call<T>>, capacity: nat, t: nat) returns (q: seq<T>)
    requires capacity >= 1 && Run(hs, calls, capacity) && t < |hs|
    ensures Fifo(hs[t], q) && |hs[t].ring.slots| == capacity
  {
    EmptyHolds<T>(capacity);
    assert Fifo<T>(hs[0], []);
    var inv := (h: History<T>) => FifoRing(h, capacity);
    forall k | 0 <= k < |hs| - 1 && inv(hs[k]) ensures inv(hs[k + 1]) {
      assert StepAt(hs, calls, k);
      var held :| Fifo(hs[k], held);
      var next := StepFifo(hs[k], calls[k], held);
    }
    Runs.Along(hs, inv, t);
    q :| Fifo(hs[t], q);
  }

  // ---------------------------------------------------------------------------------
  // The object
  // ---------------------------------------------------------------------------------

  class DevcashRingQueue<T(!new)> {
    const ring: array<Option<T>>
    var pushAt: nat
    var popAt: nat
    var pending: int
    var isEmpty: bool
    var isFull: bool
    ghost var guarded: bool

    ghost function Value(): Ring<T>
      reads this, ring
    {
      Ring(ring[..], pushAt, popAt, pending, isEmpty, isFull, guarded)
    }

    constructor (size: nat)
      requires size >= 1
      ensures Value() == Empty(size) && fresh(ring)
    {
      ring := new Option<T>[size](_ => None);
      pushAt, popAt, pending, isEmpty, isFull, guarded := 0, 0, 0, true, false, false;
      new;
      assert ring[..] == seq(size, i => None);
    }

    /** One turn of push: it waits while the ring is full and otherwise stores the message. */
    method Push(x: T, ghost q: seq<T>) returns (waits: bool)
      requires Holds(Value(), q)
      modifies this, ring
      ensures waits == (|q| == ring.Length)
      ensures waits ==> Value() == old(Value())
      ensures !waits ==> Value() == Pushed(old(Value()), x) && Holds(Value(), q + [x])
    {
      if isFull { return true; }
      PushHolds(Value(), q, x);
      ring[pushAt] := Some(x);
      pending := pending + 1;
      if pushAt + 1 == popAt { isFull := true; }
      if pushAt + 1 >= ring.Length && popAt == 0 { isEmpty := true; }
      isEmpty := false;
      pushAt := pushAt + 1;
      if pushAt >= ring.Length { pushAt := 0; }
      isFull := pushAt == popAt;
      waits := false;
    }

    /** One turn of popGuard: it waits while the ring is empty and otherwise reserves the oldest message. */
    method PopGuard(ghost q: seq<T>) returns (waits: bool)
      requires Holds(Value(), q) && !guarded
      modifies this
      ensures waits == (q == [])
      ensures waits ==> Value() == old(Value())
      ensures !waits ==> Value() == Guarded(old(Value())) && Holds(Value(), q)
    {
      if isEmpty { return true; }
      PopGuardHolds(Value(), q);
      pending := pending - 1;
      if popAt + 1 == pushAt { isEmpty := true; }
      if popAt + 1 >= ring.Length && pushAt == 0 { isEmpty := true; }
      guarded := true;
      waits := false;
    }

    method Pop(ghost q: seq<T>) returns (out: Option<T>)
      requires Holds(Value(), q) && guarded
      modifies this, ring
      ensures (out, Value()) == Popped(old(Value()))
      ensures q != [] && out == Some(q[0]) && Holds(Value(), q[1..])
    {
      PopHolds(Value(), q);
      out := ring[popAt];
      ring[popAt] := None;
      isFull := false;
      popAt := popAt + 1;
      if popAt >= ring.Length { popAt := 0; }
      isEmpty := popAt == pushAt;
      guarded := false;
    }
  }
}
