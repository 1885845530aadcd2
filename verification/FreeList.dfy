/** The CAS-based free list of the lock-free message queue, as a state machine over
    sequentially consistent atomic steps.

    Every shared access of `add`, `try_get` and `add_knowing_refcount_is_zero` is one step of
    one thread; any interleaving of any number of threads is a run. Nodes are never freed.
 */
module FreeList {
  import opened Options
  import Runs

  type Node = nat
  type Thread = nat

  // SHOULD_BE_ON_FREELIST, REFS_MASK + 1 and the width of the 32-bit counter.
  const FLAG: nat := 0x8000_0000
  const WIDTH: nat := 0x1_0000_0000

  /** The value a 32-bit atomic holds after arithmetic. */
  function Fetch32(x: int): (r: nat)
    ensures 0 <= x < WIDTH ==> r == x
  {
    x % WIDTH
  }

  /** `refs & REFS_MASK`. */
  function Count(x: int): (r: nat)
    ensures 0 <= x < FLAG ==> r == x
    ensures FLAG <= x < WIDTH ==> r == x - FLAG
  {
    x % FLAG
  }

  /** Where the caller of `add_knowing_refcount_is_zero` goes on: `add` returns, `try_get`
      re-enters its loop with the head it read when its own CAS failed. */
  datatype Cont = Return | Loop(head: Option<Node>)

  datatype Pc =
    | Idle
      // add_knowing_refcount_is_zero
    | KLoad(node: Node, k: Cont)
    | KNext(node: Node, head: Option<Node>, k: Cont)
    | KRefs(node: Node, head: Option<Node>, k: Cont)
    | KCas(node: Node, head: Option<Node>, k: Cont)
    | KUndo(node: Node, head: Option<Node>, k: Cont)
      // try_get
    | GLoad
    | GRead(node: Node)
    | GInc(node: Node, refs: nat)
    | GNext(node: Node)
    | GCas(node: Node, next: Option<Node>)
    | GTake(node: Node)
    | GDrop(node: Node, head: Option<Node>)

  /** Who is responsible for a node. This is bookkeeping: no step reads it, except that a
      caller of `add` must own the node it adds. */
  datatype Place = Held(owner: Thread) | Waiting | Adding(adder: Thread) | Listed | Taken(taker: Thread)

  datatype State = State(
    head: Option<Node>,            // freeListHead
    refs: map<Node, int>,          // freeListRefs
    next: map<Node, Option<Node>>, // freeListNext
    pcs: seq<Pc>,
    place: map<Node, Place>,
    list: seq<Node>)               // the nodes that were pushed and not yet popped, head first

  datatype Step =
    | BeginAdd(node: Node)
    | HandOver(node: Node, to: Thread)   // outside the free list, the owner passes the node on
    | BeginGet
    | Advance

  // ---------------------------------------------------------------------------------
  // Steps
  // ---------------------------------------------------------------------------------

  predicate SameNodes(s: State)
  {
    s.refs.Keys == s.next.Keys == s.place.Keys
  }

  predicate HasNode(pc: Pc)
  {
    !pc.Idle? && !pc.GLoad?
  }

  predicate PcShaped(s: State, pc: Pc)
  {
    && (HasNode(pc) ==> pc.node in s.place)
    && (pc.GInc? ==> 0 < Count(pc.refs) && pc.refs < WIDTH)
    && (pc.GDrop? ==> KnownHead(s, pc.head))
    && (Adds(pc) ==> KnownCont(s, pc.k))
  }

  predicate Adds(pc: Pc)
  {
    pc.KLoad? || pc.KNext? || pc.KRefs? || pc.KCas? || pc.KUndo?
  }

  predicate KnownHead(s: State, h: Option<Node>)
  {
    h.Some? ==> h.value in s.place
  }

  predicate KnownCont(s: State, k: Cont)
  {
    k.Loop? ==> KnownHead(s, k.head)
  }

  /** `while (head != nullptr)` of try_get, entered with a head already read. */
  function Enter(h: Option<Node>): Pc
  {
    if h.None? then Idle else GRead(h.value)
  }

  function Resume(k: Cont): Pc
  {
    if k.Return? then Idle else Enter(k.head)
  }

  predicate Enabled(s: State, t: Thread, step: Step)
  {
    && t < |s.pcs|
    && match step
       case BeginAdd(n) => s.pcs[t] == Idle && n in s.place && s.place[n] == Held(t)
       case HandOver(n, _) => n in s.place && s.place[n] == Held(t)
       case BeginGet => s.pcs[t] == Idle
       case Advance => s.pcs[t] != Idle
  }

  function Next(s: State, t: Thread, step: Step): State
    requires SameNodes(s) && Enabled(s, t, step)
    requires PcShaped(s, s.pcs[t])
  {
    match step
    case BeginAdd(n) =>
      // fetch_add(SHOULD_BE_ON_FREELIST) == 0 ?
      var was := s.refs[n];
      s.(refs := s.refs[n := Fetch32(was + FLAG)],
         pcs := s.pcs[t := if was == 0 then KLoad(n, Return) else Idle],
         place := s.place[n := if was == 0 then Adding(t) else Waiting])
    case HandOver(n, u) => s.(place := s.place[n := Held(u)])
    case BeginGet => s.(pcs := s.pcs[t := GLoad])
    case Advance => Internal(s, t)
  }

  function Internal(s: State, t: Thread): State
    requires SameNodes(s) && t < |s.pcs| && PcShaped(s, s.pcs[t])
  {
    match s.pcs[t]
    case Idle => s
    case KLoad(n, k) => s.(pcs := s.pcs[t := KNext(n, s.head, k)])
    case KNext(n, h, k) => s.(next := s.next[n := h], pcs := s.pcs[t := KRefs(n, h, k)])
    case KRefs(n, h, k) => s.(refs := s.refs[n := 1], pcs := s.pcs[t := KCas(n, h, k)])
    case KCas(n, h, k) =>
      if s.head == h then
        s.(head := Some(n), pcs := s.pcs[t := Resume(k)], place := s.place[n := Listed], list := [n] + s.list)
      else
        s.(pcs := s.pcs[t := KUndo(n, s.head, k)])
    case KUndo(n, h, k) =>
      // fetch_add(SHOULD_BE_ON_FREELIST - 1) == 1 ?
      var was := s.refs[n];
      s.(refs := s.refs[n := Fetch32(was + FLAG - 1)],
         pcs := s.pcs[t := if was == 1 then KNext(n, h, k) else Resume(k)],
         place := if was == 1 then s.place else s.place[n := Waiting])
    case GLoad => s.(pcs := s.pcs[t := Enter(s.head)])
    case GRead(n) =>
      s.(pcs := s.pcs[t := if Count(s.refs[n]) == 0 then GLoad else GInc(n, Fetch32(s.refs[n]))])
    case GInc(n, r) =>
      if s.refs[n] == r then
        s.(refs := s.refs[n := Fetch32(r + 1)], pcs := s.pcs[t := GNext(n)])
      else
        s.(pcs := s.pcs[t := GLoad])
    case GNext(n) => s.(pcs := s.pcs[t := GCas(n, s.next[n])])
    case GCas(n, nx) =>
      if s.head == Some(n) then
        s.(head := nx, pcs := s.pcs[t := GTake(n)], place := s.place[n := Taken(t)],
           list := if s.list == [] then [] else s.list[1..])
      else
        s.(pcs := s.pcs[t := GDrop(n, s.head)])
    case GTake(n) =>
      s.(refs := s.refs[n := Fetch32(s.refs[n] - 2)], pcs := s.pcs[t := Idle], place := s.place[n := Held(t)])
    case GDrop(n, h) =>
      // fetch_sub(1) == SHOULD_BE_ON_FREELIST + 1 ?
      var was := s.refs[n];
      s.(refs := s.refs[n := Fetch32(was - 1)],
         pcs := s.pcs[t := if was == FLAG + 1 then KLoad(n, Loop(h)) else Enter(h)],
         place := if was == FLAG + 1 then s.place[n := Adding(t)] else s.place)
  }

  // ---------------------------------------------------------------------------------
  // The invariant
  // ---------------------------------------------------------------------------------

  /** The thread holds a reference it took with the increment of try_get. */
  predicate Reads(pc: Pc, n: Node)
  {
    (pc.GNext? || pc.GCas? || pc.GTake? || pc.GDrop?) && pc.node == n
  }

  function Ref(pc: Pc, n: Node): nat
  {
    if Reads(pc, n) then 1 else 0
  }

  function Readers(pcs: seq<Pc>, n: Node): (r: nat)
    ensures r <= |pcs|
  {
    if pcs == [] then 0 else Ref(pcs[0], n) + Readers(pcs[1..], n)
  }

  lemma {:induction false} ReadersUpdate(pcs: seq<Pc>, t: nat, pc: Pc, n: Node)
    requires t < |pcs|
    ensures Readers(pcs[t := pc], n) == Readers(pcs, n) - Ref(pcs[t], n) + Ref(pc, n)
  {
    if t > 0 {
      assert pcs[t := pc][1..] == pcs[1..][t - 1 := pc];
      ReadersUpdate(pcs[1..], t - 1, pc, n);
    } else {
      assert pcs[t := pc][1..] == pcs[1..];
    }
  }

  lemma {:induction false} ReaderCounted(pcs: seq<Pc>, t: nat, n: Node)
    requires t < |pcs| && Reads(pcs[t], n)
    ensures Readers(pcs, n) > 0
  {
    if t > 0 { ReaderCounted(pcs[1..], t - 1, n); }
  }

  /** freeListRefs of the node being added holds the bare flag, not yet the list's reference. */
  predicate BeforeStore(pc: Pc)
  {
    pc.KLoad? || pc.KNext? || pc.KRefs?
  }

  /** What freeListRefs of n must hold: the flag, the list's own reference, one per reader. */
  predicate NodeOk(s: State, n: Node)
    requires n in s.place && n in s.refs
  {
    var readers := Readers(s.pcs, n);
    match s.place[n]
    case Held(t) => s.refs[n] == readers
    case Waiting => s.refs[n] == FLAG + readers && readers > 0
    case Listed => s.refs[n] == 1 + readers
    case Taken(t) => s.refs[n] == 1 + readers && t < |s.pcs| && s.pcs[t] == GTake(n)
    case Adding(t) =>
      && t < |s.pcs| && Adds(s.pcs[t]) && s.pcs[t].node == n
      && if BeforeStore(s.pcs[t]) then s.refs[n] == FLAG && readers == 0 else s.refs[n] == 1 + readers
  }

  /** What a thread may rely on about the node it is working on. */
  predicate PcOk(s: State, t: Thread)
    requires SameNodes(s) && t < |s.pcs| && PcShaped(s, s.pcs[t])
  {
    var pc := s.pcs[t];
    && (Adds(pc) ==> s.place[pc.node] == Adding(t))
    && (pc.KRefs? || pc.KCas? ==> s.next[pc.node] == pc.head)
    && (pc.GCas? ==> s.next[pc.node] == pc.next)
    && (pc.GTake? ==> s.place[pc.node] == Taken(t))
  }

  /** The head pointer and the next pointers spell out `list`, which repeats no node. */
  predicate Chain(s: State)
  {
    Linked(s.list, s.head, s.next)
  }

  predicate Linked(list: seq<Node>, head: Option<Node>, next: map<Node, Option<Node>>)
  {
    && (forall i :: 0 <= i < |list| ==> list[i] in next)
    && (forall i, j :: 0 <= i < j < |list| ==> list[i] != list[j])
    && head == (if list == [] then None else Some(list[0]))
    && (forall i :: 0 <= i < |list| ==> next[list[i]] == After(list, i))
  }

  function After(list: seq<Node>, i: nat): Option<Node>
    requires i < |list|
  {
    if i + 1 < |list| then Some(list[i + 1]) else None
  }

  /** Exactly the nodes on the list are marked Listed. */
  predicate ListedExactly(s: State)
  {
    Marks(s.list, s.place)
  }

  predicate Marks(list: seq<Node>, place: map<Node, Place>)
  {
    && (forall i :: 0 <= i < |list| ==> list[i] in place && place[list[i]] == Listed)
    && (forall n :: n in place && place[n] == Listed ==> n in list)
  }

  lemma LinkedPush(list: seq<Node>, head: Option<Node>, next: map<Node, Option<Node>>, n: Node)
    requires Linked(list, head, next) && n in next && next[n] == head && n !in list
    ensures Linked([n] + list, Some(n), next)
  {
    var more := [n] + list;
    forall i | 0 <= i < |more|
      ensures more[i] in next && next[more[i]] == After(more, i)
    {
      if i > 0 { assert more[i] == list[i - 1] && next[list[i - 1]] == After(list, i - 1); }
    }
    forall i, j | 0 <= i < j < |more|
      ensures more[i] != more[j]
    {
      assert more[j] == list[j - 1] && (i > 0 ==> more[i] == list[i - 1]);
    }
  }

  lemma LinkedPop(list: seq<Node>, head: Option<Node>, next: map<Node, Option<Node>>)
    requires Linked(list, head, next) && list != []
    ensures Linked(list[1..], next[list[0]], next) && list[0] !in list[1..]
  {
    var rest := list[1..];
    assert next[list[0]] == After(list, 0);
    forall i | 0 <= i < |rest|
      ensures rest[i] in next && next[rest[i]] == After(rest, i)
    {
      assert rest[i] == list[i + 1] && next[list[i + 1]] == After(list, i + 1);
    }
  }

  lemma LinkedSame(list: seq<Node>, head: Option<Node>, next: map<Node, Option<Node>>, next': map<Node, Option<Node>>)
    requires Linked(list, head, next) && forall i :: 0 <= i < |list| ==> list[i] in next' && next'[list[i]] == next[list[i]]
    ensures Linked(list, head, next')
  {
  }

  lemma MarksSame(list: seq<Node>, place: map<Node, Place>, place': map<Node, Place>, n: Node)
    requires Marks(list, place) && place.Keys == place'.Keys && n in place
    requires forall m :: m in place && m != n ==> place'[m] == place[m]
    requires place'[n].Listed? <==> place[n].Listed?
    ensures Marks(list, place')
  {
    forall i | 0 <= i < |list|
      ensures list[i] in place' && place'[list[i]] == Listed
    {
      assert place[list[i]] == Listed;
    }
    forall m | m in place' && place'[m] == Listed
      ensures m in list
    {
      assert place[m] == Listed;
    }
  }

  /** The front node leaves the list, which now starts where its next pointer says. */
  lemma PopFront(list: seq<Node>, head: Option<Node>, next: map<Node, Option<Node>>, place: map<Node, Place>, n: Node, p: Place)
    requires Linked(list, head, next) && Marks(list, place) && head == Some(n) && p != Listed
    ensures list != [] && n in next && Linked(list[1..], next[n], next) && Marks(list[1..], place[n := p])
  {
    LinkedPop(list, head, next);
    MarksPop(list, place, p);
  }

  lemma MarksPush(list: seq<Node>, place: map<Node, Place>, n: Node)
    requires Marks(list, place) && n in place
    ensures Marks([n] + list, place[n := Listed])
  {
    var more, place' := [n] + list, place[n := Listed];
    forall i | 0 <= i < |more|
      ensures more[i] in place' && place'[more[i]] == Listed
    {
      if i > 0 { assert more[i] == list[i - 1]; }
    }
  }

  lemma MarksPop(list: seq<Node>, place: map<Node, Place>, p: Place)
    requires Marks(list, place) && list != [] && list[0] !in list[1..] && p != Listed
    ensures Marks(list[1..], place[list[0] := p])
  {
    var rest, place' := list[1..], place[list[0] := p];
    forall i | 0 <= i < |rest|
      ensures rest[i] in place' && place'[rest[i]] == Listed
    {
      assert rest[i] == list[i + 1] && rest[i] in rest;
    }
    forall n | n in place' && place'[n] == Listed
      ensures n in rest
    {
      assert list == [list[0]] + rest;
    }
  }

  predicate Inv(s: State)
  {
    && SameNodes(s)
    && |s.pcs| + 1 < FLAG
    && Chain(s)
    && ListedExactly(s)
    && (forall n :: n in s.place ==> NodeOk(s, n))
    && (forall t :: 0 <= t < |s.pcs| ==> PcShaped(s, s.pcs[t]) && PcOk(s, t))
  }

  /** The list is built empty, every node in some thread's hands with no references. */
  predicate Init(s: State)
  {
    && SameNodes(s)
    && s.head.None? && s.list == []
    && |s.pcs| + 1 < FLAG
    && (forall t :: 0 <= t < |s.pcs| ==> s.pcs[t] == Idle)
    && (forall n :: n in s.place ==> s.place[n].Held? && s.refs[n] == 0)
  }

  lemma {:induction false} IdleReaders(pcs: seq<Pc>, n: Node)
    requires forall t :: 0 <= t < |pcs| ==> pcs[t] == Idle
    ensures Readers(pcs, n) == 0
  {
    if pcs != [] { IdleReaders(pcs[1..], n); }
  }

  lemma InitInv(s: State)
    requires Init(s)
    ensures Inv(s)
  {
    forall n | n in s.place ensures NodeOk(s, n) { IdleReaders(s.pcs, n); }
  }

  // ---------------------------------------------------------------------------------
  // Every step keeps the invariant
  // ---------------------------------------------------------------------------------

  /** s' is s after thread t moved to pc and at most node n changed. */
  ghost predicate Touches(s: State, s': State, t: Thread, n: Node)
  {
    && t < |s.pcs| && |s'.pcs| == |s.pcs|
    && s'.pcs == s.pcs[t := s'.pcs[t]]
    && (HasNode(s.pcs[t]) ==> s.pcs[t].node == n)
    && (forall m :: m != n ==> !Reads(s'.pcs[t], m))
    && s'.place.Keys == s.place.Keys == s'.refs.Keys == s.refs.Keys == s'.next.Keys == s.next.Keys
    && (forall m :: m in s.place && m != n ==>
          s'.place[m] == s.place[m] && s'.refs[m] == s.refs[m] && s'.next[m] == s.next[m])
  }

  lemma OtherNode(s: State, s': State, t: Thread, n: Node, m: Node)
    requires SameNodes(s) && Touches(s, s', t, n)
    requires m in s.place && m != n && NodeOk(s, m)
    ensures NodeOk(s', m)
  {
    ReadersUpdate(s.pcs, t, s'.pcs[t], m);
  }

  /** The other threads keep what they rely on, unless t changes the next pointer of a node
      somebody reads or takes a node out of another thread's hands. */
  lemma OtherThread(s: State, s': State, t: Thread, n: Node, u: Thread)
    requires SameNodes(s) && Touches(s, s', t, n)
    requires u < |s.pcs| && u != t && PcShaped(s, s.pcs[u]) && PcOk(s, u)
    requires n in s.place
    requires s'.place[n] != s.place[n] ==> s.place[n] != Adding(u) && s.place[n] != Taken(u)
    requires s'.next[n] != s.next[n] ==> s.place[n] == Adding(t) && !Reads(s.pcs[u], n)
    ensures PcShaped(s', s'.pcs[u]) && PcOk(s', u)
  {
    assert s'.pcs[u] == s.pcs[u];
  }

  /** The two lemmas above, for all nodes and threads at once. */
  lemma Frame(s: State, s': State, t: Thread, n: Node)
    requires Inv(s) && Touches(s, s', t, n) && n in s.place
    requires PcShaped(s', s'.pcs[t]) && PcOk(s', t) && NodeOk(s', n)
    requires s'.place[n] != s.place[n] ==>
      s.place[n] in {Held(t), Waiting, Listed, Adding(t), Taken(t)}
    requires s'.next[n] != s.next[n] ==> s.place[n] == Adding(t) && Readers(s.pcs, n) == 0
    requires Chain(s') && ListedExactly(s')
    ensures Inv(s')
  {
    forall m | m in s'.place ensures NodeOk(s', m) {
      assert NodeOk(s, m);
      if m != n { OtherNode(s, s', t, n, m); }
    }
    forall u | 0 <= u < |s'.pcs| ensures PcShaped(s', s'.pcs[u]) && PcOk(s', u) {
      if u != t {
        if Reads(s.pcs[u], n) { ReaderCounted(s.pcs, u, n); }
        assert PcShaped(s, s.pcs[u]) && PcOk(s, u);
        OtherThread(s, s', t, n, u);
      }
    }
  }

  /** Nothing about the list changes as long as node n is not on it before or after. */
  lemma SameList(s: State, s': State, t: Thread, n: Node)
    requires Inv(s) && Touches(s, s', t, n) && n in s.place
    requires s'.head == s.head && s'.list == s.list
    requires s'.place[n].Listed? <==> s.place[n].Listed?
    requires s.place[n].Listed? ==> s'.next[n] == s.next[n]
    ensures Chain(s') && ListedExactly(s')
  {
    NextSame(s, s', t, n);
    LinkedSame(s.list, s.head, s.next, s'.next);
    MarksSame(s.list, s.place, s'.place, n);
  }

  lemma NextSame(s: State, s': State, t: Thread, n: Node)
    requires SameNodes(s) && ListedExactly(s) && Touches(s, s', t, n) && n in s.place
    requires s.place[n].Listed? ==> s'.next[n] == s.next[n]
    ensures forall i :: 0 <= i < |s.list| ==> s.list[i] in s.next && s.list[i] in s'.next && s'.next[s.list[i]] == s.next[s.list[i]]
  {
    forall i | 0 <= i < |s.list|
      ensures s.list[i] in s.next && s.list[i] in s'.next && s'.next[s.list[i]] == s.next[s.list[i]]
    {
      assert s.place[s.list[i]] == Listed;
    }
  }

  lemma AddLocal(s: State, t: Thread, n: Node)
    requires SameNodes(s) && Enabled(s, t, BeginAdd(n)) && PcShaped(s, s.pcs[t])
    requires NodeOk(s, n) && |s.pcs| + 1 < FLAG
    ensures var s' := Next(s, t, BeginAdd(n));
      && Touches(s, s', t, n) && PcShaped(s', s'.pcs[t]) && PcOk(s', t) && NodeOk(s', n)
  {
    var s' := Next(s, t, BeginAdd(n));
    ReadersUpdate(s.pcs, t, s'.pcs[t], n);
  }

  lemma KeepAdd(s: State, t: Thread, n: Node)
    requires Inv(s) && Enabled(s, t, BeginAdd(n))
    ensures Inv(Next(s, t, BeginAdd(n)))
  {
    AddLocal(s, t, n);
    var s' := Next(s, t, BeginAdd(n));
    SameList(s, s', t, n);
    Frame(s, s', t, n);
  }

  lemma KeepHandOver(s: State, t: Thread, n: Node, u: Thread)
    requires Inv(s) && Enabled(s, t, HandOver(n, u))
    ensures Inv(Next(s, t, HandOver(n, u)))
  {
    var s' := Next(s, t, HandOver(n, u));
    MarksSame(s.list, s.place, s'.place, n);
    forall m | m in s'.place ensures NodeOk(s', m) { assert NodeOk(s, m); }
    forall v | 0 <= v < |s'.pcs| ensures PcShaped(s', s'.pcs[v]) && PcOk(s', v) {
      assert PcShaped(s, s.pcs[v]) && PcOk(s, v);
    }
  }

  /** The facts about thread t and its node that its next step reads. */
  ghost predicate Ready(s: State, t: Thread)
  {
    && SameNodes(s) && |s.pcs| + 1 < FLAG && KnownHead(s, s.head)
    && t < |s.pcs| && PcShaped(s, s.pcs[t]) && HasNode(s.pcs[t])
    && PcOk(s, t) && NodeOk(s, s.pcs[t].node)
    && (s.head == Some(s.pcs[t].node) ==> s.place[s.pcs[t].node] == Listed)
  }

  /** What the step of thread t re-establishes about itself and its node. */
  ghost predicate Settled(s: State, s': State, t: Thread)
    requires Ready(s, t)
  {
    var n := s.pcs[t].node;
    Touches(s, s', t, n) && PcShaped(s', s'.pcs[t]) && PcOk(s', t) && NodeOk(s', n)
  }

  lemma PushLocal(s: State, t: Thread)
    requires Ready(s, t) && BeforeStore(s.pcs[t])
    ensures Settled(s, Internal(s, t), t)
  {
    ReadersUpdate(s.pcs, t, Internal(s, t).pcs[t], s.pcs[t].node);
  }

  lemma PushCasLocal(s: State, t: Thread)
    requires Ready(s, t) && s.pcs[t].KCas?
    ensures Settled(s, Internal(s, t), t)
  {
    var n := s.pcs[t].node;
    if s.head == s.pcs[t].head {
      PushSucceeds(s, t);
    } else {
      ReadersUpdate(s.pcs, t, KUndo(n, s.head, s.pcs[t].k), n);
    }
  }

  lemma PushSucceeds(s: State, t: Thread)
    requires Ready(s, t) && s.pcs[t].KCas? && s.head == s.pcs[t].head
    ensures Settled(s, Internal(s, t), t)
  {
    ReadersUpdate(s.pcs, t, Resume(s.pcs[t].k), s.pcs[t].node);
  }

  lemma UndoLocal(s: State, t: Thread)
    requires Ready(s, t) && s.pcs[t].KUndo?
    ensures Settled(s, Internal(s, t), t)
  {
    ReadersUpdate(s.pcs, t, Internal(s, t).pcs[t], s.pcs[t].node);
  }

  lemma GetLocal(s: State, t: Thread)
    requires Ready(s, t) && (s.pcs[t].GRead? || s.pcs[t].GNext?)
    ensures Settled(s, Internal(s, t), t)
  {
    ReadersUpdate(s.pcs, t, Internal(s, t).pcs[t], s.pcs[t].node);
  }

  lemma IncLocal(s: State, t: Thread)
    requires Ready(s, t) && s.pcs[t].GInc?
    ensures Settled(s, Internal(s, t), t)
  {
    if s.refs[s.pcs[t].node] == s.pcs[t].refs {
      IncSucceeds(s, t);
    } else {
      ReadersUpdate(s.pcs, t, GLoad, s.pcs[t].node);
    }
  }

  /** The increment is only taken from a non-zero count, so the node is held, waiting, listed or
      being added by somebody past the store of its count. */
  lemma IncSucceeds(s: State, t: Thread)
    requires Ready(s, t) && s.pcs[t].GInc? && s.refs[s.pcs[t].node] == s.pcs[t].refs
    ensures Settled(s, Internal(s, t), t)
  {
    var n := s.pcs[t].node;
    ReadersUpdate(s.pcs, t, GNext(n), n);
    assert Internal(s, t).refs[n] == s.refs[n] + 1;
  }

  lemma CasLocal(s: State, t: Thread)
    requires Ready(s, t) && s.pcs[t].GCas?
    ensures Settled(s, Internal(s, t), t)
  {
    ReadersUpdate(s.pcs, t, Internal(s, t).pcs[t], s.pcs[t].node);
  }

  lemma TakeLocal(s: State, t: Thread)
    requires Ready(s, t) && s.pcs[t].GTake?
    ensures Settled(s, Internal(s, t), t)
  {
    ReaderCounted(s.pcs, t, s.pcs[t].node);
    ReadersUpdate(s.pcs, t, Internal(s, t).pcs[t], s.pcs[t].node);
  }

  lemma DropLocal(s: State, t: Thread)
    requires Ready(s, t) && s.pcs[t].GDrop?
    ensures Settled(s, Internal(s, t), t)
  {
    ReaderCounted(s.pcs, t, s.pcs[t].node);
    ReadersUpdate(s.pcs, t, Internal(s, t).pcs[t], s.pcs[t].node);
  }

  /** The successful CAS of add_knowing_refcount_is_zero puts the node in front of the list. */
  lemma PushList(s: State, t: Thread)
    requires Inv(s) && Ready(s, t) && s.pcs[t].KCas? && s.head == s.pcs[t].head
    ensures Chain(Internal(s, t)) && ListedExactly(Internal(s, t))
  {
    var n := s.pcs[t].node;
    LinkedPush(s.list, s.head, s.next, n);
    MarksPush(s.list, s.place, n);
  }

  /** The successful CAS of try_get removes exactly the front node: the next pointer it read
      before is still the second node of the list. */
  lemma PopList(s: State, t: Thread)
    requires Inv(s) && Ready(s, t) && s.pcs[t].GCas? && s.head == Some(s.pcs[t].node)
    ensures Chain(Internal(s, t)) && ListedExactly(Internal(s, t))
  {
    PopFront(s.list, s.head, s.next, s.place, s.pcs[t].node, Taken(t));
  }

  /** Neither the list nor what is said about n as a member of it changes. */
  ghost predicate ListStays(s: State, s': State, n: Node)
    requires n in s.place && n in s'.place && n in s.next && n in s'.next
  {
    && s'.head == s.head && s'.list == s.list
    && (s'.place[n].Listed? <==> s.place[n].Listed?)
    && (s.place[n].Listed? ==> s'.next[n] == s.next[n])
  }

  /** What Frame asks of the node that changes. */
  ghost predicate Allowed(s: State, s': State, t: Thread, n: Node)
    requires n in s.place && n in s'.place && n in s.next && n in s'.next
  {
    && (s'.place[n] != s.place[n] ==> s.place[n] in {Held(t), Waiting, Listed, Adding(t), Taken(t)})
    && (s'.next[n] != s.next[n] ==> s.place[n] == Adding(t) && Readers(s.pcs, n) == 0)
  }

  /** A step pushes, pops, or leaves the list alone. */
  lemma StepShape(s: State, t: Thread)
    requires Ready(s, t)
    ensures var s', n := Internal(s, t), s.pcs[t].node;
      && n in s'.place && n in s.next && n in s'.next && Allowed(s, s', t, n)
      && ((s.pcs[t].KCas? && s.head == s.pcs[t].head) || (s.pcs[t].GCas? && s.head == Some(n)) || ListStays(s, s', n))
  {
  }

  lemma KeepNode(s: State, t: Thread)
    requires Inv(s) && Ready(s, t) && Settled(s, Internal(s, t), t)
    ensures Inv(Internal(s, t))
  {
    var s', n := Internal(s, t), s.pcs[t].node;
    StepShape(s, t);
    if s.pcs[t].KCas? && s.head == s.pcs[t].head {
      PushList(s, t);
      Frame(s, s', t, n);
    } else if s.pcs[t].GCas? && s.head == Some(n) {
      PopList(s, t);
      Frame(s, s', t, n);
    } else {
      KeepSame(s, s', t, n);
    }
  }

  lemma KeepSame(s: State, s': State, t: Thread, n: Node)
    requires Inv(s) && Touches(s, s', t, n) && n in s.place
    requires PcShaped(s', s'.pcs[t]) && PcOk(s', t) && NodeOk(s', n)
    requires ListStays(s, s', n) && Allowed(s, s', t, n)
    ensures Inv(s')
  {
    SameList(s, s', t, n);
    Frame(s, s', t, n);
  }

  lemma LocalStep(s: State, t: Thread)
    requires Ready(s, t)
    ensures Settled(s, Internal(s, t), t)
  {
    match s.pcs[t]
    case KCas(_, _, _) => PushCasLocal(s, t);
    case KUndo(_, _, _) => UndoLocal(s, t);
    case GRead(_) => GetLocal(s, t);
    case GNext(_) => GetLocal(s, t);
    case GInc(_, _) => IncLocal(s, t);
    case GCas(_, _) => CasLocal(s, t);
    case GTake(_) => TakeLocal(s, t);
    case GDrop(_, _) => DropLocal(s, t);
    case _ => PushLocal(s, t);
  }

  lemma IdleNode(s: State, t: Thread, pc: Pc, m: Node)
    requires SameNodes(s) && t < |s.pcs| && !HasNode(s.pcs[t])
    requires pc.GLoad? || pc == Enter(s.head)
    requires m in s.place && NodeOk(s, m)
    ensures NodeOk(s.(pcs := s.pcs[t := pc]), m)
  {
    ReadersUpdate(s.pcs, t, pc, m);
  }

  lemma IdleThread(s: State, t: Thread, pc: Pc, u: Thread)
    requires SameNodes(s) && KnownHead(s, s.head) && t < |s.pcs| && u < |s.pcs|
    requires PcShaped(s, s.pcs[u]) && PcOk(s, u)
    requires pc.GLoad? || pc == Enter(s.head)
    ensures var s' := s.(pcs := s.pcs[t := pc]);
      PcShaped(s', s'.pcs[u]) && PcOk(s', u)
  {
  }

  /** Moving between program points that work on no node changes nothing else. */
  lemma KeepIdle(s: State, t: Thread, pc: Pc)
    requires Inv(s) && t < |s.pcs| && !HasNode(s.pcs[t])
    requires pc.GLoad? || pc == Enter(s.head)
    ensures Inv(s.(pcs := s.pcs[t := pc]))
  {
    var s' := s.(pcs := s.pcs[t := pc]);
    forall m | m in s'.place ensures NodeOk(s', m) {
      assert NodeOk(s, m);
      IdleNode(s, t, pc, m);
    }
    forall u | 0 <= u < |s'.pcs| ensures PcShaped(s', s'.pcs[u]) && PcOk(s', u) {
      assert PcShaped(s, s.pcs[u]) && PcOk(s, u);
      IdleThread(s, t, pc, u);
    }
  }

  lemma ReadyOf(s: State, t: Thread)
    requires Inv(s) && t < |s.pcs| && HasNode(s.pcs[t])
    ensures Ready(s, t)
  {
    assert PcShaped(s, s.pcs[t]) && PcOk(s, t);
    assert NodeOk(s, s.pcs[t].node);
  }

  lemma StepInv(s: State, t: Thread, step: Step)
    requires Inv(s) && Enabled(s, t, step)
    ensures Inv(Next(s, t, step))
  {
    match step
    case BeginAdd(n) => KeepAdd(s, t, n);
    case HandOver(n, u) => KeepHandOver(s, t, n, u);
    case BeginGet => KeepIdle(s, t, GLoad);
    case Advance =>
      if HasNode(s.pcs[t]) {
        ReadyOf(s, t);
        LocalStep(s, t);
        KeepNode(s, t);
      } else {
        KeepIdle(s, t, Enter(s.head));
      }
  }

  // ---------------------------------------------------------------------------------
  // Whole runs
  // ---------------------------------------------------------------------------------

  datatype Action = Action(thread: Thread, step: Step)

  /** states[i] --acts[i]--> states[i + 1], from an initial state, under any schedule. */
  ghost predicate Run(states: seq<State>, acts: seq<Action>)
  {
    && |states| == |acts| + 1
    && Init(states[0])
    && (forall i :: 0 <= i < |acts| ==> StepAt(states, acts, i))
  }

  ghost predicate StepAt(states: seq<State>, acts: seq<Action>, i: nat)
    requires i < |acts| && |states| == |acts| + 1
  {
    Follows(states[i], acts[i], states[i + 1])
  }

  ghost predicate Follows(s: State, a: Action, s': State)
  {
    && SameNodes(s) && Enabled(s, a.thread, a.step) && PcShaped(s, s.pcs[a.thread])
    && s' == Next(s, a.thread, a.step)
  }

  lemma FollowsInv(s: State, a: Action, s': State)
    requires Inv(s) && Follows(s, a, s')
    ensures Inv(s')
  {
    StepInv(s, a.thread, a.step);
  }

  lemma RunFollows(states: seq<State>, acts: seq<Action>, i: nat)
    requires Run(states, acts) && i < |acts|
    ensures Follows(states[i], acts[i], states[i + 1])
  {
    assert StepAt(states, acts, i);
  }

  lemma StepKeeps(states: seq<State>, acts: seq<Action>, i: nat)
    requires Run(states, acts) && i < |acts| && Inv(states[i])
    ensures Inv(states[i + 1])
  {
    RunFollows(states, acts, i);
    FollowsInv(states[i], acts[i], states[i + 1]);
  }

  lemma RunInv(states: seq<State>, acts: seq<Action>, i: nat)
    requires Run(states, acts) && i < |states|
    ensures Inv(states[i])
  {
    RunStart(states, acts);
    forall k | 0 <= k < |states| - 1 && Inv(states[k])
      ensures Inv(states[k + 1])
    {
      StepKeeps(states, acts, k);
    }
    Runs.Along(states, Inv, i);
  }

  lemma RunStart(states: seq<State>, acts: seq<Action>)
    requires Run(states, acts)
    ensures Inv(states[0])
  {
    InitInv(states[0]);
  }

  /** try_get of action i returns node n to its caller. */
  ghost predicate Returns(states: seq<State>, acts: seq<Action>, i: nat, n: Node)
    requires i < |acts| && i < |states|
  {
    && acts[i].step == Advance
    && acts[i].thread < |states[i].pcs|
    && states[i].pcs[acts[i].thread] == GTake(n)
  }

  /** A step only moves the node its thread works on, and never out of a caller's hands. */
  lemma PlaceMoves(s: State, t: Thread, n: Node)
    requires Ready(s, t) && n in s.place && s.place[n].Held?
    ensures n in Internal(s, t).place && Internal(s, t).place[n] == s.place[n]
  {
  }

  /** A node in a caller's hands stays in a caller's hands until it is added, and changes hands
      only when its owner passes it on. */
  lemma HeldStays(s: State, t: Thread, step: Step, n: Node)
    requires Inv(s) && Enabled(s, t, step)
    requires n in s.place && s.place[n].Held? && step != BeginAdd(n)
    ensures var place' := Next(s, t, step).place;
      && n in place' && place'[n].Held?
      && (place'[n] != s.place[n] ==> s.place[n] == Held(t) && step == HandOver(n, place'[n].owner))
  {
    if step == Advance && HasNode(s.pcs[t]) {
      ReadyOf(s, t);
      PlaceMoves(s, t, n);
    }
  }

  ghost predicate InHand(s: State, n: Node)
  {
    n in s.place && s.place[n].Held?
  }

  lemma HeldAcross(states: seq<State>, acts: seq<Action>, i: nat, n: Node)
    requires Run(states, acts) && i < |acts| && InHand(states[i], n) && acts[i].step != BeginAdd(n)
    ensures InHand(states[i + 1], n)
  {
    RunInv(states, acts, i);
    RunFollows(states, acts, i);
    HeldStays(states[i], acts[i].thread, acts[i].step, n);
  }

  lemma HeldUntilAdded(states: seq<State>, acts: seq<Action>, i: nat, j: nat, n: Node)
    requires Run(states, acts) && i <= j < |states| && InHand(states[i], n)
    requires forall k :: i <= k < j ==> acts[k].step != BeginAdd(n)
    ensures InHand(states[j], n)
  {
    var held, span := (s: State) => InHand(s, n), states[i..j + 1];
    forall k | 0 <= k < |span| - 1 && held(span[k]) ensures held(span[k + 1]) {
      HeldAcross(states, acts, i + k, n);
    }
    Runs.Along(span, held, j - i);
  }

  lemma ReturnedIsHeld(states: seq<State>, acts: seq<Action>, i: nat, n: Node)
    requires Run(states, acts) && i < |acts| && Returns(states, acts, i, n)
    ensures n in states[i].place && !states[i].place[n].Held?
    ensures n in states[i + 1].place && states[i + 1].place[n] == Held(acts[i].thread)
  {
    RunInv(states, acts, i);
    RunFollows(states, acts, i);
    ReadyOf(states[i], acts[i].thread);
  }

  /** In every run, a node that try_get hands out twice was added in between. */
  lemma NeverHandedOutTwice(states: seq<State>, acts: seq<Action>, i: nat, j: nat, n: Node)
    requires Run(states, acts) && i < j < |acts|
    requires Returns(states, acts, i, n) && Returns(states, acts, j, n)
    ensures exists k :: i < k < j && acts[k].step == BeginAdd(n)
  {
    ReturnedIsHeld(states, acts, i, n);
    ReturnedIsHeld(states, acts, j, n);
    if forall k :: i < k < j ==> acts[k].step != BeginAdd(n) {
      HeldUntilAdded(states, acts, i + 1, j, n);
    }
  }

  /** The nodes reached by following at most `steps` next pointers. */
  function Walk(next: map<Node, Option<Node>>, from: Option<Node>, steps: nat): seq<Node>
    decreases steps
  {
    if from.None? || steps == 0 || from.value !in next then []
    else [from.value] + Walk(next, next[from.value], steps - 1)
  }

  lemma {:induction false} WalkIsList(list: seq<Node>, head: Option<Node>, next: map<Node, Option<Node>>, steps: nat)
    requires Linked(list, head, next) && steps >= |list|
    ensures Walk(next, head, steps) == list
    decreases |list|
  {
    if list != [] {
      LinkedPop(list, head, next);
      WalkIsList(list[1..], next[list[0]], next, steps - 1);
    }
  }

  /** In every reachable state: following the real pointers, however far, visits no node
      twice; a node on the list belongs to no thread; and the assertion inside try_get that
      the flag of a node just taken is clear holds. */
  lemma ListNeverRepeats(states: seq<State>, acts: seq<Action>, i: nat, steps: nat)
    requires Run(states, acts) && i < |states|
    requires steps >= |states[i].list|
    ensures var w := Walk(states[i].next, states[i].head, steps);
      && (forall a, b :: 0 <= a < b < |w| ==> w[a] != w[b])
      && (forall a :: 0 <= a < |w| ==> w[a] in states[i].place && states[i].place[w[a]] == Listed)
    ensures forall t, n :: 0 <= t < |states[i].pcs| && states[i].pcs[t] == GTake(n) ==>
      n in states[i].refs && 2 <= states[i].refs[n] < FLAG
  {
    RunInv(states, acts, i);
    var s := states[i];
    WalkIsList(s.list, s.head, s.next, steps);
    forall t, n | 0 <= t < |s.pcs| && s.pcs[t] == GTake(n) ensures n in s.refs && 2 <= s.refs[n] < FLAG {
      assert PcShaped(s, s.pcs[t]) && PcOk(s, t) && NodeOk(s, n);
      ReaderCounted(s.pcs, t, n);
    }
  }

  /** No node is lost: when no thread is inside an operation, every node is either owned by
      a caller or reachable from the head. */
  lemma NothingLost(states: seq<State>, acts: seq<Action>, i: nat, n: Node)
    requires Run(states, acts) && i < |states| && n in states[i].place
    requires forall t :: 0 <= t < |states[i].pcs| ==> states[i].pcs[t] == Idle
    ensures states[i].place[n].Held? != (n in Walk(states[i].next, states[i].head, |states[i].list|))
  {
    RunInv(states, acts, i);
    IdleReaders(states[i].pcs, n);
    assert NodeOk(states[i], n);
    WalkIsList(states[i].list, states[i].head, states[i].next, |states[i].list|);
  }
}
