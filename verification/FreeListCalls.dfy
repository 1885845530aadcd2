/** What a call to the free list achieves: a try_get that comes back with nothing saw the list empty,
    and a call that is not disturbed takes the front node, or puts its node there, in a fixed number of
    steps, whatever the other threads have left half done.
 */
module FreeListCalls {
  import opened Options
  import opened FreeList

  // ---------------------------------------------------------------------------------
  // A try_get that returns nothing
  // ---------------------------------------------------------------------------------

  /** A call of try_get by t that begins with action i and is over after action j. */
  ghost predicate GetCall(states: seq<State>, acts: seq<Action>, i: nat, j: nat, t: Thread)
  {
    && i < j < |acts| && |states| == |acts| + 1
    && acts[i] == Action(t, BeginGet)
    && (forall k :: i < k <= j ==> t < |states[k].pcs| && states[k].pcs[t] != Idle)
    && t < |states[j + 1].pcs| && states[j + 1].pcs[t] == Idle
  }

  /** The head a thread in try_get has read and will go on with. */
  predicate Remembers(pc: Pc, h: Option<Node>)
  {
    (pc.GDrop? && pc.head == h) || (Adds(pc) && pc.k == Loop(h))
  }

  predicate InGet(pc: Pc)
  {
    pc.GLoad? || pc.GRead? || pc.GInc? || pc.GNext? || pc.GCas? || pc.GTake? || pc.GDrop? || (Adds(pc) && pc.k.Loop?)
  }

  /** The list was empty at some moment after i and up to k. */
  ghost predicate SawEmpty(states: seq<State>, i: nat, k: nat)
    requires k < |states|
  {
    exists m :: i < m <= k && states[m].head.None?
  }

  /** From pc to pc' with that head in the list: the thread stays in its call and remembers only what
      it knew or has just read, or it is through, with a node or after reading an empty head. */
  predicate GetMoves(pc: Pc, head: Option<Node>, pc': Pc)
  {
    && (pc' != Idle ==> InGet(pc') && (Remembers(pc', None) ==> Remembers(pc, None) || head.None?))
    && (pc' == Idle ==> pc.GTake? || Remembers(pc, None) || head.None?)
  }

  lemma GetStep(s: State, a: Action, s': State, t: Thread)
    requires Follows(s, a, s') && t < |s.pcs| && InGet(s.pcs[t])
    ensures |s'.pcs| == |s.pcs| && GetMoves(s.pcs[t], s.head, s'.pcs[t])
  {
    if a.step == Advance {
      OthersStay(s, a.thread, t);
      if a.thread == t {
        if Adds(s.pcs[t]) { AddingMoves(s, t); } else { GettingMoves(s, t); }
      }
    }
  }

  lemma OthersStay(s: State, u: Thread, t: Thread)
    requires SameNodes(s) && u < |s.pcs| && t < |s.pcs| && PcShaped(s, s.pcs[u])
    ensures |Internal(s, u).pcs| == |s.pcs| && (t != u ==> Internal(s, u).pcs[t] == s.pcs[t])
  {
  }

  lemma AddingMoves(s: State, t: Thread)
    requires SameNodes(s) && t < |s.pcs| && PcShaped(s, s.pcs[t]) && Adds(s.pcs[t]) && InGet(s.pcs[t])
    ensures |Internal(s, t).pcs| == |s.pcs| && GetMoves(s.pcs[t], s.head, Internal(s, t).pcs[t])
  {
    assert s.pcs[t].k.Loop?;
  }

  lemma GettingMoves(s: State, t: Thread)
    requires SameNodes(s) && t < |s.pcs| && PcShaped(s, s.pcs[t]) && !Adds(s.pcs[t]) && InGet(s.pcs[t])
    ensures |Internal(s, t).pcs| == |s.pcs| && GetMoves(s.pcs[t], s.head, Internal(s, t).pcs[t])
  {
    match s.pcs[t]
    case GLoad =>
    case GRead(n) =>
    case GInc(n, r) =>
    case GNext(n) =>
    case GCas(n, nx) =>
    case GTake(n) =>
    case GDrop(n, h) =>
  }

  /** Thread t is in its call, and goes on with an empty head only if it saw one. */
  ghost predicate Knows(states: seq<State>, i: nat, k: nat, t: Thread)
    requires k < |states|
  {
    && t < |states[k].pcs| && InGet(states[k].pcs[t])
    && (Remembers(states[k].pcs[t], None) ==> SawEmpty(states, i, k))
  }

  lemma KnowsOn(states: seq<State>, i: nat, k: nat, t: Thread, a: Action)
    requires i < k < |states| - 1 && Knows(states, i, k, t) && Follows(states[k], a, states[k + 1])
    requires t < |states[k + 1].pcs| && states[k + 1].pcs[t] != Idle
    ensures Knows(states, i, k + 1, t)
  {
    GetStep(states[k], a, states[k + 1], t);
    Later(states, i, k + 1);
  }

  lemma {:induction false} StillInGet(states: seq<State>, acts: seq<Action>, i: nat, j: nat, t: Thread, k: nat)
    requires Run(states, acts) && GetCall(states, acts, i, j, t) && i < k <= j
    ensures Knows(states, i, k, t)
    decreases k
  {
    RunFollows(states, acts, k - 1);
    if k == i + 1 {
      Enters(states[i], t, states[k]);
    } else {
      StillInGet(states, acts, i, j, t, k - 1);
      KnowsOn(states, i, k - 1, t, acts[k - 1]);
    }
  }

  lemma Enters(s: State, t: Thread, s': State)
    requires Follows(s, Action(t, BeginGet), s')
    ensures t < |s'.pcs| && s'.pcs[t] == GLoad
  {
  }

  lemma Later(states: seq<State>, i: nat, k: nat)
    requires i < k - 1 && k < |states|
    ensures SawEmpty(states, i, k - 1) || states[k - 1].head.None? ==> SawEmpty(states, i, k)
  {
  }

  /** In every run, a try_get either returns a node or the list was empty at some moment of the call. */
  lemma NothingOnlyIfEmpty(states: seq<State>, acts: seq<Action>, i: nat, j: nat, t: Thread)
    requires Run(states, acts) && GetCall(states, acts, i, j, t)
    ensures (exists n :: Returns(states, acts, j, n))
         || (exists m :: i < m <= j && states[m].head.None? && states[m].list == [])
  {
    RunFollows(states, acts, j);
    StillInGet(states, acts, i, j, t, j);
    GetStep(states[j], acts[j], states[j + 1], t);
    if states[j].pcs[t].GTake? {
      Through(states[j], acts[j], states[j + 1], t);
      assert Returns(states, acts, j, states[j].pcs[t].node);
    } else {
      assert SawEmpty(states, i, j);
      var m :| i < m <= j && states[m].head.None?;
      RunInv(states, acts, m);
    }
  }

  lemma Through(s: State, a: Action, s': State, t: Thread)
    requires Follows(s, a, s') && t < |s.pcs| && s.pcs[t].GTake? && s'.pcs[t] == Idle
    ensures a == Action(t, Advance)
  {
  }

  // ---------------------------------------------------------------------------------
  // A call that is not disturbed
  // ---------------------------------------------------------------------------------

  /** From states[0], thread t takes the step `first` and then goes on, no other thread moving. */
  ghost predicate Alone(states: seq<State>, t: Thread, first: Step)
  {
    && |states| > 1 && Follows(states[0], Action(t, first), states[1])
    && (forall i :: 1 <= i < |states| - 1 ==> Follows(states[i], Action(t, Advance), states[i + 1]))
  }

  lemma AloneBegins(s: State, t: Thread, first: Step, s': State) returns (states: seq<State>)
    requires Follows(s, Action(t, first), s')
    ensures states == [s, s'] && Alone(states, t, first)
  {
    states := [s, s'];
  }

  lemma AloneGoesOn(states: seq<State>, t: Thread, first: Step, s': State) returns (more: seq<State>)
    requires Alone(states, t, first) && Follows(states[|states| - 1], Action(t, Advance), s')
    ensures more == states + [s'] && Alone(more, t, first)
  {
    more := states + [s'];
    forall i | 1 <= i < |more| - 1
      ensures Follows(more[i], Action(t, Advance), more[i + 1])
    {
      if i < |states| - 1 { assert Follows(states[i], Action(t, Advance), states[i + 1]); }
    }
  }

  /** Of a listed node, a reader can take a reference: the count is neither 0 nor near the flag. */
  lemma ListedCount(s: State, n: Node)
    requires |s.pcs| + 1 < FLAG && n in s.place && n in s.refs && s.place[n] == Listed && NodeOk(s, n)
    ensures 0 < s.refs[n] < FLAG
  {
  }

  lemma FrontIn(list: seq<Node>, head: Option<Node>, next: map<Node, Option<Node>>, place: map<Node, Place>)
    requires Linked(list, head, next) && Marks(list, place) && list != []
    ensures head == Some(list[0]) && list[0] in place && place[list[0]] == Listed
  {
  }

  ghost predicate Front(s: State, n: Node)
  {
    SameNodes(s) && n in s.refs && 0 < s.refs[n] < FLAG && s.head == Some(n) && s.list != [] && s.list[0] == n
  }

  lemma FrontOf(s: State)
    requires Inv(s) && s.list != []
    ensures Front(s, s.list[0])
  {
    FrontIn(s.list, s.head, s.next, s.place);
    ListedCount(s, s.list[0]);
  }

  /** The state in which t alone is at pc. */
  function At(s: State, t: Thread, pc: Pc): State
    requires t < |s.pcs|
  {
    s.(pcs := s.pcs[t := pc])
  }

  /** Thread t, at pc, goes on to s'. */
  ghost predicate Goes(s: State, t: Thread, pc: Pc, s': State)
    requires t < |s.pcs|
  {
    Follows(At(s, t, pc), Action(t, Advance), s')
  }

  lemma FrontIsRead(s: State, t: Thread, n: Node)
    requires Front(s, n) && t < |s.pcs|
    ensures Goes(s, t, GLoad, At(s, t, GRead(n))) && Goes(s, t, GRead(n), At(s, t, GInc(n, s.refs[n])))
  {
  }

  lemma FrontIsCounted(s: State, t: Thread, n: Node, s': State)
    requires Front(s, n) && t < |s.pcs| && s' == s.(refs := s.refs[n := s.refs[n] + 1])
    ensures Goes(s, t, GInc(n, s.refs[n]), At(s', t, GNext(n))) && Goes(s', t, GNext(n), At(s', t, GCas(n, s'.next[n])))
  {
  }

  lemma FrontIsTaken(s: State, t: Thread, n: Node, s': State)
    requires SameNodes(s) && n in s.next && s.head == Some(n) && s.list != [] && t < |s.pcs|
    requires s' == s.(head := s.next[n], place := s.place[n := Taken(t)], list := s.list[1..])
    ensures Goes(s, t, GCas(n, s.next[n]), At(s', t, GTake(n)))
  {
  }

  lemma TakenIsHeld(s: State, t: Thread, n: Node, s': State)
    requires SameNodes(s) && n in s.refs && 2 <= s.refs[n] <= FLAG && t < |s.pcs| && s.pcs[t] == Idle
    requires s' == s.(refs := s.refs[n := s.refs[n] - 2], place := s.place[n := Held(t)])
    ensures Goes(s, t, GTake(n), s')
  {
    assert s.pcs[t := GTake(n)][t := Idle] == s.pcs;
  }

  /** From any reachable state, also with other threads in the middle of their calls, a try_get that
      runs alone on a list that is not empty is back after seven steps with the front node in hand. */
  lemma GetAlone(s: State, t: Thread) returns (states: seq<State>)
    requires Inv(s) && t < |s.pcs| && s.pcs[t] == Idle && s.list != []
    ensures |states| == 8 && states[0] == s && Alone(states, t, BeginGet)
    ensures var n := s.list[0]; Front(s, n) && states[7] == Popped(s, t, n)
  {
    FrontOf(s);
    states := TakeFront(s, t, s.list[0]);
  }

  /** The front node has gone from the list into the hands of t, and nothing else has changed. */
  function Popped(s: State, t: Thread, n: Node): State
    requires n in s.next && n in s.refs && s.list != []
  {
    s.(head := s.next[n], list := s.list[1..], place := s.place[n := Held(t)], refs := s.refs[n := s.refs[n] - 1])
  }

  lemma ReadFront(s: State, t: Thread, n: Node) returns (states: seq<State>)
    requires Front(s, n) && t < |s.pcs| && s.pcs[t] == Idle
    ensures |states| == 4 && states[0] == s && Alone(states, t, BeginGet) && states[3] == At(s, t, GInc(n, s.refs[n]))
  {
    FrontIsRead(s, t, n);
    states := AloneBegins(s, t, BeginGet, At(s, t, GLoad));
    states := AloneGoesOn(states, t, BeginGet, At(s, t, GRead(n)));
    states := AloneGoesOn(states, t, BeginGet, At(s, t, GInc(n, s.refs[n])));
  }

  lemma CountFront(s: State, t: Thread, n: Node) returns (states: seq<State>)
    requires Front(s, n) && t < |s.pcs| && s.pcs[t] == Idle
    ensures |states| == 6 && states[0] == s && Alone(states, t, BeginGet)
    ensures states[5] == At(s.(refs := s.refs[n := s.refs[n] + 1]), t, GCas(n, s.next[n]))
  {
    var s1 := s.(refs := s.refs[n := s.refs[n] + 1]);
    states := ReadFront(s, t, n);
    FrontIsCounted(s, t, n, s1);
    states := AloneGoesOn(states, t, BeginGet, At(s1, t, GNext(n)));
    states := AloneGoesOn(states, t, BeginGet, At(s1, t, GCas(n, s1.next[n])));
  }

  lemma CasFront(s: State, t: Thread, n: Node, e: State) returns (states: seq<State>)
    requires Front(s, n) && t < |s.pcs| && s.pcs[t] == Idle
    requires e == s.(refs := s.refs[n := s.refs[n] + 1], head := s.next[n], place := s.place[n := Taken(t)],
                     list := s.list[1..])
    ensures |states| == 7 && states[0] == s && Alone(states, t, BeginGet) && states[6] == At(e, t, GTake(n))
  {
    states := CountFront(s, t, n);
    FrontIsTaken(s.(refs := s.refs[n := s.refs[n] + 1]), t, n, e);
    states := AloneGoesOn(states, t, BeginGet, At(e, t, GTake(n)));
  }

  lemma TakeFront(s: State, t: Thread, n: Node) returns (states: seq<State>)
    requires Front(s, n) && t < |s.pcs| && s.pcs[t] == Idle
    ensures |states| == 8 && states[0] == s && Alone(states, t, BeginGet) && states[7] == Popped(s, t, n)
  {
    var e := s.(refs := s.refs[n := s.refs[n] + 1], head := s.next[n], place := s.place[n := Taken(t)], list := s.list[1..]);
    states := CasFront(s, t, n, e);
    assert e.refs[n := e.refs[n] - 2] == s.refs[n := s.refs[n] - 1] && e.place[n := Held(t)] == s.place[n := Held(t)];
    TakenIsHeld(e, t, n, Popped(s, t, n));
    states := AloneGoesOn(states, t, BeginGet, Popped(s, t, n));
  }

  /** On an empty list it is back after two steps, and has changed nothing. */
  lemma GetAloneEmpty(s: State, t: Thread) returns (states: seq<State>)
    requires Inv(s) && t < |s.pcs| && s.pcs[t] == Idle && s.list == []
    ensures |states| == 3 && states[0] == s && Alone(states, t, BeginGet) && states[2] == s
  {
    var s1 := s.(pcs := s.pcs[t := GLoad]);
    assert s1.pcs[t := Idle] == s.pcs;
    states := [s, s1, s];
    assert Follows(s, Action(t, BeginGet), s1) && Follows(s1, Action(t, Advance), s);
  }

  /** An add that runs alone of a node that nobody refers to any more puts it in front after five
      steps. */
  lemma AddAlone(s: State, t: Thread, n: Node) returns (states: seq<State>)
    requires Inv(s) && t < |s.pcs| && s.pcs[t] == Idle && n in s.place && s.place[n] == Held(t) && s.refs[n] == 0
    ensures |states| == 6 && states[0] == s && Alone(states, t, BeginAdd(n)) && states[5] == Pushed(s, n)
  {
    FreshIn(s, n);
    states := PushFresh(s, t, n);
  }

  lemma LinkFresh(s: State, t: Thread, n: Node, e: State) returns (states: seq<State>)
    requires SameNodes(s) && t < |s.pcs| && s.pcs[t] == Idle && n in s.place && s.place[n] == Held(t) && s.refs[n] == 0
    requires e == s.(refs := s.refs[n := FLAG], place := s.place[n := Adding(t)], next := s.next[n := s.head])
    ensures |states| == 4 && states[0] == s && Alone(states, t, BeginAdd(n))
             && states[3] == At(e, t, KRefs(n, s.head, Return))
  {
    var s1 := s.(refs := s.refs[n := FLAG], place := s.place[n := Adding(t)]);
    Begins(s, t, n, s1);
    Links(s1, t, n, e);
    states := AloneBegins(s, t, BeginAdd(n), At(s1, t, KLoad(n, Return)));
    states := AloneGoesOn(states, t, BeginAdd(n), At(s1, t, KNext(n, s.head, Return)));
    states := AloneGoesOn(states, t, BeginAdd(n), At(e, t, KRefs(n, s.head, Return)));
  }

  lemma PushFresh(s: State, t: Thread, n: Node) returns (states: seq<State>)
    requires SameNodes(s) && t < |s.pcs| && s.pcs[t] == Idle && n in s.place && s.place[n] == Held(t) && s.refs[n] == 0
    ensures |states| == 6 && states[0] == s && Alone(states, t, BeginAdd(n)) && states[5] == Pushed(s, n)
  {
    var e := s.(refs := s.refs[n := FLAG], place := s.place[n := Adding(t)], next := s.next[n := s.head]);
    var s3 := e.(refs := s.refs[n := 1]);
    states := LinkFresh(s, t, n, e);
    assert e.refs[n := 1] == s.refs[n := 1] && e.place[n := Listed] == s.place[n := Listed];
    Pushes(e, t, n, s3, Pushed(s, n));
    states := AloneGoesOn(states, t, BeginAdd(n), At(s3, t, KCas(n, s.head, Return)));
    states := AloneGoesOn(states, t, BeginAdd(n), Pushed(s, n));
  }

  /** The node is in front of the list, with the list's reference, and nothing else has changed. */
  function Pushed(s: State, n: Node): State
  {
    s.(head := Some(n), list := [n] + s.list, next := s.next[n := s.head], place := s.place[n := Listed],
       refs := s.refs[n := 1])
  }

  lemma FreshIn(s: State, n: Node)
    requires Inv(s) && n in s.place
    ensures SameNodes(s) && n in s.refs && n in s.next
  {
  }

  lemma Begins(s: State, t: Thread, n: Node, s': State)
    requires SameNodes(s) && t < |s.pcs| && s.pcs[t] == Idle && n in s.place && s.place[n] == Held(t) && s.refs[n] == 0
    requires s' == s.(refs := s.refs[n := FLAG], place := s.place[n := Adding(t)])
    ensures Follows(s, Action(t, BeginAdd(n)), At(s', t, KLoad(n, Return)))
  {
  }

  lemma Links(s: State, t: Thread, n: Node, s': State)
    requires SameNodes(s) && t < |s.pcs| && n in s.place && s' == s.(next := s.next[n := s.head])
    ensures Goes(s, t, KLoad(n, Return), At(s, t, KNext(n, s.head, Return)))
    ensures Goes(s, t, KNext(n, s.head, Return), At(s', t, KRefs(n, s.head, Return)))
  {
  }

  lemma Pushes(s: State, t: Thread, n: Node, s': State, e: State)
    requires SameNodes(s) && t < |s.pcs| && s.pcs[t] == Idle && n in s.place && s' == s.(refs := s.refs[n := 1])
    requires e == s'.(head := Some(n), place := s.place[n := Listed], list := [n] + s.list)
    ensures Goes(s, t, KRefs(n, s.head, Return), At(s', t, KCas(n, s.head, Return)))
             && Goes(s', t, KCas(n, s.head, Return), e)
  {
    assert s.pcs[t := KCas(n, s.head, Return)][t := Idle] == s.pcs;
  }
}
