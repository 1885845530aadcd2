/** What a dequeue obtains: one that is not disturbed takes all it asked for that is there, and one that
    leaves with less than it asked for read counters by which there was no more.
 */
module DequeueCalls {
  import opened Words
  import opened OptimisticDequeue

  /** The range in which 64-bit counters tell how far a position is behind the tail, as for the
      comparison of the code. */
  predicate Comparable(lag: int)
  {
    -HALF < lag <= HALF
  }

  /** In that range the wrapped computation is exact: the elements from the position to the tail. */
  lemma RoomIs(tail: nat, optimistic: nat, over: nat)
    requires Comparable(optimistic - over - tail)
    ensures Room(tail, optimistic, over) == if optimistic - over < tail then tail - (optimistic - over) else 0
  {
    WrapSub(optimistic, over);
    WrapSub(tail, optimistic - over);
  }

  lemma NoRoom(tail: nat, optimistic: nat, over: nat)
    requires var d := tail - (optimistic - over); -HALF <= d <= 0 || HALF <= d <= WORD
    ensures Room(tail, optimistic, over) == 0
  {
    WrapSub(optimistic, over);
    WrapSub(tail, optimistic - over);
  }

  // ---------------------------------------------------------------------------------
  // A dequeue that is not disturbed
  // ---------------------------------------------------------------------------------

  /** From states[0], thread t begins a dequeue of up to max elements and goes on, nobody else moving. */
  ghost predicate Alone(states: seq<State>, t: nat, max: nat)
  {
    && |states| > 1 && Steps(states[0], Action(t, Begin(max)), states[1])
    && (forall i :: 1 <= i < |states| - 1 ==> Steps(states[i], Action(t, Advance), states[i + 1]))
  }

  lemma AloneGoesOn(states: seq<State>, t: nat, max: nat, s': State) returns (more: seq<State>)
    requires Alone(states, t, max) && Steps(states[|states| - 1], Action(t, Advance), s')
    ensures more == states + [s'] && Alone(more, t, max)
  {
    more := states + [s'];
    forall i | 1 <= i < |more| - 1
      ensures Steps(more[i], Action(t, Advance), more[i + 1])
    {
      if i < |states| - 1 { assert Steps(states[i], Action(t, Advance), states[i + 1]); }
    }
  }

  function At(s: State, t: nat, pc: Pc): State
    requires t < |s.pcs|
  {
    s.(pcs := s.pcs[t := pc])
  }

  function Loaded(s: State): Load
  {
    Load(s.overcommit, s.optimistic, TotalUndecided(s.pcs))
  }

  lemma BeginsAlone(s: State, t: nat, max: nat) returns (states: seq<State>)
    requires t < |s.pcs| && s.pcs[t] == Idle && max > 0
    ensures |states| == 3 && states[0] == s && Alone(states, t, max)
    ensures states[2] == At(s, t, Check(max, s.tail, Loaded(At(s, t, ReadOver(max, s.tail)))))
  {
    var s1 := At(s, t, ReadOver(max, s.tail));
    states := [s, s1];
    assert Steps(s, Action(t, Begin(max)), s1);
    var s2 := At(s, t, Check(max, s.tail, Loaded(s1)));
    assert s1.pcs[t := Check(max, s.tail, Loaded(s1))] == s2.pcs;
    states := AloneGoesOn(states, t, max, s2);
  }

  /** The n elements after the head are claimed by t, with n tickets drawn and won. */
  function Claimed(s: State, t: nat, n: nat): State
  {
    s.(head := s.head + n, optimistic := s.optimistic + n,
       tickets := s.tickets + seq(n, _ => Won), claims := s.claims + seq(n, _ => t))
  }

  lemma ReservesAlone(s: State, t: nat, max: nat, load: Load, n: nat)
    requires t < |s.pcs| && max > 0 && load.over == s.overcommit && 0 < s.tail - (s.optimistic - s.overcommit) < HALF
    requires n == Min(max, s.tail - (s.optimistic - s.overcommit))
    ensures Steps(At(s, t, Check(max, s.tail, load)), Action(t, Advance), At(s, t, Reserve(n, load)))
  {
    RoomIs(s.tail, s.optimistic, s.overcommit);
    assert s.pcs[t := Check(max, s.tail, load)][t := Reserve(n, load)] == s.pcs[t := Reserve(n, load)];
  }

  function Drawn(s: State, t: nat, n: nat): State
  {
    s.(optimistic := s.optimistic + n, tickets := s.tickets + seq(n, _ => Open(t)))
  }

  function Decided(s: State, n: nat): State
  {
    s.(optimistic := s.optimistic + n, tickets := s.tickets + seq(n, _ => Won))
  }

  lemma DrawsAlone(s: State, t: nat, load: Load, n: nat)
    requires t < |s.pcs|
    ensures Steps(At(s, t, Reserve(n, load)), Action(t, Advance), At(Drawn(s, t, n), t, Recheck(n, load, s.optimistic)))
  {
    assert s.pcs[t := Reserve(n, load)][t := Recheck(n, load, s.optimistic)] == s.pcs[t := Recheck(n, load, s.optimistic)];
  }

  lemma WinsAlone(s: State, t: nat, load: Load, n: nat)
    requires t < |s.pcs| && |s.tickets| == s.optimistic && load.over == s.overcommit
    requires 0 < n <= s.tail - (s.optimistic - s.overcommit) < HALF
    ensures Steps(At(Drawn(s, t, n), t, Recheck(n, load, s.optimistic)), Action(t, Advance), At(Decided(s, n), t, Claim(n, s.optimistic)))
  {
    RoomIs(s.tail, s.optimistic, s.overcommit);
    var open := s.tickets + seq(n, _ => Open(t));
    assert Mark(open, s.optimistic, n, Won) == s.tickets + seq(n, _ => Won);
    assert s.pcs[t := Recheck(n, load, s.optimistic)][t := Claim(n, s.optimistic)] == s.pcs[t := Claim(n, s.optimistic)];
  }

  lemma TakesAlone(s: State, t: nat, n: nat)
    requires t < |s.pcs| && s.pcs[t] == Idle
    ensures Steps(At(Decided(s, n), t, Claim(n, s.optimistic)), Action(t, Advance), Claimed(s, t, n))
  {
    assert s.pcs[t := Claim(n, s.optimistic)][t := Idle] == s.pcs;
  }

  /** From any state of a run, with other dequeues half done or not, a dequeue of up to max elements
      that runs alone takes, in six steps, as many as lie between the optimistic count less the
      overcommit and the tail. */
  lemma DequeueAlone(s: State, t: nat, max: nat) returns (states: seq<State>)
    requires Inv(s) && t < |s.pcs| && s.pcs[t] == Idle && max > 0
    requires 0 < s.tail - (s.optimistic - s.overcommit) < HALF
    ensures |states| == 7 && states[0] == s && Alone(states, t, max)
    ensures states[6] == Claimed(s, t, Min(max, s.tail - (s.optimistic - s.overcommit)))
  {
    var n := Min(max, s.tail - (s.optimistic - s.overcommit));
    var load := Loaded(At(s, t, ReadOver(max, s.tail)));
    states := BeginsAlone(s, t, max);
    ReservesAlone(s, t, max, load, n);
    states := AloneGoesOn(states, t, max, At(s, t, Reserve(n, load)));
    DrawsAlone(s, t, load, n);
    states := AloneGoesOn(states, t, max, At(Drawn(s, t, n), t, Recheck(n, load, s.optimistic)));
    WinsAlone(s, t, load, n);
    states := AloneGoesOn(states, t, max, At(Decided(s, n), t, Claim(n, s.optimistic)));
    TakesAlone(s, t, n);
    states := AloneGoesOn(states, t, max, Claimed(s, t, n));
  }

  /** Without such elements it leaves after three steps and has changed nothing; also, wrongly, if there
      are 2^63 of them or more, within one turn of the counters. */
  lemma LeavesAlone(s: State, t: nat, max: nat) returns (states: seq<State>)
    requires t < |s.pcs| && s.pcs[t] == Idle && max > 0
    requires var d := s.tail - (s.optimistic - s.overcommit); -HALF <= d <= 0 || HALF <= d <= WORD
    ensures |states| == 4 && states[0] == s && Alone(states, t, max) && states[3] == s
  {
    states := BeginsAlone(s, t, max);
    NoRoom(s.tail, s.optimistic, s.overcommit);
    var s2 := states[2];
    assert s2.pcs[t := Idle] == s.pcs;
    assert Steps(s2, Action(t, Advance), s);
    states := AloneGoesOn(states, t, max, s);
  }

  ghost predicate Quiet(s: State)
  {
    forall t :: 0 <= t < |s.pcs| ==> s.pcs[t] == Idle
  }

  /** When no other dequeue is in progress, a dequeue obtains exactly the indices from the head on, as
      many as it asks for and as are published. */
  lemma QuietDequeue(states: seq<State>, acts: seq<Action>, i: nat, t: nat, max: nat) returns (after: seq<State>)
    requires Run(states, acts) && i < |states| && Quiet(states[i]) && t < |states[i].pcs| && max > 0
    requires states[i].head < states[i].tail < states[i].head + HALF
    ensures |after| == 7 && after[0] == states[i] && Alone(after, t, max)
    ensures var s, e := states[i], after[6]; var n := Min(max, s.tail - s.head);
      && Quiet(e) && e.head == s.head + n == |e.claims| && e.claims[..s.head] == s.claims
      && (forall k :: s.head <= k < s.head + n ==> e.claims[k] == t)
  {
    QuiescentCounters(states, acts, i);
    RunInv(states, acts, i);
    after := DequeueAlone(states[i], t, max);
  }

  // ---------------------------------------------------------------------------------
  // A dequeue that leaves
  // ---------------------------------------------------------------------------------

  /** Thread t begins a dequeue with action i, is in it up to state j, and leaves it with action j. */
  ghost predicate Call(states: seq<State>, acts: seq<Action>, i: nat, j: nat, t: nat)
  {
    && i < j < |acts| && |states| == |acts| + 1
    && acts[i].thread == t && acts[i].step.Begin?
    && (forall k :: i < k <= j ==> t < |states[k].pcs| && states[k].pcs[t] != Idle)
    && t < |states[j + 1].pcs| && states[j + 1].pcs[t] == Idle
  }

  /** Action r is the load of dequeueOvercommit by t. */
  ghost predicate LoadsOver(states: seq<State>, acts: seq<Action>, r: nat, t: nat)
    requires r < |states|
  {
    r < |acts| && acts[r] == Action(t, Advance) && t < |states[r].pcs| && states[r].pcs[t].ReadOver?
  }

  /** What is known of a call up to its first check: the tail is that of the beginning, the overcommit
      that of its own load. */
  ghost predicate Reads(states: seq<State>, acts: seq<Action>, i: nat, k: nat, t: nat, max: nat)
    requires i < k < |states|
  {
    && t < |states[k].pcs|
    && match states[k].pcs[t]
       case Idle => false
       case ReadOver(m, tail) => m == max && tail == states[i].tail
       case Check(m, tail, load) => m == max && tail == states[i].tail
         && exists r :: i < r < k && LoadsOver(states, acts, r, t) && states[r].overcommit == load.over
       case _ => true
  }

  lemma ReadsOn(states: seq<State>, acts: seq<Action>, i: nat, k: nat, t: nat, max: nat)
    requires i < k < |acts| < |states| && Reads(states, acts, i, k, t, max) && Steps(states[k], acts[k], states[k + 1])
    requires t < |states[k + 1].pcs| && states[k + 1].pcs[t] != Idle
    ensures Reads(states, acts, i, k + 1, t, max)
  {
    if acts[k].thread == t && acts[k].step == Advance && states[k].pcs[t].ReadOver? {
      assert LoadsOver(states, acts, k, t) && states[k + 1].pcs[t].load.over == states[k].overcommit;
    }
  }

  lemma ReadsFirst(states: seq<State>, acts: seq<Action>, i: nat, t: nat, max: nat)
    requires i < |states| - 1 && Steps(states[i], Action(t, Begin(max)), states[i + 1])
    ensures Reads(states, acts, i, i + 1, t, max)
  {
  }

  ghost predicate StepAt(states: seq<State>, acts: seq<Action>, k: nat)
    requires k < |acts| && |states| == |acts| + 1
  {
    Steps(states[k], acts[k], states[k + 1])
  }

  lemma RunSteps(states: seq<State>, acts: seq<Action>)
    requires AnyRun(states, acts)
    ensures forall k :: 0 <= k < |acts| ==> StepAt(states, acts, k)
  {
  }

  lemma {:induction false} StillReads(states: seq<State>, acts: seq<Action>, i: nat, j: nat, t: nat, k: nat)
    requires Call(states, acts, i, j, t) && i < k <= j && forall k :: 0 <= k < |acts| ==> StepAt(states, acts, k)
    ensures Reads(states, acts, i, k, t, acts[i].step.max)
    decreases k
  {
    assert StepAt(states, acts, k - 1);
    if k == i + 1 {
      ReadsFirst(states, acts, i, t, acts[i].step.max);
    } else {
      StillReads(states, acts, i, j, t, k - 1);
      ReadsOn(states, acts, i, k - 1, t, acts[i].step.max);
    }
  }

  /** In every run, under any schedule, a dequeue that leaves at its first check loaded a tail, then an
      overcommit, then an optimistic count, between the latter two of which and that tail there was no
      element, as far as 64 bits tell. */
  lemma LeavesOnlyIfNone(states: seq<State>, acts: seq<Action>, i: nat, j: nat, t: nat)
    requires AnyRun(states, acts) && Call(states, acts, i, j, t) && states[j].pcs[t].Check?
    ensures exists r :: i < r < j && LoadsOver(states, acts, r, t)
                        && var lag := states[j].optimistic - states[r].overcommit - states[i].tail;
                           Comparable(lag) ==> lag >= 0
  {
    RunSteps(states, acts);
    StillReads(states, acts, i, j, t, j);
    var max, load := acts[i].step.max, states[j].pcs[t].load;
    var r :| i < r < j && LoadsOver(states, acts, r, t) && states[r].overcommit == load.over;
    assert Steps(states[i], acts[i], states[i + 1]) && Steps(states[j], acts[j], states[j + 1]);
    if Comparable(states[j].optimistic - load.over - states[i].tail) {
      RoomIs(states[i].tail, states[j].optimistic, load.over);
    }
  }

  /** At the second look, a consumer keeps exactly the tickets of its own that stand before the tail. */
  lemma KeepsExactly(s: State, t: nat)
    requires Inv(s) && t < |s.pcs| && s.pcs[t].Recheck? && Comparable(Lag(s.pcs[t], s.tail))
    ensures PcShaped(s, s.pcs[t])
    ensures var Recheck(want, load, mine) := s.pcs[t]; var s' := Internal(s, t);
      && |s'.tickets| == |s.tickets|
      && (forall k :: 0 <= k < |s.tickets| ==>
            s'.tickets[k] == if mine <= k < mine + want && k - load.over < s.tail then Won else s.tickets[k])
      && s'.pcs[t] == if mine + want - load.over <= s.tail then Claim(want, mine)
                      else GiveBack(want, mine, if mine - load.over < s.tail then s.tail - (mine - load.over) else 0)
  {
    assert PcOk(s, t);
    var Recheck(want, load, mine) := s.pcs[t];
    RoomIs(s.tail, mine, load.over);
  }
}
