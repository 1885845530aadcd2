/** What an acquisition from the semaphore of the blocking queue achieves: it comes back with permits
    whenever the count it saw was positive, and a wait without limit never comes back without.
 */
module SemaphoreCalls {
  import opened BlockingQueue

  /** A call by t for up to max permits that begins with action i and is over after action j. */
  ghost predicate Call(states: seq<State>, acts: seq<Action>, i: nat, j: nat, t: nat, max: nat, mode: Mode)
  {
    && i < j < |acts| && |states| == |acts| + 1
    && acts[i] == Action(t, Acquire(max, mode))
    && (forall k :: i < k <= j ==> t < |states[k].pcs| && states[k].pcs[t] != Idle)
    && t < |states[j + 1].pcs| && states[j + 1].pcs[t] == Idle
  }

  /** In a call of that mode, without a permit so far. */
  predicate Seeks(pc: Pc, mode: Mode)
  {
    match pc
    case Load(max, have, m) => have == 0 && m == mode && max > 0
    case Cas(seen, max, have, m) => have == 0 && m == mode && max > 0
    case Spin(_, m) => m == mode && mode != Try
    case SpinCas(_, _, m) => m == mode && mode != Try
    case Sleep(_, m) => m == mode && mode != Try
    case Recover(_) => mode == Timed
    case Retry(_) => mode == Timed
    case Undo(_, _) => mode == Timed
    case _ => false
  }

  /** With permits in hand. */
  predicate Got(pc: Pc)
  {
    (pc.Dequeue? && pc.need > 0) || (pc.Load? && pc.have > 0) || (pc.Cas? && pc.have > 0)
  }

  /** How a thread in a call moves: it goes on seeking, or it gets permits, or it leaves without,
      which a tryWait does only if the count is not positive, and a timed wait only from Undo. */
  predicate Moves(pc: Pc, count: int, pc': Pc, mode: Mode)
  {
    && (Seeks(pc, mode) ==> Seeks(pc', mode) || Got(pc')
                            || (pc' == Idle && ((mode == Try && count <= 0) || (mode == Timed && pc.Undo? && count < 0))))
    && (Got(pc) ==> Got(pc') || pc' == Idle)
  }

  lemma StepMoves(s: State, a: Action, s': State, t: nat, mode: Mode)
    requires Follows(s, a, s') && t < |s.pcs| && (Seeks(s.pcs[t], mode) || Got(s.pcs[t]))
    ensures |s'.pcs| == |s.pcs| && Moves(s.pcs[t], s.count, s'.pcs[t], mode)
  {
    if a.thread == t && a.step == Advance { OwnMoves(s, t, mode); }
  }

  lemma OwnMoves(s: State, t: nat, mode: Mode)
    requires Enabled(s, t, Advance) && PcShaped(s.pcs[t]) && (Seeks(s.pcs[t], mode) || Got(s.pcs[t]))
    ensures |Internal(s, t).pcs| == |s.pcs| && Moves(s.pcs[t], s.count, Internal(s, t).pcs[t], mode)
  {
    match s.pcs[t]
    case Load(max, have, m) =>
    case Cas(seen, max, have, m) =>
    case _ =>
  }

  lemma {:induction false} StillSeeks(states: seq<State>, acts: seq<Action>, i: nat, j: nat, t: nat, max: nat,
      mode: Mode, k: nat)
    requires Run(states, acts) && Call(states, acts, i, j, t, max, mode) && max > 0 && i < k <= j
    ensures Seeks(states[k].pcs[t], mode) || Got(states[k].pcs[t])
    decreases k
  {
    assert StepAt(states, acts, k - 1);
    if k > i + 1 {
      StillSeeks(states, acts, i, j, t, max, mode, k - 1);
      StepMoves(states[k - 1], acts[k - 1], states[k], t, mode);
    }
  }

  /** In every run, an acquisition of at least one comes back with permits, unless it may not wait and
      the count was not positive when it left, or it timed out and took its decrement back from a
      negative count. In particular a wait without limit always does. */
  lemma ComesBackWith(states: seq<State>, acts: seq<Action>, i: nat, j: nat, t: nat, max: nat, mode: Mode)
    requires Run(states, acts) && Call(states, acts, i, j, t, max, mode) && max > 0
    ensures || (states[j].pcs[t].Dequeue? && states[j].pcs[t].need > 0)
            || (mode == Try && states[j].count <= 0)
            || (mode == Timed && states[j].pcs[t].Undo? && states[j].count < 0)
  {
    StillSeeks(states, acts, i, j, t, max, mode, j);
    assert StepAt(states, acts, j);
    StepMoves(states[j], acts[j], states[j + 1], t, mode);
    if Got(states[j].pcs[t]) { LastTake(states[j], acts[j], states[j + 1], t); }
  }

  lemma LastTake(s: State, a: Action, s': State, t: nat)
    requires Follows(s, a, s') && t < |s.pcs| && Got(s.pcs[t]) && |s'.pcs| == |s.pcs| && s'.pcs[t] == Idle
    ensures s.pcs[t].Dequeue?
  {
    if a.thread == t && a.step == Advance {
      match s.pcs[t]
      case Load(max, have, m) =>
      case Cas(seen, max, have, m) =>
      case _ =>
    }
  }

  // ---------------------------------------------------------------------------------
  // A call that is not disturbed
  // ---------------------------------------------------------------------------------

  /** The end of a call that took n permits and their elements. */
  function Served(s: State, n: nat): State
    requires n <= s.inner
  {
    s.(count := s.count - n, acquired := s.acquired + n, inner := s.inner - n)
  }

  function At(s: State, t: nat, pc: Pc): State
    requires t < |s.pcs|
  {
    s.(pcs := s.pcs[t := pc])
  }

  /** With a positive count, a dequeue that runs alone obtains, in four steps, as many elements as it
      asks for and the count allows, whether or not it may wait. */
  lemma AcquireAlone(s: State, t: nat, max: nat, mode: Mode) returns (states: seq<State>)
    requires Inv(s) && t < |s.pcs| && s.pcs[t] == Idle && s.count > 0 && max > 0
    ensures var n := Min(max, s.count);
      && 0 < n <= s.inner && |states| == 5 && states[0] == s
      && Follows(s, Action(t, Acquire(max, mode)), states[1]) && Follows(states[1], Action(t, Advance), states[2])
      && Follows(states[2], Action(t, Advance), states[3]) && Follows(states[3], Action(t, Take(n)), states[4])
      && states[4] == Served(s, n)
  {
    var n := Min(max, s.count);
    assert n <= s.inner;
    var s3 := s.(count := s.count - n, acquired := s.acquired + n);
    states := [s, At(s, t, Load(max, 0, mode)), At(s, t, Cas(s.count, max, 0, mode)), At(s3, t, Dequeue(n)), Served(s, n)];
    Looks(s, t, max, mode);
    Swaps(s, t, max, mode, n, s3);
    Takes(s3, t, n, Served(s, n));
  }

  lemma Looks(s: State, t: nat, max: nat, mode: Mode)
    requires t < |s.pcs| && s.pcs[t] == Idle && s.count > 0
    ensures Follows(s, Action(t, Acquire(max, mode)), At(s, t, Load(max, 0, mode)))
    ensures Follows(At(s, t, Load(max, 0, mode)), Action(t, Advance), At(s, t, Cas(s.count, max, 0, mode)))
  {
  }

  lemma Swaps(s: State, t: nat, max: nat, mode: Mode, n: nat, s': State)
    requires t < |s.pcs| && s.count > 0 && max > 0 && n == Min(max, s.count)
    requires s' == s.(count := s.count - n, acquired := s.acquired + n)
    ensures Follows(At(s, t, Cas(s.count, max, 0, mode)), Action(t, Advance), At(s', t, Dequeue(n)))
  {
  }

  lemma Takes(s: State, t: nat, n: nat, s': State)
    requires t < |s.pcs| && s.pcs[t] == Idle && 0 < n <= s.inner && s' == s.(inner := s.inner - n)
    ensures Follows(At(s, t, Dequeue(n)), Action(t, Take(n)), s')
  {
    assert s.pcs[t := Dequeue(n)][t := Idle] == s.pcs;
  }

  /** So does one that is already spinning, in two steps up to its permits. */
  lemma SpinsAlone(s: State, t: nat, max: nat, mode: Mode) returns (s1: State, s2: State)
    requires t < |s.pcs| && s.pcs[t] == Spin(max, mode) && s.count > 0 && max > 0
    ensures Follows(s, Action(t, Advance), s1) && Follows(s1, Action(t, Advance), s2)
    ensures var n := Min(max, s.count); s2 == At(s.(count := s.count - n, acquired := s.acquired + n), t, Dequeue(n))
  {
    s1 := At(s, t, SpinCas(s.count, max, mode));
    var n := Min(max, s.count);
    s2 := At(s.(count := s.count - n, acquired := s.acquired + n), t, Dequeue(n));
  }

  /** A waiter that timed out and runs alone is through in two steps: with a permit if the count shows
      that a signal was meant for it and the token is there, otherwise with its decrement taken back. */
  lemma TimedOutAlone(s: State, t: nat, max: nat) returns (s1: State, s2: State)
    requires t < |s.pcs| && s.pcs[t] == Recover(max) && max > 0 && (s.count >= 0 ==> s.tokens > 0)
    ensures Follows(s, Action(t, Advance), s1) && Follows(s1, Action(t, Advance), s2)
    ensures if s.count >= 0 then s2 == At(s.(tokens := s.tokens - 1, acquired := s.acquired + 1), t, First(max))
            else s2 == At(s.(count := s.count + 1), t, Idle)
  {
    if s.count >= 0 {
      s1 := At(s, t, Retry(max));
      s2 := At(s.(tokens := s.tokens - 1, acquired := s.acquired + 1), t, First(max));
    } else {
      s1 := At(s, t, Undo(s.count, max));
      s2 := At(s.(count := s.count + 1), t, Idle);
    }
  }

  /** A waiter woken by a token that asked for more than one takes what else the count allows: running
      alone, it has its permits after three steps, or after one if it asked for one only. */
  lemma WokenAlone(s: State, t: nat, max: nat, mode: Mode) returns (states: seq<State>)
    requires t < |s.pcs| && s.pcs[t] == Sleep(max, mode) && max > 0 && s.tokens > 0 && (max > 1 ==> s.count > 0)
    ensures |states| == (if max > 1 then 4 else 2) && states[0] == s
    ensures forall i :: 0 <= i < |states| - 1 ==> Follows(states[i], Action(t, Advance), states[i + 1])
    ensures var more := if max > 1 then Min(max - 1, s.count) else 0;
      var e := s.(tokens := s.tokens - 1, count := s.count - more, acquired := s.acquired + 1 + more);
      states[|states| - 1] == At(e, t, Dequeue(1 + more))
  {
    var w := s.(tokens := s.tokens - 1, acquired := s.acquired + 1);
    if max == 1 {
      states := [s, At(w, t, Dequeue(1))];
    } else {
      var n := Min(max - 1, s.count);
      var e := w.(count := s.count - n, acquired := s.acquired + 1 + n);
      MoreAlone(w, t, max - 1, n, e);
      states := [s, At(w, t, Load(max - 1, 1, Try)), At(w, t, Cas(w.count, max - 1, 1, Try)), At(e, t, Dequeue(1 + n))];
    }
  }

  lemma MoreAlone(w: State, t: nat, max: nat, n: nat, e: State)
    requires t < |w.pcs| && max > 0 && w.count > 0 && n == Min(max, w.count)
             && e == w.(count := w.count - n, acquired := w.acquired + n)
    ensures Follows(At(w, t, Load(max, 1, Try)), Action(t, Advance), At(w, t, Cas(w.count, max, 1, Try)))
    ensures Follows(At(w, t, Cas(w.count, max, 1, Try)), Action(t, Advance), At(e, t, Dequeue(1 + n)))
  {
  }
}
