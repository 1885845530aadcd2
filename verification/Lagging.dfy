/** What a consumer of a sub-queue does when it lags further behind than 64 bits can tell: plain
    dequeues of one element each, all past the first check before any of them draws.
 */
module Lagging {
  import opened Words
  import opened OptimisticDequeue

  ghost predicate Reachable(ok: int -> bool, s: State)
  {
    exists states, acts :: RunWith(ok, states, acts) && states[|acts|] == s
  }

  lemma Go(ok: int -> bool, s: State, t: nat, step: Step)
    requires Reachable(ok, s) && Enabled(s, t, step) && (t < |s.pcs| ==> PcShaped(s, s.pcs[t])) && LooksWith(ok, s, t, step)
    ensures Reachable(ok, Next(s, t, step))
  {
    var states, acts :| RunWith(ok, states, acts) && states[|acts|] == s;
    var s' := Next(s, t, step);
    var states', acts' := states + [s'], acts + [Action(t, step)];
    assert RunWith(ok, states', acts') && states'[|acts'|] == s';
  }

  /** One element is published; the first n threads have passed the first check for it. */
  ghost predicate Arrived(s: State, n: nat)
  {
    && s == State(1, 0, 0, 0, s.pcs, [], []) && n <= |s.pcs|
    && (forall t :: 0 <= t < n ==> s.pcs[t].Reserve? && s.pcs[t].want == 1 && s.pcs[t].load.over == 0)
    && (forall t :: n <= t < |s.pcs| ==> s.pcs[t] == Idle)
  }

  lemma Arrive(ok: int -> bool, s: State, n: nat) returns (s': State)
    requires Reachable(ok, s) && Arrived(s, n) && n < |s.pcs|
    ensures Reachable(ok, s') && Arrived(s', n + 1) && |s'.pcs| == |s.pcs|
  {
    var s1 := Next(s, n, Begin(1));
    Go(ok, s, n, Begin(1));
    var s2 := Next(s1, n, Advance);
    Go(ok, s1, n, Advance);
    s' := Next(s2, n, Advance);
    Go(ok, s2, n, Advance);
  }

  lemma {:induction false} AllArrive(ok: int -> bool, threads: nat, n: nat) returns (s: State)
    requires 0 < threads && n <= threads
    ensures Reachable(ok, s) && Arrived(s, n) && |s.pcs| == threads
  {
    if n == 0 {
      var start := State(0, 0, 0, 0, seq(threads, _ => Idle), [], []);
      var acts: seq<Action> := [];
      assert RunWith(ok, [start], acts) && [start][|acts|] == start;
      s := Next(start, 0, Publish(1));
      Go(ok, start, 0, Publish(1));
    } else {
      s := AllArrive(ok, threads, n - 1);
      s := Arrive(ok, s, n - 1);
    }
  }

  /** The first n threads have drawn their tickets, in order. */
  ghost predicate Drawn(s: State, n: nat)
  {
    && s.tail == 1 && s.head == s.overcommit == 0 && s.claims == [] && s.optimistic == |s.tickets| == n <= |s.pcs|
    && (forall t :: 0 <= t < n ==> s.pcs[t].Recheck? && s.pcs[t].want == 1 && s.pcs[t].load.over == 0 && s.pcs[t].mine == t)
    && (forall t :: n <= t < |s.pcs| ==> s.pcs[t].Reserve? && s.pcs[t].want == 1 && s.pcs[t].load.over == 0)
  }

  lemma {:induction false} AllDraw(ok: int -> bool, threads: nat, n: nat) returns (s: State)
    requires 0 < threads && n <= threads
    ensures Reachable(ok, s) && Drawn(s, n) && |s.pcs| == threads
  {
    if n == 0 {
      s := AllArrive(ok, threads, threads);
    } else {
      var s0 := AllDraw(ok, threads, n - 1);
      s := Next(s0, n - 1, Advance);
      Go(ok, s0, n - 1, Advance);
    }
  }

  /** A thread that sees room for its one ticket takes an element. */
  lemma Take(ok: int -> bool, s: State, t: nat) returns (s': State)
    requires Reachable(ok, s) && t < |s.pcs| && s.pcs[t].Recheck? && PcShaped(s, s.pcs[t]) && s.pcs[t].want == 1
    requires ok(Lag(s.pcs[t], s.tail)) && Room(s.tail, s.pcs[t].mine, s.pcs[t].load.over) > 0
    ensures Reachable(ok, s') && s'.pcs == s.pcs[t := Idle] && s'.tail == s.tail && |s'.tickets| == |s.tickets|
    ensures s'.head == s.head + 1 && s'.claims == s.claims + [t]
  {
    var s1 := Next(s, t, Advance);
    Go(ok, s, t, Advance);
    s' := Next(s1, t, Advance);
    Go(ok, s1, t, Advance);
    assert seq(1, _ => t) == [t];
  }

  lemma RoomBeyond(lag: int)
    requires !Tolerable(lag)
    ensures Room(1, lag + 1, 0) > 0
  {
    RoomExactly(1, lag + 1, 0);
  }

  /** For every lag that is not tolerable there is a run of plain dequeues in which a consumer looks
      again with exactly that lag, and otherwise only elements that are there are taken: the one
      published element goes to thread 0, and that consumer then claims one that was never published. */
  lemma LaggardClaimsUnpublished(ok: int -> bool, lag: int) returns (s: State)
    requires !Tolerable(lag) && ok(lag) && ok(-1)
    ensures Reachable(ok, s) && s.tail == 1 && s.head == 2 && s.claims == [0, lag + 1]
  {
    s := AllDraw(ok, lag + 2, lag + 2);
    assert Room(1, 0, 0) == 1;
    s := Take(ok, s, 0);
    RoomBeyond(lag);
    s := Take(ok, s, lag + 1);
  }

  /** Whatever the schedule, as long as lags satisfy ok, the head stays behind the tail. */
  ghost predicate Safe(ok: int -> bool)
  {
    forall states: seq<State>, acts: seq<Action>, i: nat :: RunWith(ok, states, acts) && i < |states| ==> states[i].head <= states[i].tail
  }

  lemma Unsafe(ok: int -> bool, lag: int)
    requires !Tolerable(lag) && ok(lag) && ok(-1)
    ensures !Safe(ok)
  {
    var s := LaggardClaimsUnpublished(ok, lag);
    var states: seq<State>, acts: seq<Action> :| RunWith(ok, states, acts) && states[|acts|] == s;
    assert states[|acts|].head > states[|acts|].tail;
  }

  lemma TolerableIsSafe(ok: int -> bool, states: seq<State>, acts: seq<Action>, i: nat)
    requires (forall lag :: ok(lag) ==> Tolerable(lag)) && RunWith(ok, states, acts) && i < |states|
    ensures states[i].head <= states[i].tail
  {
    assert Run(states, acts) by {
      assert forall k :: 0 <= k < |acts| ==> LooksWith(ok, states[k], acts[k].thread, acts[k].step);
    }
    HeadNeverPassesTail(states, acts, i);
  }

  /** The exact condition: of all conditions on the lag that admit a consumer for which elements are
      there, those keep the head behind the tail in every run that imply Tolerable, and no others. */
  lemma LagExactly(ok: int -> bool)
    requires forall lag :: lag < 0 ==> ok(lag)
    ensures Safe(ok) <==> forall lag :: ok(lag) ==> Tolerable(lag)
  {
    if Safe(ok) {
      forall lag | ok(lag)
        ensures Tolerable(lag)
      {
        if !Tolerable(lag) { Unsafe(ok, lag); }
      }
    }
    if forall lag :: ok(lag) ==> Tolerable(lag) {
      forall states: seq<State>, acts: seq<Action>, i: nat | RunWith(ok, states, acts) && i < |states|
        ensures states[i].head <= states[i].tail
      {
        TolerableIsSafe(ok, states, acts, i);
      }
    }
  }
}
