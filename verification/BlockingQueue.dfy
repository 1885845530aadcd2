/** LightweightSemaphore and the blocking queue built on it.

    Producers put elements into the inner queue and then signal; consumers obtain permits
    through tryWait, wait, the timed wait with its recovery loop, and their bulk forms, and
    then dequeue as many elements. Every access to m_count, to the kernel semaphore and to
    the inner queue is one atomic step of one thread; any interleaving is a run. The inner
    queue is a counter of elements, and the spin loops may give up after any number of turns.
 */
module BlockingQueue {
  import Runs

  /** How a consumer waits: not at all, without limit, or up to a timeout. */
  datatype Mode = Try | Block | Timed

  datatype Pc =
    | Idle
      // enqueue, enqueue_bulk: elements are in, signal(count) is still to be called
    | Added(count: nat)
      // Semaphore::signal(int): sem_post is called `left` more times
    | Posting(left: nat)
      // tryWait / tryWaitMany, `have` permits already in hand from waitMany
    | Load(max: nat, have: nat, mode: Mode)
    | Cas(seen: int, max: nat, have: nat, mode: Mode)
      // waitWithPartialSpinning / waitManyWithPartialSpinning
    | Spin(max: nat, mode: Mode)
    | SpinCas(seen: int, max: nat, mode: Mode)
    | Sleep(max: nat, mode: Mode)       // in m_sema.wait or m_sema.timed_wait
    | Recover(max: nat)                 // timed out, about to load m_count
    | Retry(max: nat)                   // saw m_count >= 0, about to m_sema.try_wait
    | Undo(seen: int, max: nat)         // saw m_count < 0, about to put the decrement back
      // while (!inner.try_dequeue(...)): `need` elements still to be dequeued
    | Dequeue(need: nat)

  datatype State = State(
    count: int,        // m_count
    tokens: nat,       // posts of the kernel semaphore not yet consumed
    inner: nat,        // elements in the inner queue
    pcs: seq<Pc>,
    initial: nat,      // the initial count
    signalled: nat,    // total of all signal(count) calls
    acquired: nat)     // total of permits granted

  datatype Step =
    | Enqueue(n: nat)            // inner.enqueue_bulk succeeded with n elements
    | Acquire(max: nat, mode: Mode)
    | Advance
    | GiveUp                     // the spin limit is reached, or a weak CAS fails spuriously
    | TimeOut
    | Take(n: nat)               // inner.try_dequeue_bulk obtained n elements

  const INT_WIDTH: nat := 0x1_0000_0000
  const INT_HALF: nat := 0x8000_0000

  /** `(int)toRelease`. */
  function ToInt(x: int): int
  {
    var r := x % INT_WIDTH;
    if r < INT_HALF then r else r - INT_WIDTH
  }

  function Min(a: int, b: int): int
  {
    if a < b then a else b
  }

  function Positive(x: int): (r: nat)
    ensures x <= 0 ==> r == 0
    ensures x > 0 ==> r == x
  {
    if x > 0 then x else 0
  }

  /** Waiting in the kernel or leaving it: the decrement of m_count is still in effect. */
  predicate Waits(pc: Pc)
  {
    pc.Sleep? || pc.Recover? || pc.Retry? || pc.Undo?
  }

  predicate Enabled(s: State, t: nat, step: Step)
  {
    && t < |s.pcs|
    && match step
       case Enqueue(n) => s.pcs[t] == Idle
       case Acquire(max, _) => s.pcs[t] == Idle
       case Advance =>
         !s.pcs[t].Idle? && !s.pcs[t].Dequeue? && (s.pcs[t].Sleep? ==> s.tokens > 0)
       case GiveUp => s.pcs[t].Spin? || s.pcs[t].Cas?
       case TimeOut => s.pcs[t].Sleep? && s.pcs[t].mode == Timed
       case Take(n) => s.pcs[t].Dequeue? && 0 < n <= s.pcs[t].need && n <= s.inner
  }

  /** tryWaitMany found nothing: waitMany goes on to spin, everything else is done. */
  function Missed(max: nat, have: nat, mode: Mode): Pc
  {
    if have > 0 then Dequeue(have)
    else if mode == Try || max == 0 then Idle
    else Spin(max, mode)
  }

  /** The first permit of waitMany is in hand: `max > 1 ? 1 + tryWaitMany(max - 1) : 1`. */
  function First(max: nat): Pc
    requires max > 0
  {
    if max > 1 then Load(max - 1, 1, Try) else Dequeue(1)
  }

  predicate PcShaped(pc: Pc)
  {
    match pc
    case Cas(seen, max, _, _) => seen > 0
    case Spin(max, mode) => max > 0
    case SpinCas(seen, max, mode) => seen > 0 && max > 0
    case Sleep(max, mode) => max > 0
    case Recover(max) => max > 0
    case Retry(max) => max > 0
    case Undo(seen, max) => max > 0 && seen < 0
    case _ => true
  }

  function Next(s: State, t: nat, step: Step): State
    requires Enabled(s, t, step) && PcShaped(s.pcs[t])
  {
    match step
    case Enqueue(n) => s.(inner := s.inner + n, pcs := s.pcs[t := Added(n)])
    case Acquire(max, mode) => s.(pcs := s.pcs[t := Load(max, 0, mode)])
    case GiveUp =>
      (match s.pcs[t]
       case Spin(max, mode) => Subtract(s, t, max, mode)
       case Cas(_, max, have, mode) => s.(pcs := s.pcs[t := Load(max, have, mode)])
       case _ => s)
    case TimeOut => s.(pcs := s.pcs[t := Recover(s.pcs[t].max)])
    case Take(n) =>
      var left := s.pcs[t].need - n;
      s.(inner := s.inner - n, pcs := s.pcs[t := if left == 0 then Idle else Dequeue(left)])
    case Advance => Internal(s, t)
  }

  /** m_count.fetch_sub(1). */
  function Subtract(s: State, t: nat, max: nat, mode: Mode): State
    requires t < |s.pcs| && max > 0
  {
    if s.count > 0 then
      s.(count := s.count - 1, acquired := s.acquired + 1, pcs := s.pcs[t := First(max)])
    else
      s.(count := s.count - 1, pcs := s.pcs[t := Sleep(max, mode)])
  }

  /** A permit arrives through the kernel semaphore. */
  function Wake(s: State, t: nat, max: nat): State
    requires t < |s.pcs| && max > 0 && s.tokens > 0
  {
    s.(tokens := s.tokens - 1, acquired := s.acquired + 1, pcs := s.pcs[t := First(max)])
  }

  function Internal(s: State, t: nat): State
    requires Enabled(s, t, Advance) && PcShaped(s.pcs[t])
  {
    match s.pcs[t]
    case Idle => s
    case Dequeue(_) => s
    case Added(n) =>
      var toRelease := Min(-s.count, n);
      s.(count := s.count + n, signalled := s.signalled + n,
         pcs := s.pcs[t := if toRelease > 0 then Posting(Positive(ToInt(toRelease))) else Idle])
    case Posting(left) =>
      if left == 0 then s.(pcs := s.pcs[t := Idle])
      else s.(tokens := s.tokens + 1, pcs := s.pcs[t := Posting(left - 1)])
    case Load(max, have, mode) =>
      s.(pcs := s.pcs[t := if s.count > 0 then Cas(s.count, max, have, mode) else Missed(max, have, mode)])
    case Cas(seen, max, have, mode) =>
      if s.count == seen then
        var newCount := if seen > max then seen - max else 0;
        var got := seen - newCount;
        s.(count := newCount, acquired := s.acquired + got,
           pcs := s.pcs[t := if have + got > 0 then Dequeue(have + got) else Missed(max, have, mode)])
      else
        s.(pcs := s.pcs[t := if s.count > 0 then Cas(s.count, max, have, mode) else Missed(max, have, mode)])
    case Spin(max, mode) =>
      s.(pcs := s.pcs[t := if s.count > 0 then SpinCas(s.count, max, mode) else Spin(max, mode)])
    case SpinCas(seen, max, mode) =>
      if s.count == seen then
        var newCount := if seen > max then seen - max else 0;
        s.(count := newCount, acquired := s.acquired + (seen - newCount),
           pcs := s.pcs[t := Dequeue(seen - newCount)])
      else
        s.(pcs := s.pcs[t := Spin(max, mode)])
    case Sleep(max, mode) => Wake(s, t, max)
    case Recover(max) =>
      s.(pcs := s.pcs[t := if s.count >= 0 then Retry(max) else Undo(s.count, max)])
    case Retry(max) =>
      if s.tokens > 0 then Wake(s, t, max) else s.(pcs := s.pcs[t := Recover(max)])
    case Undo(seen, max) =>
      if s.count == seen then s.(count := seen + 1, pcs := s.pcs[t := Idle])
      else s.(pcs := s.pcs[t := Recover(max)])
  }

  // ---------------------------------------------------------------------------------
  // Sums over threads
  // ---------------------------------------------------------------------------------

  /** Permits in hand whose elements are not dequeued yet. */
  function Holds(pc: Pc): nat
  {
    match pc
    case Load(_, have, _) => have
    case Cas(_, _, have, _) => have
    case Dequeue(need) => need
    case _ => 0
  }

  function Unsignalled(pc: Pc): nat
  {
    if pc.Added? then pc.count else 0
  }

  function Posts(pc: Pc): nat
  {
    if pc.Posting? then pc.left else 0
  }

  function Waiting(pc: Pc): nat
  {
    if Waits(pc) then 1 else 0
  }

  /** What one thread, or all threads together, have in flight. */
  datatype Flight = Flight(waiting: int, posts: int, holds: int, unsignalled: int)

  function Of(pc: Pc): Flight
  {
    Flight(Waiting(pc), Posts(pc), Holds(pc), Unsignalled(pc))
  }

  function Plus(a: Flight, b: Flight): Flight
  {
    Flight(a.waiting + b.waiting, a.posts + b.posts, a.holds + b.holds, a.unsignalled + b.unsignalled)
  }

  function Total(pcs: seq<Pc>): (r: Flight)
    ensures r.waiting >= 0 && r.posts >= 0 && r.holds >= 0 && r.unsignalled >= 0
    ensures r.waiting <= |pcs|
  {
    if pcs == [] then Flight(0, 0, 0, 0) else Plus(Of(pcs[0]), Total(pcs[1..]))
  }

  lemma {:induction false} TotalUpdate(pcs: seq<Pc>, t: nat, pc: Pc)
    requires t < |pcs|
    ensures Plus(Total(pcs[t := pc]), Of(pcs[t])) == Plus(Total(pcs), Of(pc))
  {
    if t > 0 {
      assert pcs[t := pc][1..] == pcs[1..][t - 1 := pc];
      TotalUpdate(pcs[1..], t - 1, pc);
    } else {
      assert pcs[t := pc][1..] == pcs[1..];
    }
  }

  lemma {:induction false} TotalBound(pcs: seq<Pc>, t: nat)
    requires t < |pcs|
    ensures Holds(pcs[t]) <= Total(pcs).holds && Waiting(pcs[t]) <= Total(pcs).waiting
  {
    if t > 0 { TotalBound(pcs[1..], t - 1); }
  }

  lemma {:induction false} TotalIdle(pcs: seq<Pc>)
    requires forall t :: 0 <= t < |pcs| ==> pcs[t] == Idle
    ensures Total(pcs) == Flight(0, 0, 0, 0)
  {
    if pcs != [] {
      assert pcs[0] == Idle;
      assert Of(pcs[0]) == Flight(0, 0, 0, 0);
      TotalIdle(pcs[1..]);
    }
  }

  // ---------------------------------------------------------------------------------
  // The invariant
  // ---------------------------------------------------------------------------------

  ghost predicate Balanced(s: State, all: Flight)
  {
      // every waiter is either still counted by a negative m_count, or has a post coming
    && all.waiting == Positive(-s.count) + s.tokens + all.posts
      // permits are granted, free, or reserved for a waiter
    && s.initial + s.signalled - s.acquired == Positive(s.count) + s.tokens + all.posts
      // elements are free to take, promised, or not announced yet
    && s.inner == s.initial + s.signalled - s.acquired + all.holds + all.unsignalled
  }

  ghost predicate Inv(s: State)
  {
    && |s.pcs| < INT_HALF
    && (forall t :: 0 <= t < |s.pcs| ==> PcShaped(s.pcs[t]))
    && Balanced(s, Total(s.pcs))
  }

  /** The queue is built with a semaphore count that matches its contents (0 and empty). */
  ghost predicate Init(s: State)
  {
    && |s.pcs| < INT_HALF
    && (forall t :: 0 <= t < |s.pcs| ==> s.pcs[t] == Idle)
    && s.count == s.initial == s.inner
    && s.tokens == s.signalled == s.acquired == 0
  }

  lemma InitInv(s: State)
    requires Init(s)
    ensures Inv(s)
  {
    assert Balanced(s, Flight(0, 0, 0, 0));
    TotalIdle(s.pcs);
  }

  /** What is known of thread t and of the total in flight when t takes its next step... */
  ghost predicate Before(s: State, t: nat, all: Flight)
  {
    && t < |s.pcs| < INT_HALF && PcShaped(s.pcs[t])
    && Balanced(s, all)
    && Holds(s.pcs[t]) <= all.holds && 0 <= all.posts && all.waiting <= |s.pcs|
  }

  /** ... and what the step leaves behind. */
  ghost predicate Settled(s: State, s': State, t: nat, all: Flight, all': Flight)
    requires t < |s.pcs|
  {
    && |s'.pcs| == |s.pcs| && s'.pcs == s.pcs[t := s'.pcs[t]] && PcShaped(s'.pcs[t])
    && (Plus(all', Of(s.pcs[t])) == Plus(all, Of(s'.pcs[t])) ==> Balanced(s', all'))
  }

  /** signal never asks the kernel for more posts than there are waiters, so the cast to int
      in Semaphore::signal loses nothing. */
  lemma PostsFitInt(s: State, t: nat, all: Flight, n: nat)
    requires Before(s, t, all) && Min(-s.count, n) > 0
    ensures ToInt(Min(-s.count, n)) == Min(-s.count, n)
  {
  }

  lemma SignalStep(s: State, t: nat, all: Flight, all': Flight)
    requires Before(s, t, all) && Enabled(s, t, Advance) && s.pcs[t].Added?
    ensures Settled(s, Internal(s, t), t, all, all')
  {
    if Min(-s.count, s.pcs[t].count) > 0 { PostsFitInt(s, t, all, s.pcs[t].count); }
  }

  lemma PostStep(s: State, t: nat, all: Flight, all': Flight)
    requires Before(s, t, all) && Enabled(s, t, Advance) && s.pcs[t].Posting?
    ensures Settled(s, Internal(s, t), t, all, all')
  {
  }

  lemma LoadStep(s: State, t: nat, all: Flight, all': Flight)
    requires Before(s, t, all) && Enabled(s, t, Advance) && s.pcs[t].Load?
    ensures Settled(s, Internal(s, t), t, all, all')
  {
  }

  lemma CasStep(s: State, t: nat, all: Flight, all': Flight)
    requires Before(s, t, all) && Enabled(s, t, Advance) && s.pcs[t].Cas?
    ensures Settled(s, Internal(s, t), t, all, all')
  {
    if s.count == s.pcs[t].seen { CasWins(s, t, all, all'); } else { CasFails(s, t, all, all'); }
  }

  lemma CasWins(s: State, t: nat, all: Flight, all': Flight)
    requires Before(s, t, all) && Enabled(s, t, Advance) && s.pcs[t].Cas? && s.count == s.pcs[t].seen
    ensures Settled(s, Internal(s, t), t, all, all')
  {
  }

  lemma CasFails(s: State, t: nat, all: Flight, all': Flight)
    requires Before(s, t, all) && Enabled(s, t, Advance) && s.pcs[t].Cas? && s.count != s.pcs[t].seen
    ensures Settled(s, Internal(s, t), t, all, all')
  {
  }

  lemma SpinStep(s: State, t: nat, all: Flight, all': Flight)
    requires Before(s, t, all) && Enabled(s, t, Advance) && (s.pcs[t].Spin? || s.pcs[t].SpinCas?)
    ensures Settled(s, Internal(s, t), t, all, all')
  {
  }

  lemma KernelStep(s: State, t: nat, all: Flight, all': Flight)
    requires Before(s, t, all) && Enabled(s, t, Advance) && Waits(s.pcs[t])
    ensures Settled(s, Internal(s, t), t, all, all')
  {
  }

  lemma GiveUpStep(s: State, t: nat, all: Flight, all': Flight)
    requires Before(s, t, all) && Enabled(s, t, GiveUp)
    ensures Settled(s, Next(s, t, GiveUp), t, all, all')
  {
  }

  lemma TakeStep(s: State, t: nat, n: nat, all: Flight, all': Flight)
    requires Before(s, t, all) && Enabled(s, t, Take(n))
    ensures Settled(s, Next(s, t, Take(n)), t, all, all')
  {
  }

  lemma BeginStep(s: State, t: nat, step: Step, all: Flight, all': Flight)
    requires Before(s, t, all) && Enabled(s, t, step) && (step.Enqueue? || step.Acquire? || step.TimeOut?)
    ensures Settled(s, Next(s, t, step), t, all, all')
  {
  }

  lemma AnyStep(s: State, t: nat, step: Step, all: Flight, all': Flight)
    requires Before(s, t, all) && Enabled(s, t, step)
    ensures Settled(s, Next(s, t, step), t, all, all')
  {
    if step == GiveUp { GiveUpStep(s, t, all, all'); }
    else if step.Take? { TakeStep(s, t, step.n, all, all'); }
    else if step != Advance { BeginStep(s, t, step, all, all'); }
    else if Waits(s.pcs[t]) { KernelStep(s, t, all, all'); }
    else if s.pcs[t].Spin? || s.pcs[t].SpinCas? { SpinStep(s, t, all, all'); }
    else if s.pcs[t].Load? { LoadStep(s, t, all, all'); }
    else if s.pcs[t].Cas? { CasStep(s, t, all, all'); }
    else if s.pcs[t].Posting? { PostStep(s, t, all, all'); }
    else { SignalStep(s, t, all, all'); }
  }

  lemma StepInv(s: State, t: nat, step: Step)
    requires Inv(s) && Enabled(s, t, step)
    ensures PcShaped(s.pcs[t]) && Inv(Next(s, t, step))
  {
    TotalBound(s.pcs, t);
    AnyStep(s, t, step, Total(s.pcs), Total(Next(s, t, step).pcs));
    Conclude(s, Next(s, t, step), t);
  }

  lemma Conclude(s: State, s': State, t: nat)
    requires Inv(s) && t < |s.pcs| && Settled(s, s', t, Total(s.pcs), Total(s'.pcs))
    ensures Inv(s')
  {
    TotalUpdate(s.pcs, t, s'.pcs[t]);
  }

  // ---------------------------------------------------------------------------------
  // Whole runs
  // ---------------------------------------------------------------------------------

  datatype Action = Action(thread: nat, step: Step)

  ghost predicate Follows(s: State, a: Action, s': State)
  {
    && Enabled(s, a.thread, a.step) && PcShaped(s.pcs[a.thread])
    && s' == Next(s, a.thread, a.step)
  }

  ghost predicate Run(states: seq<State>, acts: seq<Action>)
  {
    && |states| == |acts| + 1
    && Init(states[0])
    && (forall i :: 0 <= i < |acts| ==> StepAt(states, acts, i))
  }

  ghost predicate StepAt(states: seq<State>, acts: seq<Action>, i: nat)
    requires i < |acts| && |states| == |acts| + 1
  {
    Follows(states[i], acts[i], states[i + 1])
  }

  lemma StepKeeps(states: seq<State>, acts: seq<Action>, i: nat)
    requires Run(states, acts) && i < |acts| && Inv(states[i])
    ensures Inv(states[i + 1])
  {
    assert StepAt(states, acts, i);
    StepInv(states[i], acts[i].thread, acts[i].step);
  }

  lemma RunInv(states: seq<State>, acts: seq<Action>, i: nat)
    requires Run(states, acts) && i < |states|
    ensures Inv(states[i])
  {
    InitInv(states[0]);
    forall k | 0 <= k < |states| - 1 && Inv(states[k])
      ensures Inv(states[k + 1])
    {
      StepKeeps(states, acts, k);
    }
    Runs.Along(states, Inv, i);
  }

  /** Permits are conserved in every reachable state, so they are never over-granted. */
  lemma PermitsConserved(states: seq<State>, acts: seq<Action>, i: nat)
    requires Run(states, acts) && i < |states|
    ensures var s := states[i];
      && s.initial + s.signalled - s.acquired == Positive(s.count) + s.tokens + Total(s.pcs).posts
      && s.acquired <= s.initial + s.signalled
  {
    RunInv(states, acts, i);
  }

  /** A thread asleep while no token is there and no post is on its way means that no permit
      is left unclaimed; and a waiter that timed out and finds m_count >= 0 has a token or a
      post reserved for it, so its recovery loop ends. */
  lemma NoLostWakeup(states: seq<State>, acts: seq<Action>, i: nat, t: nat)
    requires Run(states, acts) && i < |states| && t < |states[i].pcs|
    requires Waits(states[i].pcs[t])
    ensures var s := states[i];
      && (s.tokens + Total(s.pcs).posts == 0 ==> s.count < 0 && s.initial + s.signalled == s.acquired)
      && (s.count >= 0 ==> s.tokens + Total(s.pcs).posts > 0)
  {
    RunInv(states, acts, i);
    TotalBound(states[i].pcs, t);
  }

  /** Every permit in a consumer's hands stands for an element of its own in the inner queue:
      the loops around try_dequeue never turn on an empty queue, however many consumers are
      in them. */
  lemma ReservedElements(states: seq<State>, acts: seq<Action>, i: nat)
    requires Run(states, acts) && i < |states|
    ensures states[i].inner >= Total(states[i].pcs).holds + Positive(states[i].count)
    ensures forall t :: 0 <= t < |states[i].pcs| ==> Holds(states[i].pcs[t]) <= states[i].inner
  {
    RunInv(states, acts, i);
    forall t | 0 <= t < |states[i].pcs| ensures Holds(states[i].pcs[t]) <= states[i].inner {
      TotalBound(states[i].pcs, t);
    }
  }

  /** When nobody is inside an operation, the count is exactly the number of elements. */
  lemma QuiescentCount(states: seq<State>, acts: seq<Action>, i: nat)
    requires Run(states, acts) && i < |states|
    requires forall t :: 0 <= t < |states[i].pcs| ==> states[i].pcs[t] == Idle
    ensures states[i].count == states[i].inner && states[i].tokens == 0
  {
    RunInv(states, acts, i);
    TotalIdle(states[i].pcs);
    assert Balanced(states[i], Flight(0, 0, 0, 0));
  }
}
