/** The four counters of one producer's sub-queue: tailIndex, headIndex,
    dequeueOptimisticCount and dequeueOvercommit, under any number of consumers running
    `dequeue` and `dequeue_bulk` at once, each shared access one atomic step.

    The counters are kept unbounded here; the code sees them modulo 2^64 and compares with
    `circular_less_than`, which is what the steps below do.
 */
module OptimisticDequeue {

  import opened Words
  import Runs

  /** `static_cast<T>(a - b) > 1 << 63`, on values below 2^64. */
  predicate CircularLess(a: nat, b: nat)
  {
    Wrap(a - b) > HALF
  }

  /** The wrapped comparison agrees with the true one on the half circle around it, and within
      one turn only there. */
  lemma CircularLessIsLess(a: int, b: int)
    ensures -HALF < a - b <= HALF ==> (CircularLess(Wrap(a), Wrap(b)) <==> a < b)
    ensures -WORD < a - b < WORD && (CircularLess(Wrap(a), Wrap(b)) <==> a < b) ==> -HALF < a - b <= HALF
  {
    WrapSub(a, b);
  }

  // ---------------------------------------------------------------------------------
  // State
  // ---------------------------------------------------------------------------------

  /** What became of one unit of dequeueOptimisticCount. */
  datatype Ticket = Open(owner: nat) | Won | Given

  /** A load of dequeueOvercommit: the value read, and, on record only, what the optimistic count
      was at that moment and how many tickets were undecided. */
  datatype Load = Load(over: nat, optimistic: nat, undecided: int)

  datatype Pc =
    | Idle
    | ReadOver(max: nat, tail: nat)                        // tail is loaded, overcommit is next
    | Check(max: nat, tail: nat, load: Load)               // dequeueOptimisticCount - overcommit < tail ?
    | Reserve(want: nat, load: Load)                       // dequeueOptimisticCount.fetch_add(want)
    | Recheck(want: nat, load: Load, mine: nat)            // reload tail, decide
    | GiveBack(want: nat, mine: nat, won: nat)             // dequeueOvercommit.fetch_add(want - won)
    | Claim(won: nat, mine: nat)                           // headIndex.fetch_add(won)

  datatype State = State(
    tail: nat,
    head: nat,
    optimistic: nat,
    overcommit: nat,
    pcs: seq<Pc>,
    tickets: seq<Ticket>,   // one per unit of `optimistic`
    claims: seq<nat>)       // claims[i] is the thread that obtained element index i

  /** One consumer step, or the producer publishing elements. */
  datatype Step = Publish(count: nat) | Begin(max: nat) | Advance

  ghost predicate Init(s: State)
  {
    && s.tail == s.head == s.optimistic == s.overcommit == 0
    && s.tickets == [] && s.claims == []
    && (forall t :: 0 <= t < |s.pcs| ==> s.pcs[t] == Idle)
  }

  predicate Enabled(s: State, t: nat, step: Step)
  {
    match step
    case Publish(_) => true
    case Begin(max) => t < |s.pcs| && s.pcs[t] == Idle && max > 0
    case Advance => t < |s.pcs| && s.pcs[t] != Idle
  }

  function Min(a: nat, b: nat): nat
  {
    if a < b then a else b
  }

  /** The elements the code believes lie between the optimistic count and the tail:
      `tail - (optimistic - overcommit)` in 64-bit arithmetic, 0 when not circularly positive. */
  function Room(tail: nat, optimistic: nat, over: nat): nat
  {
    var d := Wrap(Wrap(tail) - Wrap(Wrap(optimistic) - Wrap(over)));
    if CircularLess(0, d) then d else 0
  }

  function Mark(tickets: seq<Ticket>, from: nat, count: nat, k: Ticket): (r: seq<Ticket>)
    requires from + count <= |tickets|
    ensures |r| == |tickets|
    ensures forall i :: 0 <= i < |r| ==> r[i] == if from <= i < from + count then k else tickets[i]
  {
    tickets[..from] + seq(count, _ => k) + tickets[from + count..]
  }

  predicate PcShaped(s: State, pc: Pc)
  {
    match pc
    case Recheck(want, _, mine) => mine + want <= |s.tickets|
    case GiveBack(want, mine, won) => mine + want <= |s.tickets| && won <= want
    case _ => true
  }

  function Next(s: State, t: nat, step: Step): State
    requires Enabled(s, t, step)
    requires t < |s.pcs| ==> PcShaped(s, s.pcs[t])
  {
    match step
    case Publish(n) => s.(tail := s.tail + n)
    case Begin(max) => s.(pcs := s.pcs[t := ReadOver(max, s.tail)])
    case Advance => Internal(s, t)
  }

  /** The outcome of the second look at the tail, which grants the first `won` tickets. */
  function Decide(s: State, t: nat, won: nat): State
    requires t < |s.pcs| && s.pcs[t].Recheck? && PcShaped(s, s.pcs[t]) && won <= s.pcs[t].want
  {
    var Recheck(want, load, mine) := s.pcs[t];
    s.(tickets := Mark(s.tickets, mine, won, Won),
       pcs := s.pcs[t := if won < want then GiveBack(want, mine, won) else Claim(won, mine)])
  }

  function Internal(s: State, t: nat): State
    requires t < |s.pcs| && PcShaped(s, s.pcs[t])
  {
    match s.pcs[t]
    case Idle => s
    case ReadOver(max, tail) =>
      s.(pcs := s.pcs[t := Check(max, tail, Load(s.overcommit, s.optimistic, TotalUndecided(s.pcs)))])
    case Check(max, tail, load) =>
      var want := Min(Room(tail, s.optimistic, load.over), max);
      s.(pcs := s.pcs[t := if want == 0 then Idle else Reserve(want, load)])
    case Reserve(want, load) =>
      s.(optimistic := s.optimistic + want,
         tickets := s.tickets + seq(want, _ => Open(t)),
         pcs := s.pcs[t := Recheck(want, load, s.optimistic)])
    case Recheck(want, load, mine) =>
      Decide(s, t, Min(Room(s.tail, mine, load.over), want))
    case GiveBack(want, mine, won) =>
      s.(overcommit := s.overcommit + (want - won),
         tickets := Mark(s.tickets, mine + won, want - won, Given),
         pcs := s.pcs[t := if won > 0 then Claim(won, mine) else Idle])
    case Claim(won, mine) =>
      s.(head := s.head + won,
         claims := s.claims + seq(won, _ => t),
         pcs := s.pcs[t := Idle])
  }

  /** How far behind the tail a consumer that looks again finds itself: its position, by its own
      reckoning, minus the tail. Elements are there for it only if this is negative. */
  function Lag(pc: Pc, tail: nat): int
    requires pc.Recheck?
  {
    pc.mine - pc.load.over - tail
  }

  /** What 64-bit counters can tell: a lag reads as one only in the lower half of each turn. */
  predicate Tolerable(lag: int)
  {
    lag <= 0 || Wrap(lag) <= HALF
  }

  /** The count computed in wrapped arithmetic never exceeds the true number of published and
      unreserved elements exactly if the lag is tolerable. */
  lemma RoomExactly(tail: nat, mine: nat, over: nat)
    ensures var lag := mine - over - tail;
      Room(tail, mine, over) <= (if lag < 0 then -lag else 0) <==> Tolerable(lag)
  {
    var lag := mine - over - tail;
    WrapSub(mine, over);
    WrapSub(tail, mine - over);
    assert tail - (mine - over) == -lag;
    if lag < 0 { WrapLe(-lag); }
    WrapNegated(lag);
  }

  lemma WrapLe(x: nat)
    ensures Wrap(x) <= x
  {
  }

  lemma WrapNegated(x: int)
    ensures Wrap(-x) == if Wrap(x) == 0 then 0 else WORD - Wrap(x)
  {
    var q := x / WORD;
    assert x == WORD * q + Wrap(x);
  }

  /** The schedules that suffice: the tickets undecided when a consumer loads the overcommit, with
      those drawn until it draws its own, are at most 2^63. Nothing is said about the tail, the head
      or the length of the run. */
  predicate Timely(s: State, t: nat)
  {
    t < |s.pcs| && s.pcs[t].Recheck? ==>
      s.pcs[t].load.undecided + (s.pcs[t].mine - s.pcs[t].load.optimistic) <= HALF
  }

  // ---------------------------------------------------------------------------------
  // Counting
  // ---------------------------------------------------------------------------------

  function Count(s: seq<Ticket>, k: Ticket): (r: nat)
    ensures r <= |s|
  {
    if s == [] then 0 else Count(s[..|s| - 1], k) + (if s[|s| - 1] == k then 1 else 0)
  }

  lemma {:induction false} CountConcat(a: seq<Ticket>, b: seq<Ticket>, k: Ticket)
    ensures Count(a + b, k) == Count(a, k) + Count(b, k)
  {
    if b == [] {
      assert a + b == a;
    } else {
      assert (a + b)[..|a + b| - 1] == a + b[..|b| - 1];
      CountConcat(a, b[..|b| - 1], k);
    }
  }

  lemma {:induction false} CountSame(s: seq<Ticket>, x: Ticket, k: Ticket)
    requires forall i :: 0 <= i < |s| ==> s[i] == x
    ensures Count(s, k) == if x == k then |s| else 0
  {
    if s != [] { CountSame(s[..|s| - 1], x, k); }
  }

  lemma CountMark(s: seq<Ticket>, from: nat, n: nat, x: Ticket, y: Ticket, k: Ticket)
    requires from + n <= |s|
    requires forall i :: from <= i < from + n ==> s[i] == x
    ensures Count(Mark(s, from, n, y), k)
         == Count(s, k) - (if x == k then n else 0) + (if y == k then n else 0)
  {
    var a, b, c := s[..from], s[from..from + n], s[from + n..];
    assert s == a + b + c;
    var b' := seq(n, _ => y);
    CountConcat(a + b, c, k);
    CountConcat(a, b, k);
    CountConcat(a + b', c, k);
    CountConcat(a, b', k);
    CountSame(b, x, k);
    CountSame(b', y, k);
  }

  /** The Givens of a prefix do not become fewer when Open tickets are marked. */
  lemma {:induction false} GivensGrow(s: seq<Ticket>, s': seq<Ticket>)
    requires |s| == |s'|
    requires forall i :: 0 <= i < |s| ==> s[i] == Given ==> s'[i] == Given
    ensures Count(s, Given) <= Count(s', Given)
  {
    if s != [] { GivensGrow(s[..|s| - 1], s'[..|s| - 1]); }
  }

  lemma {:induction false} WonAndGiven(s: seq<Ticket>)
    ensures Count(s, Won) + Count(s, Given) <= |s|
  {
    if s != [] { WonAndGiven(s[..|s| - 1]); }
  }

  /** Every winning ticket k was drawn when at most tail tickets up to k had not been given back. */
  predicate Backed(tickets: seq<Ticket>, tail: nat)
  {
    forall k :: 0 <= k < |tickets| && tickets[k] == Won ==> k + 1 - Count(tickets[..k + 1], Given) <= tail
  }

  /** Hence no more tickets win than elements are published. */
  lemma {:induction false} WinsArePublished(tickets: seq<Ticket>, tail: nat)
    requires Backed(tickets, tail)
    ensures Count(tickets, Won) <= tail
  {
    if tickets != [] {
      var init := tickets[..|tickets| - 1];
      if tickets[|tickets| - 1] == Won {
        assert tickets[..|tickets| - 1 + 1] == tickets;
        WonAndGiven(tickets);
      } else {
        forall k | 0 <= k < |init| && init[k] == Won ensures k + 1 - Count(init[..k + 1], Given) <= tail {
          assert init[..k + 1] == tickets[..k + 1];
        }
        WinsArePublished(init, tail);
      }
    }
  }

  /** Elements won by a thread and not yet claimed at the head. */
  function Owed(pc: Pc): nat
  {
    match pc
    case GiveBack(_, _, won) => won
    case Claim(won, _) => won
    case _ => 0
  }

  /** Tickets a thread holds undecided. */
  function Undecided(pc: Pc): int
  {
    match pc
    case Recheck(want, _, _) => want
    case GiveBack(want, _, won) => want - won
    case _ => 0
  }

  function TotalOwed(pcs: seq<Pc>): nat
  {
    if pcs == [] then 0 else Owed(pcs[0]) + TotalOwed(pcs[1..])
  }

  function TotalUndecided(pcs: seq<Pc>): int
  {
    if pcs == [] then 0 else Undecided(pcs[0]) + TotalUndecided(pcs[1..])
  }

  lemma {:induction false} TotalsUpdate(pcs: seq<Pc>, t: nat, pc: Pc)
    requires t < |pcs|
    ensures TotalOwed(pcs[t := pc]) == TotalOwed(pcs) - Owed(pcs[t]) + Owed(pc)
    ensures TotalUndecided(pcs[t := pc]) == TotalUndecided(pcs) - Undecided(pcs[t]) + Undecided(pc)
  {
    if t > 0 {
      assert pcs[t := pc][1..] == pcs[1..][t - 1 := pc];
      TotalsUpdate(pcs[1..], t - 1, pc);
    } else {
      assert pcs[t := pc][1..] == pcs[1..];
    }
  }

  lemma {:induction false} OwedBound(pcs: seq<Pc>, t: nat)
    requires t < |pcs|
    ensures Owed(pcs[t]) <= TotalOwed(pcs)
  {
    if t > 0 { OwedBound(pcs[1..], t - 1); }
  }

  // ---------------------------------------------------------------------------------
  // The invariant
  // ---------------------------------------------------------------------------------

  ghost predicate Mine(tickets: seq<Ticket>, t: nat, from: nat, n: nat)
  {
    from + n <= |tickets| && forall i :: from <= i < from + n ==> tickets[i] == Open(t)
  }

  /** What had been decided by the time of the load was published. */
  ghost predicate LoadOk(s: State, load: Load)
  {
    load.optimistic - load.over - load.undecided <= s.tail
  }

  ghost predicate PcOk(s: State, t: nat)
    requires t < |s.pcs|
  {
    match s.pcs[t]
    case Check(_, _, load) => LoadOk(s, load) && load.over <= s.overcommit
    case Reserve(want, load) => want > 0 && LoadOk(s, load) && load.over <= s.overcommit
    case Recheck(want, load, mine) =>
      want > 0 && Mine(s.tickets, t, mine, want) && LoadOk(s, load) && load.over <= Count(s.tickets[..mine], Given)
    case GiveBack(want, mine, won) => won < want && Mine(s.tickets, t, mine + won, want - won)
    case Claim(won, _) => won > 0
    case _ => true
  }

  /** The counters count the tickets and the claims. */
  ghost predicate Counted(s: State)
  {
    && |s.tickets| == s.optimistic
    && |s.claims| == s.head
    && Count(s.tickets, Given) == s.overcommit
    && Count(s.tickets, Won) == s.head + TotalOwed(s.pcs)
    && s.optimistic == s.overcommit + s.head + TotalOwed(s.pcs) + TotalUndecided(s.pcs)
  }

  ghost predicate Inv(s: State)
  {
    && Counted(s)
    && Backed(s.tickets, s.tail)
    && (forall t :: 0 <= t < |s.pcs| ==> PcOk(s, t))
  }

  lemma InitInv(s: State)
    requires Init(s)
    ensures Inv(s)
  {
    IdleTotals(s.pcs);
  }

  lemma {:induction false} IdleTotals(pcs: seq<Pc>)
    requires forall t :: 0 <= t < |pcs| ==> pcs[t] == Idle
    ensures TotalOwed(pcs) == 0 && TotalUndecided(pcs) == 0
  {
    if pcs != [] { IdleTotals(pcs[1..]); }
  }

  // ---------------------------------------------------------------------------------
  // Every step keeps the invariant
  // ---------------------------------------------------------------------------------

  /** Tickets are only added, or decided by the thread t that holds them open. */
  ghost predicate Progress(s: State, s': State, t: nat)
  {
    && |s.tickets| <= |s'.tickets|
    && (forall i :: 0 <= i < |s.tickets| ==> s'.tickets[i] == s.tickets[i] || s.tickets[i] == Open(t))
    && s.overcommit <= s'.overcommit && s.tail <= s'.tail
  }

  lemma PrefixGivens(s: State, s': State, t: nat, n: nat)
    requires Progress(s, s', t) && n <= |s.tickets|
    ensures Count(s.tickets[..n], Given) <= Count(s'.tickets[..n], Given)
  {
    GivensGrow(s.tickets[..n], s'.tickets[..n]);
  }

  lemma OtherThread(s: State, s': State, t: nat, u: nat)
    requires Progress(s, s', t) && u < |s.pcs| && u < |s'.pcs| && u != t
    requires s'.pcs[u] == s.pcs[u] && PcOk(s, u)
    ensures PcOk(s', u)
  {
    match s.pcs[u]
    case Recheck(_, _, mine) => PrefixGivens(s, s', t, mine);
    case _ =>
  }

  /** Old winners stay backed; new ones are the tickets the step marks. */
  lemma StillBacked(s: State, s': State, t: nat, from: nat, won: nat)
    requires Progress(s, s', t) && Backed(s.tickets, s.tail)
    requires forall i :: 0 <= i < |s'.tickets| && s'.tickets[i] == Won ==>
      (i < |s.tickets| && s.tickets[i] == Won) || (from <= i < from + won)
    requires won > 0 ==> from + won <= |s.tickets|
    requires won > 0 ==> from + won - Count(s'.tickets[..from], Given) <= s'.tail
    ensures Backed(s'.tickets, s'.tail)
  {
    forall k | 0 <= k < |s'.tickets| && s'.tickets[k] == Won
      ensures k + 1 - Count(s'.tickets[..k + 1], Given) <= s'.tail
    {
      if k < |s.tickets| && s.tickets[k] == Won {
        PrefixGivens(s, s', t, k + 1);
      } else {
        assert s'.tickets[..k + 1] == s'.tickets[..from] + s'.tickets[from..k + 1];
        CountConcat(s'.tickets[..from], s'.tickets[from..k + 1], Given);
      }
    }
  }

  lemma KeepThreads(s: State, s': State, t: nat)
    requires Inv(s) && Progress(s, s', t) && t < |s.pcs|
    requires |s'.pcs| == |s.pcs| && s'.pcs == s.pcs[t := s'.pcs[t]] && PcOk(s', t)
    ensures forall u :: 0 <= u < |s'.pcs| ==> PcOk(s', u)
  {
    forall u | 0 <= u < |s'.pcs| ensures PcOk(s', u) {
      if u != t { OtherThread(s, s', t, u); }
    }
  }

  lemma KeepReserve(s: State, t: nat)
    requires Inv(s) && t < |s.pcs| && s.pcs[t].Reserve?
    ensures Inv(Internal(s, t))
  {
    var s' := Internal(s, t);
    var added := seq(s.pcs[t].want, _ => Open(t));
    TotalsUpdate(s.pcs, t, s'.pcs[t]);
    CountConcat(s.tickets, added, Given);
    CountConcat(s.tickets, added, Won);
    CountSame(added, Open(t), Given);
    CountSame(added, Open(t), Won);
    assert s'.tickets[..s.optimistic] == s.tickets;
    assert PcOk(s, t);
    StillBacked(s, s', t, 0, 0);
    KeepThreads(s, s', t);
  }

  /** A run of thread t's open tickets is decided; the counters follow. */
  lemma MarkCounted(s: State, s': State, t: nat, from: nat, n: nat, k: Ticket)
    requires Counted(s) && t < |s.pcs| && Mine(s.tickets, t, from, n) && (k == Won || k == Given)
    requires s' == s.(tickets := Mark(s.tickets, from, n, k), pcs := s'.pcs, overcommit := s'.overcommit)
    requires |s'.pcs| == |s.pcs| && s'.pcs == s.pcs[t := s'.pcs[t]]
    requires s'.overcommit == s.overcommit + (if k == Given then n else 0)
    requires Owed(s'.pcs[t]) == Owed(s.pcs[t]) + (if k == Won then n else 0)
    requires Undecided(s'.pcs[t]) == Undecided(s.pcs[t]) - n
    ensures Counted(s')
  {
    TotalsUpdate(s.pcs, t, s'.pcs[t]);
    CountMark(s.tickets, from, n, Open(t), k, Given);
    CountMark(s.tickets, from, n, Open(t), k, Won);
  }

  lemma DecideThreads(s: State, t: nat, won: nat)
    requires Inv(s) && t < |s.pcs| && s.pcs[t].Recheck? && PcShaped(s, s.pcs[t])
    requires won <= s.pcs[t].want
    ensures forall u :: 0 <= u < |s.pcs| ==> PcOk(Decide(s, t, won), u)
  {
    assert PcOk(s, t);
    KeepThreads(s, Decide(s, t, won), t);
  }

  lemma DecideBacked(s: State, t: nat, won: nat)
    requires Inv(s) && t < |s.pcs| && s.pcs[t].Recheck? && PcShaped(s, s.pcs[t])
    requires won <= s.pcs[t].want
    requires won > 0 ==> s.pcs[t].mine + won - s.pcs[t].load.over <= s.tail
    ensures Backed(Decide(s, t, won).tickets, s.tail)
  {
    assert PcOk(s, t);
    var s', mine := Decide(s, t, won), s.pcs[t].mine;
    assert s'.tickets[..mine] == s.tickets[..mine];
    StillBacked(s, s', t, mine, won);
  }

  lemma KeepDecide(s: State, t: nat, won: nat)
    requires Inv(s) && t < |s.pcs| && s.pcs[t].Recheck? && PcShaped(s, s.pcs[t])
    requires won <= s.pcs[t].want
    requires won > 0 ==> s.pcs[t].mine + won - s.pcs[t].load.over <= s.tail
    ensures Inv(Decide(s, t, won))
  {
    DecideThreads(s, t, won);
    DecideBacked(s, t, won);
    assert PcOk(s, t);
    MarkCounted(s, Decide(s, t, won), t, s.pcs[t].mine, won, Won);
  }

  lemma KeepRecheck(s: State, t: nat)
    requires Inv(s) && t < |s.pcs| && s.pcs[t].Recheck? && PcShaped(s, s.pcs[t]) && Tolerable(Lag(s.pcs[t], s.tail))
    ensures Inv(Internal(s, t))
  {
    var Recheck(want, load, mine) := s.pcs[t];
    RoomExactly(s.tail, mine, load.over);
    KeepDecide(s, t, Min(Room(s.tail, mine, load.over), want));
  }

  lemma GiveBackThreads(s: State, t: nat)
    requires Inv(s) && t < |s.pcs| && s.pcs[t].GiveBack? && PcShaped(s, s.pcs[t])
    ensures var s' := Internal(s, t);
      && Backed(s'.tickets, s'.tail)
      && forall u :: 0 <= u < |s'.pcs| ==> PcOk(s', u)
  {
    assert PcOk(s, t);
    StillBacked(s, Internal(s, t), t, 0, 0);
    KeepThreads(s, Internal(s, t), t);
  }

  lemma KeepGiveBack(s: State, t: nat)
    requires Inv(s) && t < |s.pcs| && s.pcs[t].GiveBack? && PcShaped(s, s.pcs[t])
    ensures Inv(Internal(s, t))
  {
    GiveBackThreads(s, t);
    assert PcOk(s, t);
    var GiveBack(want, mine, won) := s.pcs[t];
    MarkCounted(s, Internal(s, t), t, mine + won, want - won, Given);
  }

  /** At the load of the overcommit: winners are published. */
  lemma KeepLoad(s: State, t: nat)
    requires Inv(s) && t < |s.pcs| && s.pcs[t].ReadOver?
    ensures Inv(Internal(s, t))
  {
    var s' := Internal(s, t);
    TotalsUpdate(s.pcs, t, s'.pcs[t]);
    WinsArePublished(s.tickets, s.tail);
    KeepThreads(s, s', t);
  }

  lemma KeepOther(s: State, t: nat)
    requires Inv(s) && t < |s.pcs| && (s.pcs[t].Check? || s.pcs[t].Claim?)
    ensures Inv(Internal(s, t))
  {
    assert PcOk(s, t);
    var s' := Internal(s, t);
    TotalsUpdate(s.pcs, t, s'.pcs[t]);
    KeepThreads(s, s', t);
  }

  lemma KeepBegin(s: State, t: nat, max: nat)
    requires Inv(s) && Enabled(s, t, Begin(max))
    ensures Inv(Next(s, t, Begin(max)))
  {
    var s' := Next(s, t, Begin(max));
    TotalsUpdate(s.pcs, t, s'.pcs[t]);
    KeepThreads(s, s', t);
  }

  lemma KeepPublish(s: State, t: nat, n: nat)
    requires Inv(s) && (t < |s.pcs| ==> PcShaped(s, s.pcs[t]))
    ensures Inv(Next(s, t, Publish(n)))
  {
    var s' := Next(s, t, Publish(n));
    StillBacked(s, s', t, 0, 0);
    forall u | 0 <= u < |s'.pcs| ensures PcOk(s', u) { assert PcOk(s, u); }
  }

  lemma Shapes(s: State, t: nat)
    requires Inv(s) && t < |s.pcs|
    ensures PcShaped(s, s.pcs[t])
  {
    assert PcOk(s, t);
  }

  /** The thread takes its second look at the tail, and its lag satisfies ok. */
  predicate LooksWith(ok: int -> bool, s: State, t: nat, step: Step)
  {
    step == Advance && t < |s.pcs| && s.pcs[t].Recheck? ==> ok(Lag(s.pcs[t], s.tail))
  }

  lemma StepInv(s: State, t: nat, step: Step)
    requires Inv(s) && Enabled(s, t, step) && LooksWith(Tolerable, s, t, step)
    ensures t < |s.pcs| ==> PcShaped(s, s.pcs[t])
    ensures Inv(Next(s, t, step))
  {
    if t < |s.pcs| { Shapes(s, t); }
    match step
    case Publish(n) => KeepPublish(s, t, n);
    case Begin(max) => KeepBegin(s, t, max);
    case Advance =>
      match s.pcs[t]
      case Reserve(_, _) => KeepReserve(s, t);
      case Recheck(_, _, _) => KeepRecheck(s, t);
      case GiveBack(_, _, _) => KeepGiveBack(s, t);
      case ReadOver(_, _) => KeepLoad(s, t);
      case _ => KeepOther(s, t);
  }

  // ---------------------------------------------------------------------------------
  // Whole runs
  // ---------------------------------------------------------------------------------

  datatype Action = Action(thread: nat, step: Step)

  ghost predicate Steps(s: State, a: Action, s': State)
  {
    && Enabled(s, a.thread, a.step)
    && (a.thread < |s.pcs| ==> PcShaped(s, s.pcs[a.thread]))
    && s' == Next(s, a.thread, a.step)
  }

  /** A run under any schedule. */
  ghost predicate AnyRun(states: seq<State>, acts: seq<Action>)
  {
    && |states| == |acts| + 1
    && Init(states[0])
    && (forall i :: 0 <= i < |acts| ==> Steps(states[i], acts[i], states[i + 1]))
  }

  /** A run in which every second look at the tail happens with a lag that satisfies ok. */
  ghost predicate RunWith(ok: int -> bool, states: seq<State>, acts: seq<Action>)
  {
    AnyRun(states, acts) && forall i :: 0 <= i < |acts| ==> LooksWith(ok, states[i], acts[i].thread, acts[i].step)
  }

  /** A run in which no consumer lags so far that 64 bits cannot tell. */
  ghost predicate Run(states: seq<State>, acts: seq<Action>)
  {
    RunWith(Tolerable, states, acts)
  }

  lemma RunInv(states: seq<State>, acts: seq<Action>, i: nat)
    requires Run(states, acts) && i < |states|
    ensures Inv(states[i])
  {
    InitInv(states[0]);
    forall k | 0 <= k < |states| - 1 && Inv(states[k]) ensures Inv(states[k + 1]) {
      assert Steps(states[k], acts[k], states[k + 1]) && LooksWith(Tolerable, states[k], acts[k].thread, acts[k].step);
      StepInv(states[k], acts[k].thread, acts[k].step);
    }
    Runs.Along(states, Inv, i);
  }

  lemma TimelyStep(s: State, t: nat, step: Step)
    requires Inv(s) && Enabled(s, t, step) && Timely(s, t)
    ensures LooksWith(Tolerable, s, t, step)
  {
    if t < |s.pcs| && s.pcs[t].Recheck? {
      assert PcOk(s, t);
    }
  }

  ghost predicate TimelyRun(states: seq<State>, acts: seq<Action>)
  {
    AnyRun(states, acts) && forall i :: 0 <= i < |acts| ==> Timely(states[i], acts[i].thread)
  }

  /** Timely schedules keep every lag tolerable. */
  lemma TimelyIsTolerable(states: seq<State>, acts: seq<Action>)
    requires TimelyRun(states, acts)
    ensures Run(states, acts)
  {
    InitInv(states[0]);
    forall k | 0 <= k < |states| - 1 && Inv(states[k]) ensures Inv(states[k + 1]) {
      TimelyAt(states, acts, k);
    }
    forall i | 0 <= i < |acts|
      ensures LooksWith(Tolerable, states[i], acts[i].thread, acts[i].step)
    {
      Runs.Along(states, Inv, i);
      TimelyAt(states, acts, i);
    }
  }

  lemma TimelyAt(states: seq<State>, acts: seq<Action>, k: nat)
    requires TimelyRun(states, acts) && k < |acts| && Inv(states[k])
    ensures LooksWith(Tolerable, states[k], acts[k].thread, acts[k].step) && Inv(states[k + 1])
  {
    assert Steps(states[k], acts[k], states[k + 1]) && Timely(states[k], acts[k].thread);
    TimelyStep(states[k], acts[k].thread, acts[k].step);
    StepInv(states[k], acts[k].thread, acts[k].step);
  }

  /** In every reachable state the head has not passed the tail, even counting the elements
      already promised to consumers, and the overcommit never exceeds what a consumer drew. */
  lemma HeadNeverPassesTail(states: seq<State>, acts: seq<Action>, i: nat)
    requires Run(states, acts) && i < |states|
    ensures states[i].head + TotalOwed(states[i].pcs) <= states[i].tail
    ensures forall t :: 0 <= t < |states[i].pcs| && states[i].pcs[t].Recheck? ==>
      states[i].pcs[t].load.over <= states[i].pcs[t].mine
  {
    RunInv(states, acts, i);
    WinsArePublished(states[i].tickets, states[i].tail);
    forall t | 0 <= t < |states[i].pcs| && states[i].pcs[t].Recheck?
      ensures states[i].pcs[t].load.over <= states[i].pcs[t].mine
    {
      assert PcOk(states[i], t);
    }
  }

  /** Every index a consumer obtains is already published, was nobody's before, and stays
      that consumer's in every later state. */
  lemma ClaimedOnceAndPublished(states: seq<State>, acts: seq<Action>, i: nat)
    requires Run(states, acts) && i < |acts|
    requires acts[i].step == Advance && acts[i].thread < |states[i].pcs|
    requires states[i].pcs[acts[i].thread].Claim?
    ensures var s, s' := states[i], states[i + 1];
      && s'.head == s.head + s.pcs[acts[i].thread].won <= s.tail
      && |s.claims| == s.head
      && s.claims <= s'.claims
      && (forall k :: s.head <= k < s'.head ==> k < |s'.claims| && s'.claims[k] == acts[i].thread)
  {
    RunInv(states, acts, i);
    WinsArePublished(states[i].tickets, states[i].tail);
    OwedBound(states[i].pcs, acts[i].thread);
    assert Steps(states[i], acts[i], states[i + 1]);
  }

  lemma ClaimsPersist(states: seq<State>, acts: seq<Action>, i: nat, j: nat)
    requires AnyRun(states, acts) && i <= j < |states|
    ensures states[i].claims <= states[j].claims
  {
    var later, kept := states[i..], (s: State) => states[i].claims <= s.claims;
    forall k | 0 <= k < |later| - 1 && kept(later[k]) ensures kept(later[k + 1]) {
      assert Steps(states[i + k], acts[i + k], states[i + k + 1]);
    }
    Runs.Along(later, kept, j - i);
  }

  /** When no dequeue is in progress the two dequeue counters differ by exactly the head. */
  lemma QuiescentCounters(states: seq<State>, acts: seq<Action>, i: nat)
    requires Run(states, acts) && i < |states|
    requires forall t :: 0 <= t < |states[i].pcs| ==> states[i].pcs[t] == Idle
    ensures states[i].optimistic - states[i].overcommit == states[i].head <= states[i].tail
  {
    RunInv(states, acts, i);
    IdleTotals(states[i].pcs);
    WinsArePublished(states[i].tickets, states[i].tail);
  }
}
