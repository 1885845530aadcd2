/** What is achieved at the block index: an insertion that the producer carries through makes the next
    block live, with other threads anywhere in their dequeues, growth always makes room for one, and no
    emptied block stays in the index.
 */
module IndexProgress {
  import opened Words
  import opened Options
  import opened BlockIndexes
  import opened IndexHeaders
  import opened IndexReaders
  import Runs

  /** The steps taken one after the other. */
  ghost predicate Path(states: seq<State>, steps: seq<Step>)
  {
    |states| == |steps| + 1 && forall i :: 0 <= i < |steps| ==> Goes(states[i], steps[i], states[i + 1])
  }

  ghost predicate Goes(s: State, step: Step, s': State)
  {
    Enabled(s, step) && s' == Next(s, step)
  }

  lemma PathOn(states: seq<State>, steps: seq<Step>, step: Step, s': State) returns (more: seq<State>)
    requires Path(states, steps) && Goes(states[|states| - 1], step, s')
    ensures more == states + [s'] && Path(more, steps + [step])
  {
    more := states + [s'];
    forall i | 0 <= i < |steps + [step]| ensures Goes(more[i], (steps + [step])[i], more[i + 1]) {
      if i < |steps| { assert Goes(states[i], steps[i], states[i + 1]); }
    }
  }

  lemma Step(s: State, step: Step) returns (s': State)
    requires Inv(s) && Enabled(s, step)
    ensures Goes(s, step, s') && Inv(s')
  {
    StepInv(s, step);
    s' := Next(s, step);
  }

  lemma SlotAfter(n: nat, m: nat)
    requires 0 < n && m == 2 * n
    ensures (n - 1 + 1) % m == n
  {
  }

  /** The slot after the tail of a header that was just doubled is unused. */
  lemma GrownIsReusable(ix: Index, values: seq<Option<nat>>)
    requires Shaped(ix) && Shaped(Grown(ix, values)) && |values| == |Current(ix).index|
    ensures Reusable(Grown(ix, values).entries[Upcoming(Grown(ix, values))])
  {
    var g, jx := Current(ix), Grown(ix, values);
    assert HeaderShaped(g, |ix.entries|);
    var big := Current(jx);
    assert big == Larger(g, |ix.entries|, ix.shape.ring.top);
    SlotAfter(|g.index|, |big.index|);
    assert big.index[|g.index|] == |ix.entries|;
    assert jx.entries[|ix.entries|] == FreshEntries(values)[0];
  }

  lemma Ready(s: State, step: Step)
    requires Inv(s)
    ensures Shaped(s.ix)
    ensures step.MoveTail? && s.producer.KeyPut? ==> Enabled(s, step)
    ensures step.PutBlock? && s.producer.TailPut? ==> Enabled(s, step)
  {
  }

  /** The stores of an insertion, once the slot after the tail can be reused. */
  lemma Stores(s: State, block: nat) returns (s1: State, s2: State, e: State)
    requires Inv(s) && Shaped(s.ix) && s.producer.Working? && Reusable(s.ix.entries[Upcoming(s.ix)])
    ensures Goes(s, PutKey, s1) && Goes(s1, MoveTail, s2) && Goes(s2, PutBlock(block), e) && Inserted(s, e, block)
  {
    s1 := Step(s, PutKey);
    Ready(s1, MoveTail);
    s2 := Step(s1, MoveTail);
    Ready(s2, PutBlock(block));
    e := Step(s2, PutBlock(block));
    Tops(s, s1, s2, e, block);
    NowLive(e, s.ix.shape.ring.top + 1, block);
  }

  lemma Inserts(states: seq<State>, steps: seq<Step>, block: nat) returns (more: seq<State>)
    requires Path(states, steps) && Inv(states[|states| - 1])
    requires var s := states[|states| - 1]; Shaped(s.ix) && s.producer.Working? && Reusable(s.ix.entries[Upcoming(s.ix)])
    ensures Path(more, steps + [PutKey, MoveTail, PutBlock(block)]) && |more| == |states| + 3 && more[0] == states[0]
    ensures Inserted(states[|states| - 1], more[|more| - 1], block)
  {
    var s1, s2, e := Stores(states[|states| - 1], block);
    more := ThreeMore(states, steps, s1, s2, e, block);
  }

  lemma ThreeMore(states: seq<State>, steps: seq<Step>, s1: State, s2: State, e: State, block: nat)
    returns (more: seq<State>)
    requires Path(states, steps)
    requires Goes(states[|states| - 1], PutKey, s1) && Goes(s1, MoveTail, s2) && Goes(s2, PutBlock(block), e)
    ensures more == states + [s1, s2, e] && Path(more, steps + [PutKey, MoveTail, PutBlock(block)])
  {
    more := PathOn(states, steps, PutKey, s1);
    more := PathOn(more, steps + [PutKey], MoveTail, s2);
    more := PathOn(more, steps + [PutKey] + [MoveTail], PutBlock(block), e);
    assert steps + [PutKey] + [MoveTail] + [PutBlock(block)] == steps + [PutKey, MoveTail, PutBlock(block)];
    assert states + [s1] + [s2] + [e] == states + [s1, s2, e];
  }

  /** The block after the top of s is the top of e and live, with its own key and this Block; no
      dequeue has moved. */
  ghost predicate Inserted(s: State, e: State, block: nat)
  {
    var m := s.ix.shape.ring.top + 1;
    && Inv(e) && e.producer.Working? && e.ix.shape.ring.top == m && e.readers == s.readers && e.published == s.published
    && m in e.ix.shape.home && e.ix.shape.home[m] < |e.ix.entries|
    && e.ix.entries[e.ix.shape.home[m]] == IndexEntry(Start(m), Some(block))
  }

  lemma Tops(s: State, s1: State, s2: State, e: State, block: nat)
    requires Goes(s, PutKey, s1) && Goes(s1, MoveTail, s2) && Goes(s2, PutBlock(block), e)
    requires s.producer.Working?
    ensures var m := s.ix.shape.ring.top + 1;
      && e.producer.Working? && e.ix.shape.ring.top == m && e.readers == s.readers && e.published == s.published
      && m in e.ix.shape.home && m in e.blocks && e.blocks[m] == block
  {
  }

  lemma NowLive(e: State, m: int, block: nat)
    requires Inv(e) && m in e.ix.shape.home && m in e.blocks && e.blocks[m] == block
    ensures e.ix.shape.home[m] < |e.ix.entries| && e.ix.entries[e.ix.shape.home[m]] == IndexEntry(Start(m), Some(block))
  {
    assert BlockSound(e.ix.entries, e.ix.shape, m);
  }

  /** From any reachable state between insertions, an insertion below the largest capacity succeeds in
      three stores, after publishing a larger header if the slot after the tail is in use. */
  lemma InsertAlone(s: State, block: nat, values: seq<Option<nat>>) returns (states: seq<State>, steps: seq<Step>)
    requires Inv(s) && Shaped(s.ix) && s.producer.Working? && |values| == |Current(s.ix).index| < MAX_CAPACITY
    ensures Path(states, steps) && states[0] == s && Inserted(s, states[|states| - 1], block)
    ensures steps == (if Reusable(s.ix.entries[Upcoming(s.ix)]) then [] else [Grow(values)])
             + [PutKey, MoveTail, PutBlock(block)]
  {
    states, steps := [s], [];
    if !Reusable(s.ix.entries[Upcoming(s.ix)]) {
      var s1 := Step(s, Grow(values));
      states := PathOn(states, [], Grow(values), s1);
      steps := [Grow(values)];
      assert [] + [Grow(values)] == steps;
      Ready(states[1], PutKey);
      GrownIsReusable(s.ix, values);
    }
    states := Inserts(states, steps, block);
    steps := steps + [PutKey, MoveTail, PutBlock(block)];
  }

  /** In every reachable state the producer can go on. */
  lemma ProducerProceeds(states: seq<State>, steps: seq<Step>, t: nat)
    requires Run(states, steps) && t < |states|
    ensures exists step :: !ByConsumer(step) && !step.Publish? && Enabled(states[t], step)
  {
    RunInv(states, steps, t);
    var s := states[t];
    var step := match s.producer
                case Working => GiveUp
                case KeyPut => MoveTail
                case TailPut => Drop
                case Dropping => ClearDropped
                case Undoing(k, n) => if k <= n then ClearNew else Undone
                case Rewinding(_, _) => RewindNew;
    assert !ByConsumer(step) && !step.Publish? && Enabled(s, step);
  }

  // ---------------------------------------------------------------------------------
  // Emptied blocks leave the index
  // ---------------------------------------------------------------------------------

  ghost predicate Clears(s: State, m: int)
  {
    exists k :: 0 <= k < |s.readers| && s.readers[k].Clearing? && s.readers[k].m == m
  }

  /** A live block with all elements counted is about to be withdrawn by some consumer. */
  ghost predicate NoneLeft(s: State)
  {
    forall m :: s.first <= m && m in s.ix.shape.home && Gone(s, m) == BLOCK_SIZE ==> Clears(s, m)
  }

  lemma ClearsKept(s: State, s': State, k: nat, m: int)
    requires k < |s.readers| && |s'.readers| == |s.readers| && Clears(s, m)
    requires forall j :: 0 <= j < |s.readers| && j != k ==> s'.readers[j] == s.readers[j]
    requires s.readers[k].Clearing? && s.readers[k].m == m ==> s'.readers[k] == s.readers[k]
    ensures Clears(s', m)
  {
    var j :| 0 <= j < |s.readers| && s.readers[j].Clearing? && s.readers[j].m == m;
    assert s'.readers[j] == s.readers[j];
  }

  lemma EmptyLeavesNone(s: State, k: nat)
    requires NoneLeft(s) && Enabled(s, Empty(k))
    ensures NoneLeft(Next(s, Empty(k)))
  {
    var s' := Next(s, Empty(k));
    forall m | s'.first <= m && m in s'.ix.shape.home && Gone(s', m) == BLOCK_SIZE ensures Clears(s', m) {
      if m == BlockOf(s.readers[k].e) {
        assert s'.readers[k].Clearing? && s'.readers[k].m == m;
      } else {
        ClearsKept(s, s', k, m);
      }
    }
  }

  lemma ClearLeavesNone(s: State, k: nat)
    requires NoneLeft(s) && Enabled(s, Clear(k))
    ensures NoneLeft(Next(s, Clear(k)))
  {
    var s' := Next(s, Clear(k));
    forall m | s'.first <= m && m in s'.ix.shape.home && Gone(s', m) == BLOCK_SIZE ensures Clears(s', m) {
      ClearsKept(s, s', k, m);
    }
  }

  lemma ReaderLeavesNone(s: State, step: Step, k: nat)
    requires NoneLeft(s) && Enabled(s, step) && ((step.Claim? && k == step.reader) || step == Load(k))
    ensures NoneLeft(Next(s, step))
  {
    var s' := Next(s, step);
    forall m | s'.first <= m && m in s'.ix.shape.home && Gone(s', m) == BLOCK_SIZE ensures Clears(s', m) {
      ClearsKept(s, s', k, m);
    }
  }

  /** Only the step that stores a block makes one live, and that has nothing counted yet. */
  lemma ProducerLeavesNone(s: State, step: Step)
    requires Inv(s) && NoneLeft(s) && Enabled(s, step) && !ByConsumer(step)
    ensures NoneLeft(Next(s, step))
  {
    var s' := Next(s, step);
    assert s'.readers == s.readers && s'.gone == s.gone && s'.first == s.first;
    forall m | s'.first <= m && m in s'.ix.shape.home && Gone(s', m) == BLOCK_SIZE ensures Clears(s', m) {
      if m !in s.ix.shape.home { NewIsUncounted(s, step, m); }
      assert Clears(s, m);
    }
  }

  lemma NewIsUncounted(s: State, step: Step, m: int)
    requires Inv(s) && Enabled(s, step) && !ByConsumer(step) && m !in s.ix.shape.home && m in Next(s, step).ix.shape.home
    ensures s.first <= m ==> Gone(s, m) == 0
  {
    assert step.PutBlock? && m == s.ix.shape.ring.top > s.published;
    if s.first <= m { assert BlockCounted(s, m); }
  }

  lemma StepLeavesNone(s: State, step: Step)
    requires Inv(s) && NoneLeft(s) && Enabled(s, step)
    ensures NoneLeft(Next(s, step))
  {
    if ByConsumer(step) { ConsumerLeavesNone(s, step); } else { ProducerLeavesNone(s, step); }
  }

  lemma ConsumerLeavesNone(s: State, step: Step)
    requires NoneLeft(s) && Enabled(s, step) && ByConsumer(step)
    ensures NoneLeft(Next(s, step))
  {
    match step
    case Empty(k) => EmptyLeavesNone(s, k);
    case Clear(k) => ClearLeavesNone(s, k);
    case Claim(k, count) => ReaderLeavesNone(s, step, k);
    case Load(k) => ReaderLeavesNone(s, step, k);
  }

  /** In every run, a block all of whose elements were obtained is out of the index once no dequeue that
      obtained some of them is under way. */
  lemma EmptiedIsWithdrawn(states: seq<State>, steps: seq<Step>, t: nat, m: int)
    requires Run(states, steps) && t < |states| && states[t].first <= m && BLOCK_SIZE * (m + 1) <= states[t].head
    requires Held(states[t].readers, m) == 0 && !Clears(states[t], m)
    ensures m !in states[t].ix.shape.home
  {
    forall i | 0 <= i < |states| - 1 && NoneLeft(states[i]) ensures NoneLeft(states[i + 1]) {
      RunInv(states, steps, i);
      assert StepAt(states, steps, i);
      StepLeavesNone(states[i], steps[i]);
    }
    assert NoneLeft(states[0]);
    Runs.Along(states, NoneLeft, t);
    RunInv(states, steps, t);
    assert BlockCounted(states[t], m);
  }

  /** What the producer publishes can be claimed: after any publication, a consumer at rest can obtain
      everything from the head to it. */
  lemma PublishedIsClaimable(states: seq<State>, steps: seq<Step>, t: nat, k: nat)
    requires Run(states, steps) && t < |steps| && steps[t].Publish? && k < |states[t + 1].readers|
             && states[t + 1].readers[k].Resting?
    ensures var s, e := states[t], states[t + 1];
      s.head < steps[t].to && Enabled(e, Claim(k, steps[t].to - s.head)) && e.published == s.ix.shape.ring.top
  {
    RunInv(states, steps, t);
    assert StepAt(states, steps, t);
  }
}
