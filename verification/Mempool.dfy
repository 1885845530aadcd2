/** The transaction pools of the nodes of a shard along a run of the consensus protocol, and the
    conditions under which its handlers propose, approve and finalise.
 */
module Mempool {
  import opened Summaries
  import Ledger
  import opened Assembly
  import opened Consensus

  /** Step t tells node i of the transaction. */
  ghost predicate Tells(acts: seq<Act>, t: nat, i: NodeId, tx: Ledger.Tx)
    requires t < |acts|
  {
    acts[t].node == i && acts[t].step.OnTransactions? && tx in acts[t].step.txs
  }

  /** At step t node i finalises a block that holds the transaction. */
  ghost predicate Finalises(states: seq<State>, acts: seq<Act>, t: nat, i: NodeId, tx: Ledger.Tx)
    requires t < |acts| && |states| == |acts| + 1
  {
    var n := |states[t].finals|;
    acts[t].node == i && |states[t + 1].finals| > n && tx in states[t + 1].finals[n].block.payload.txs
  }

  lemma CreateKeepsPool(s: State, i: NodeId, payload: Payload)
    requires WellFormed(s) && i < |s.nodes|
    ensures var s' := CreateNextProposal(s, i, payload);
      |s'.nodes| == |s.nodes| && s'.finals == s.finals && forall j :: 0 <= j < |s.nodes| ==>
          s'.nodes[j].pool == s.nodes[j].pool
  {
  }

  /** What one step does to the pools: an announcement adds its transactions at the node it reaches,
      finalising a block takes its transactions away from the node that finalises it, and nothing
      else changes any pool; a final block received from another node does not. */
  lemma PoolStep(s: State, i: NodeId, step: Step, j: NodeId)
    requires Enabled(s, i, step) && j < |s.nodes|
    ensures var s' := Next(s, i, step); var n := |s.finals|;
      && |s'.nodes| == |s.nodes| && n <= |s'.finals| <= n + 1
      && (|s'.finals| > n ==> s'.finals[n].sender == i && step.OnValid?)
      && s'.nodes[j].pool ==
           if j != i then s.nodes[j].pool
           else if step.OnTransactions? then s.nodes[i].pool + step.txs
           else if |s'.finals| > n then s.nodes[i].pool - (set tx | tx in s'.finals[n].block.payload.txs)
           else s.nodes[i].pool
  {
    match step
    case OnTransactions(txs, payload) =>
      CreateKeepsPool(s.(nodes := s.nodes[i := s.nodes[i].(pool := s.nodes[i].pool + txs)]), i, payload);
    case OnFinal(k, stillValid, payload) => FinalKeepsPool(s, i, k, stillValid, payload, j);
    case OnProposal(p) =>
    case OnValid(prev, vals, time) => ValidTakes(s, i, prev, vals, time, j);
  }

  lemma ValidTakes(s: State, i: NodeId, prev: Hash, vals: map<Address, Sig>, time: nat, j: NodeId)
    requires WellFormed(s) && i < |s.nodes| && j < |s.nodes|
    ensures var s' := HandleValidationBlock(s, i, prev, vals, time); var n := |s.finals|;
      && |s'.nodes| == |s.nodes| && n <= |s'.finals| <= n + 1
      && (|s'.finals| > n ==> s'.finals[n].sender == i)
      && s'.nodes[j].pool == if j == i && |s'.finals| > n
                             then s.nodes[i].pool - (set tx | tx in s'.finals[n].block.payload.txs) else s.nodes[j].pool
  {
    var node := s.nodes[i];
    var merged := vals + node.pending.vals;
    if !(node.pending.empty || |vals| < 2 || prev != node.pending.prev) && |merged| > |s.nodes| / 2 {
      var s' := HandleValidationBlock(s, i, prev, vals, time);
      assert s'.finals[|s.finals|].block.payload == node.pending.payload;
    }
  }

  lemma FinalKeepsPool(s: State, i: NodeId, k: nat, stillValid: bool, payload: Payload, j: NodeId)
    requires WellFormed(s) && i < |s.nodes| && k < |s.finals| && j < |s.nodes|
    ensures var s' := HandleFinalBlock(s, i, k, stillValid, payload);
      |s'.nodes| == |s.nodes| && s'.finals == s.finals && s'.nodes[j].pool == s.nodes[j].pool
  {
  }

  /** A step that finalises a block leaves none of its transactions in the pool of the node that
      finalised it, and every other transaction where it was. */
  lemma FinalisedAreRemoved(states: seq<State>, acts: seq<Act>, t: nat)
    requires Run(states, acts) && t < |acts| && |states[t + 1].finals| > |states[t].finals|
    ensures var i, block := acts[t].node, states[t + 1].finals[|states[t].finals|].block;
      && i < |states[t].nodes| == |states[t + 1].nodes|
      && (forall tx :: tx in states[t + 1].nodes[i].pool <==> tx in states[t].nodes[i].pool && tx !in block.payload.txs)
      && (forall j :: 0 <= j < |states[t].nodes| && j != i ==> states[t + 1].nodes[j].pool == states[t].nodes[j].pool)
  {
    assert StepAt(states, acts, t);
    forall j | 0 <= j < |states[t].nodes|
      ensures j != acts[t].node ==> states[t + 1].nodes[j].pool == states[t].nodes[j].pool
    {
      PoolStep(states[t], acts[t].node, acts[t].step, j);
    }
    PoolStep(states[t], acts[t].node, acts[t].step, acts[t].node);
  }

  /** The transaction was announced to node i before u, and i has not finalised it since. */
  ghost predicate Waits(states: seq<State>, acts: seq<Act>, u: nat, i: NodeId, tx: Ledger.Tx)
    requires u <= |acts| && |states| == |acts| + 1
  {
    exists t :: 0 <= t < u && Tells(acts, t, i, tx) && forall w :: t < w < u ==> !Finalises(states, acts, w, i, tx)
  }

  lemma WaitsNext(states: seq<State>, acts: seq<Act>, u: nat, i: NodeId, tx: Ledger.Tx)
    requires u < |acts| && |states| == |acts| + 1
    ensures Waits(states, acts, u + 1, i, tx)
       <==> Tells(acts, u, i, tx) || (Waits(states, acts, u, i, tx) && !Finalises(states, acts, u, i, tx))
  {
    if Waits(states, acts, u, i, tx) && !Finalises(states, acts, u, i, tx) {
      var t :| 0 <= t < u && Tells(acts, t, i, tx) && forall w :: t < w < u ==> !Finalises(states, acts, w, i, tx);
      assert forall w :: t < w < u + 1 ==> !Finalises(states, acts, w, i, tx);
    }
  }

  /** In every run, the pool of a node holds exactly the transactions announced to it that it has not
      finalised since. */
  lemma {:induction false} PoolExactly(states: seq<State>, acts: seq<Act>, u: nat, i: NodeId, tx: Ledger.Tx)
    requires Run(states, acts) && u < |states| && i < |states[u].nodes|
    ensures tx in states[u].nodes[i].pool <==> Waits(states, acts, u, i, tx)
    decreases u
  {
    if u > 0 {
      var t := u - 1;
      assert StepAt(states, acts, t);
      PoolStep(states[t], acts[t].node, acts[t].step, i);
      PoolExactly(states, acts, t, i, tx);
      WaitsNext(states, acts, t, i, tx);
    }
  }

  /** A transaction of a block that node i finalised is in its pool again only if it was announced to
      it again. */
  lemma BackOnlyIfAnnounced(states: seq<State>, acts: seq<Act>, t: nat, u: nat, i: NodeId, tx: Ledger.Tx)
    requires Run(states, acts) && t < u < |states| && i < |states[u].nodes|
    requires Finalises(states, acts, t, i, tx) && tx in states[u].nodes[i].pool
    ensures exists v :: t < v < u && Tells(acts, v, i, tx)
  {
    PoolExactly(states, acts, u, i, tx);
    var v :| 0 <= v < u && Tells(acts, v, i, tx) && forall w :: v < w < u ==> !Finalises(states, acts, w, i, tx);
    NotBoth(states, acts, t, i, tx);
  }

  /** A step that finalises a block brings no transactions. */
  lemma NotBoth(states: seq<State>, acts: seq<Act>, t: nat, i: NodeId, tx: Ledger.Tx)
    requires Run(states, acts) && t < |acts| && Finalises(states, acts, t, i, tx)
    ensures !Tells(acts, t, i, tx)
  {
    assert StepAt(states, acts, t);
    PoolStep(states[t], acts[t].node, acts[t].step, i);
  }

  // ---------------------------------------------------------------------------------
  // When a handler acts
  // ---------------------------------------------------------------------------------

  /** In every run, a node without a pending proposal gets one exactly by a step that brings it
      transactions or a final block after which its pool is not empty and the next height is its own;
      it is then the proposal of the payload collected, on top of its chain, and it is sent. */
  lemma ProposesExactly(states: seq<State>, acts: seq<Act>, t: nat)
    requires Run(states, acts) && t < |acts| && acts[t].node < |states[t].nodes|
             && states[t].nodes[acts[t].node].pending.empty
    ensures var i, s' := acts[t].node, states[t + 1];
      && i < |s'.nodes| == |s'.addrs|
      && (!s'.nodes[i].pending.empty <==> (acts[t].step.OnTransactions? || acts[t].step.OnFinal?) && s'.nodes[i].pool != {}
                                          && |s'.nodes[i].chain| % |s'.nodes| == i)
      && (!s'.nodes[i].pending.empty ==>
            && s'.nodes[i].pending == MakeProposal(s'.addrs[i], Top(s'.nodes[i].chain), acts[t].step.payload)
            && Propose(s'.nodes[i].pending) in s'.soup)
  {
    assert StepAt(states, acts, t);
    var s, i := states[t], acts[t].node;
    match acts[t].step
    case OnTransactions(txs, payload) => AnnounceProposes(s, i, txs, payload);
    case OnFinal(k, stillValid, payload) => FinalProposes(s, i, k, stillValid, payload);
    case OnProposal(p) =>
    case OnValid(prev, vals, time) =>
  }

  ghost predicate ProposedWhen(s: State, i: NodeId, payload: Payload)
    requires i < |s.nodes| && |s.addrs| == |s.nodes|
  {
    var node := s.nodes[i];
    && (!node.pending.empty <==> node.pool != {} && |node.chain| % |s.nodes| == i)
    && (!node.pending.empty ==>
          && node.pending == MakeProposal(s.addrs[i], Top(node.chain), payload)
          && Propose(node.pending) in s.soup)
  }

  lemma AnnounceProposes(s: State, i: NodeId, txs: set<Ledger.Tx>, payload: Payload)
    requires WellFormed(s) && i < |s.nodes| && s.nodes[i].pending.empty
    ensures var s' := Announce(s, i, txs, payload); |s'.nodes| == |s.nodes| == |s'.addrs| && ProposedWhen(s', i, payload)
  {
    assert i % |s.nodes| == i;
  }

  lemma FinalProposes(s: State, i: NodeId, k: nat, stillValid: bool, payload: Payload)
    requires WellFormed(s) && i < |s.nodes| && k < |s.finals| && s.nodes[i].pending.empty
    ensures var s' := HandleFinalBlock(s, i, k, stillValid, payload);
      |s'.nodes| == |s.nodes| == |s'.addrs| && ProposedWhen(s', i, payload)
  {
    assert i % |s.nodes| == i;
  }

  /** In every run, a step finalises a block exactly if it brings a node with a pending proposal at
      least two validations for its previous hash that, with those it has, exceed half of the nodes;
      the block is what was proposed, with all those validations. */
  lemma FinalisesExactly(states: seq<State>, acts: seq<Act>, t: nat)
    requires Run(states, acts) && t < |acts|
    ensures var s, s', i, step := states[t], states[t + 1], acts[t].node, acts[t].step;
      && i < |s.nodes|
      && var pending := s.nodes[i].pending;
         && (|s'.finals| > |s.finals|
             <==> step.OnValid? && !pending.empty && |step.vals| >= 2 && step.prev == pending.prev
                  && |step.vals + pending.vals| > |s.nodes| / 2)
         && (|s'.finals| > |s.finals| ==>
               var block := Block(step.time, pending.prev, pending.payload, step.vals + pending.vals);
               s'.finals == s.finals + [Final(block, i, s.nodes[i].received)])
  {
    assert StepAt(states, acts, t);
    var s, i := states[t], acts[t].node;
    match acts[t].step
    case OnTransactions(txs, payload) =>
      CreateKeepsPool(s.(nodes := s.nodes[i := s.nodes[i].(pool := s.nodes[i].pool + txs)]), i, payload);
    case OnFinal(k, stillValid, payload) => FinalKeepsPool(s, i, k, stillValid, payload, i);
    case OnProposal(p) =>
    case OnValid(prev, vals, time) =>
  }

  /** In every run, a node that receives a proposal signs it exactly if it is one and validates. */
  lemma ApprovesExactly(states: seq<State>, acts: seq<Act>, t: nat)
    requires Run(states, acts) && t < |acts| && acts[t].step.OnProposal?
    ensures var s, s', i, p := states[t], states[t + 1], acts[t].node, acts[t].step.proposal;
      && i < |s.addrs|
      && if !p.empty && Validate(p.payload.txs, p.payload.summary, p.vals)
         then var me := s.addrs[i];
              && s'.approvals == s.approvals + {Approval(me, p.prev, p.payload)}
              && exists vals :: s'.soup == s.soup + {Valid(p.prev, vals)} && vals.Keys == p.vals.Keys + {me}
                                && (forall a :: a in p.vals ==> vals[a] == p.vals[a])
                                && (me !in p.vals ==> vals[me] == Sig(me, p.payload.summary))
         else s' == s
  {
    assert StepAt(states, acts, t);
    var s, i, p := states[t], acts[t].node, acts[t].step.proposal;
    var vals := map[s.addrs[i] := Sig(s.addrs[i], p.payload.summary)] + p.vals;
    assert vals.Keys == p.vals.Keys + {s.addrs[i]};
  }

  /** A pending proposal that meets a final block, which the runs above never let happen, would go on
      under the hash of that block, with its payload if that is still valid and a new one otherwise. */
  lemma ReverifiedProposal(s: State, i: NodeId, k: nat, stillValid: bool, payload: Payload)
    requires WellFormed(s) && i < |s.nodes| && k < |s.finals| && !s.nodes[i].pending.empty
    ensures var s' := HandleFinalBlock(s, i, k, stillValid, payload);
      && |s'.nodes| == |s.nodes| && s'.soup == s.soup
      && var p, p' := s.nodes[i].pending, s'.nodes[i].pending;
         && !p'.empty && p'.prev == Of(s.finals[k].block) == Top(s'.nodes[i].chain)
         && (if stillValid then p'.payload == p.payload && p'.vals == p.vals
             else p'.payload == payload && p'.vals.Keys == {s.addrs[i]})
  {
  }
}
