/** A shard of three nodes in which a FINAL_BLOCK can overtake the one before it. */
module Misdelivery {
  import opened Summaries
  import Ledger
  import opened Assembly
  import opened Consensus

  ghost predicate Valuable(payload: Payload)
  {
    |payload.txs| >= 1 && IsSane(payload.summary)
  }

  function Start(addrs: seq<Address>): State
  {
    State(addrs, seq(|addrs|, _ => Node([], {}, BLANK, {})), {}, [], {}, map[])
  }

  /** The signatures of a leader and of one peer. */
  function TwoSign(leader: Address, peer: Address, summary: Summary): map<Address, Sig>
  {
    map[peer := Sig(peer, summary)] + map[leader := Sig(leader, summary)]
  }

  lemma TwoIsMajority(leader: Address, peer: Address, summary: Summary)
    requires leader != peer
    ensures |TwoSign(leader, peer, summary)| == 2
    ensures TwoSign(leader, peer, summary) + map[leader := Sig(leader, summary)] == TwoSign(leader, peer, summary)
  {
    assert TwoSign(leader, peer, summary).Keys == {leader, peer};
  }

  ghost predicate Takes(s: State, act: Act, t: State)
  {
    Enabled(s, act.node, act.step) && t == Next(s, act.node, act.step)
  }

  /** Node i is about to have its proposal of the payload validated. */
  ghost predicate Leads(s: State, i: NodeId, payload: Payload)
  {
    && WellFormed(s) && |s.nodes| == 3 && i < 3
    && s.nodes[i].pending == MakeProposal(s.addrs[i], Top(s.nodes[i].chain), payload)
    && Propose(s.nodes[i].pending) in s.soup
  }

  ghost predicate Idle(s: State, i: NodeId)
  {
    i < |s.nodes| && s.nodes[i] == Node([], {}, BLANK, {})
  }

  /** The nodes other than i, the addresses and the number of nodes stay. */
  ghost predicate OnlyAt(s: State, t: State, i: NodeId)
  {
    t.addrs == s.addrs && |t.nodes| == |s.nodes| && forall k :: 0 <= k < |s.nodes| && k != i ==> t.nodes[k] == s.nodes[k]
  }

  /** Node j validates what node i proposes, and node i finalises. */
  lemma Round(s: State, i: NodeId, j: NodeId, payload: Payload, time: nat)
    returns (a: Act, t: State, b: Act, u: State)
    requires Leads(s, i, payload) && j < 3 && i != j && Valuable(payload)
    ensures Takes(s, a, t) && Takes(t, b, u) && OnlyAt(s, u, i) && |u.finals| == |s.finals| + 1
    ensures u.finals == s.finals + [Final(u.finals[|s.finals|].block, i, s.nodes[i].received)]
    ensures u.finals[|s.finals|].block.prev == Top(s.nodes[i].chain)
  {
    a, t := Validates(s, i, j, payload);
    b, u := Finalises(t, i, j, payload, time);
  }

  lemma Validates(s: State, i: NodeId, j: NodeId, payload: Payload) returns (a: Act, t: State)
    requires Leads(s, i, payload) && j < 3 && i != j && Valuable(payload)
    ensures Takes(s, a, t) && Leads(t, i, payload) && t.nodes == s.nodes && t.addrs == s.addrs && t.finals == s.finals
    ensures Valid(Top(s.nodes[i].chain), TwoSign(s.addrs[i], s.addrs[j], payload.summary)) in t.soup
  {
    a := Act(j, OnProposal(s.nodes[i].pending));
    t := Next(s, j, a.step);
  }

  lemma Finalises(s: State, i: NodeId, j: NodeId, payload: Payload, time: nat) returns (b: Act, u: State)
    requires Leads(s, i, payload) && j < 3 && i != j
    requires Valid(Top(s.nodes[i].chain), TwoSign(s.addrs[i], s.addrs[j], payload.summary)) in s.soup
    ensures Takes(s, b, u) && OnlyAt(s, u, i) && |u.finals| == |s.finals| + 1
    ensures u.finals == s.finals + [Final(u.finals[|s.finals|].block, i, s.nodes[i].received)]
    ensures u.finals[|s.finals|].block.prev == Top(s.nodes[i].chain)
  {
    TwoIsMajority(s.addrs[i], s.addrs[j], payload.summary);
    b := Act(i, OnValid(Top(s.nodes[i].chain), TwoSign(s.addrs[i], s.addrs[j], payload.summary), time));
    u := Next(s, i, b.step);
  }

  lemma Opening(addrs: seq<Address>, payload: Payload, tx: Ledger.Tx) returns (a: Act, s: State)
    requires WellFormed(Start(addrs)) && |addrs| == 3
    ensures Takes(Start(addrs), a, s) && Leads(s, 0, payload) && s.finals == [] && s.nodes[0].received == {}
    ensures s.nodes[0].chain == [] && OnlyAt(Start(addrs), s, 0)
  {
    a := Act(0, OnTransactions({tx}, payload));
    s := Next(Start(addrs), 0, a.step);
  }

  /** Node 1 learns of a transaction, then of the first block, and proposes the next one. */
  lemma Relay(s: State, payload: Payload, tx: Ledger.Tx) returns (a: Act, t: State, b: Act, u: State)
    requires WellFormed(s) && |s.nodes| == 3 && Idle(s, 1)
    requires |s.finals| == 1 && s.finals[0].sender == 0 && s.finals[0].past == {}
    ensures Takes(s, a, t) && Takes(t, b, u) && OnlyAt(s, u, 1) && u.finals == s.finals
    ensures Leads(u, 1, payload) && u.nodes[1].received == {0} && u.nodes[1].chain == [s.finals[0].block]
  {
    a := Act(1, OnTransactions({tx}, payload));
    t := Next(s, 1, a.step);
    assert {} + {tx} == {tx};
    assert t == s.(nodes := s.nodes[1 := Node([], {tx}, BLANK, {})]);
    b := Act(1, OnFinal(0, false, payload));
    u := Next(t, 1, b.step);
    assert [] + [s.finals[0].block] == [s.finals[0].block];
  }

  lemma OneMore(states: seq<State>, acts: seq<Act>, a: Act, t: State)
    requires Run(states, acts) && Takes(states[|acts|], a, t)
    ensures Run(states + [t], acts + [a])
  {
    var states', acts' := states + [t], acts + [a];
    forall k | 0 <= k < |acts'|
      ensures StepAt(states', acts', k)
    {
      if k < |acts| { SameStep(states, acts, states', acts', k); } else { LastStep(states, acts, a, t); }
    }
  }

  lemma LastStep(states: seq<State>, acts: seq<Act>, a: Act, t: State)
    requires |states| == |acts| + 1 && Takes(states[|acts|], a, t)
    ensures StepAt(states + [t], acts + [a], |acts|)
  {
  }

  lemma SameStep(states: seq<State>, acts: seq<Act>, states': seq<State>, acts': seq<Act>, k: nat)
    requires Run(states, acts) && k < |acts| < |acts'| && |states'| == |acts'| + 1
    requires states'[k] == states[k] && states'[k + 1] == states[k + 1] && acts'[k] == acts[k]
    ensures StepAt(states', acts', k)
  {
    assert StepAt(states, acts, k);
  }

  /** The first block is final and two nodes have not heard of it. */
  ghost predicate OneFinal(s: State)
  {
    && WellFormed(s) && |s.nodes| == 3 && |s.finals| == 1 && s.finals[0] == Final(s.finals[0].block, 0, {})
    && s.finals[0].block.prev == Genesis && Idle(s, 1) && Idle(s, 2)
  }

  lemma FirstRound(addrs: seq<Address>, payload: Payload, tx: Ledger.Tx, time: nat)
    returns (a: Act, s: State, b: Act, t: State, c: Act, u: State)
    requires WellFormed(Start(addrs)) && |addrs| == 3 && Valuable(payload)
    ensures Takes(Start(addrs), a, s) && Takes(s, b, t) && Takes(t, c, u) && OneFinal(u)
  {
    a, s := Opening(addrs, payload, tx);
    b, t, c, u := Round(s, 0, 1, payload, time);
  }

  lemma FirstBlock(addrs: seq<Address>, payload: Payload, tx: Ledger.Tx, time: nat)
    returns (states: seq<State>, acts: seq<Act>)
    requires WellFormed(Start(addrs)) && |addrs| == 3 && Valuable(payload)
    ensures Run(states, acts) && OneFinal(states[|acts|])
  {
    var a, s, b, t, c, u := FirstRound(addrs, payload, tx, time);
    OneMore([Start(addrs)], [], a, s);
    OneMore([Start(addrs)] + [s], [] + [a], b, t);
    OneMore([Start(addrs)] + [s] + [t], [] + [a] + [b], c, u);
    states, acts := [Start(addrs)] + [s] + [t] + [u], [] + [a] + [b] + [c];
  }

  /** With any three addresses and any payload that validates, seven handlers lead to a state in
      which the second FINAL_BLOCK is on its way to a node that has not received the first. Pushed
      there, as the handler would push it, it is the block of the wrong height. */
  lemma OvertakingIsReachable(addrs: seq<Address>, payload: Payload, tx: Ledger.Tx, time: nat)
    returns (states: seq<State>, acts: seq<Act>)
    requires WellFormed(Start(addrs)) && |addrs| == 3 && Valuable(payload)
    ensures Run(states, acts)
    ensures var s := states[|acts|];
      && |s.finals| == 2 && Idle(s, 2) && s.finals[1].sender != 2
      && !(s.finals[1].past <= s.nodes[2].received)
      && !([s.finals[1].block] <= Log(s.finals, 2))
  {
    states, acts := FirstBlock(addrs, payload, tx, time);
    var first := states[|acts|].finals[0].block;
    var a, s, b, t := Relay(states[|acts|], payload, tx);
    OneMore(states, acts, a, s);
    OneMore(states + [s], acts + [a], b, t);
    states, acts := states + [s] + [t], acts + [a] + [b];
    var c, u, d, v := Round(t, 1, 0, payload, time);
    OneMore(states, acts, c, u);
    OneMore(states + [u], acts + [c], d, v);
    states, acts := states + [u] + [v], acts + [c] + [d];
    assert v.finals[0].block == first && v.finals[1].block.prev == Of(first);
    assert Log(v.finals, 2)[0] == first && 0 in v.finals[1].past;
  }
}
