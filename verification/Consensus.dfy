/** Consensus inside one Tier 2 shard: round-robin leader by height, propose, validate,
    finalise, broadcast. One step per handler, over any number of nodes.

    PROPOSAL_BLOCK and VALID messages may be lost, repeated and reordered. FINAL_BLOCK messages
    are delivered at most once to every other node and in causal order: a node receives one
    only after all those its sender had received or sent before it. Handlers are atomic.
    Hashes are ideal: equal only for equal blocks.
 */
module Consensus {
  import opened Summaries
  import opened Ledger
  import opened Assembly
  import Runs

  type NodeId = nat

  /** Zero is the all-zero array a fresh ProposedBlock starts with. */
  datatype Hash = Zero | Genesis | Of(block: Block)

  datatype Payload = Payload(txs: seq<Tx>, summary: Summary)

  /** A FinalBlock, without the byte counts that follow from the rest. */
  datatype Block = Block(time: nat, prev: Hash, payload: Payload, vals: map<Address, Sig>)

  /** pending_proposal_; `null` is num_bytes_ < MinSize(). */
  datatype Proposal = Proposal(empty: bool, prev: Hash, payload: Payload, vals: map<Address, Sig>)

  const BLANK := Proposal(true, Zero, Payload([], map[]), map[])

  datatype Node = Node(chain: seq<Block>, pool: set<Tx>, pending: Proposal, received: set<nat>)

  datatype Message =
    | Propose(proposal: Proposal)
    | Valid(prev: Hash, vals: map<Address, Sig>)

  /** A FINAL_BLOCK broadcast, with the finals its sender had received or sent before. */
  datatype Final = Final(block: Block, sender: NodeId, past: set<nat>)

  /** A node ran validate successfully on exactly this proposal. */
  datatype Approval = Approval(signer: Address, prev: Hash, payload: Payload)

  datatype State = State(
    addrs: seq<Address>,          // the node addresses of the key ring
    nodes: seq<Node>,
    soup: set<Message>,           // PROPOSAL_BLOCK and VALID messages ever sent
    finals: seq<Final>,           // FINAL_BLOCK messages, in the order they were sent
    approvals: set<Approval>,     // bookkeeping
    offers: map<nat, Payload>)    // bookkeeping: what was proposed at each height

  // ---------------------------------------------------------------------------------
  // The handlers
  // ---------------------------------------------------------------------------------

  predicate WellFormed(s: State)
  {
    && |s.nodes| > 0 && |s.addrs| == |s.nodes|
    && (forall i, j :: 0 <= i < j < |s.addrs| ==> s.addrs[i] != s.addrs[j])
  }

  function Top(chain: seq<Block>): Hash
  {
    if chain == [] then Genesis else Of(chain[|chain| - 1])
  }

  predicate MyTurn(s: State, i: NodeId, height: nat)
    requires WellFormed(s)
  {
    height % |s.nodes| == i % |s.nodes|
  }

  /** UnrecordedTransactionPool::ProposeBlock, with the payload that CollectValidTransactions
      found, signed by the proposer. */
  function MakeProposal(me: Address, prev: Hash, payload: Payload): Proposal
  {
    Proposal(false, prev, payload, map[me := Sig(me, payload.summary)])
  }

  /** CreateNextProposal followed by the broadcast of whatever proposal the pool then holds,
      unless it is all zeros. */
  function CreateNextProposal(s: State, i: NodeId, payload: Payload): State
    requires WellFormed(s) && i < |s.nodes|
  {
    var node := s.nodes[i];
    if node.pending.empty && node.pool != {} then
      var p := MakeProposal(s.addrs[i], Top(node.chain), payload);
      s.(nodes := s.nodes[i := node.(pending := p)],
         soup := s.soup + {Propose(p)},
         offers := s.offers[|node.chain| := payload])
    else if node.pending == BLANK then s
    else s.(soup := s.soup + {Propose(node.pending)})
  }

  /** ValidatorController::validatorCallback on a TRANSACTION_ANNOUNCEMENT. */
  function Announce(s: State, i: NodeId, txs: set<Tx>, payload: Payload): State
    requires WellFormed(s) && i < |s.nodes|
  {
    var s1 := s.(nodes := s.nodes[i := s.nodes[i].(pool := s.nodes[i].pool + txs)]);
    if MyTurn(s1, i, |s1.nodes[i].chain|) && s1.nodes[i].pending.empty then CreateNextProposal(s1, i, payload) else s1
  }

  /** HandleFinalBlock: pushes the block unchecked, re-verifies a pending proposal if there is
      one (keeping it under the new hash, or making a new one), and proposes if it is its turn. */
  function HandleFinalBlock(s: State, i: NodeId, k: nat, stillValid: bool, payload: Payload): State
    requires WellFormed(s) && i < |s.nodes| && k < |s.finals|
  {
    var node := s.nodes[i];
    var top := Of(s.finals[k].block);
    var pending :=
      if node.pending.empty then node.pending
      else if stillValid then node.pending.(prev := top)
      else MakeProposal(s.addrs[i], top, payload);
    var node1 := node.(chain := node.chain + [s.finals[k].block], received := node.received + {k}, pending := pending);
    var s1 := s.(nodes := s.nodes[i := node1]);
    if node1.pool != {} && MyTurn(s1, i, |node1.chain|) && node1.pending.empty then CreateNextProposal(s1, i, payload)
    else s1
  }

  /** HandleProposalBlock: a nulled proposal does not parse; an invalid one is ignored; a valid
      one is signed, and the validation data goes back. */
  ghost function HandleProposalBlock(s: State, i: NodeId, p: Proposal): State
    requires WellFormed(s) && i < |s.nodes|
  {
    if p.empty || !Validate(p.payload.txs, p.payload.summary, p.vals) then s
    else
      var me := s.addrs[i];
      var vals := map[me := Sig(me, p.payload.summary)] + p.vals;
      s.(soup := s.soup + {Valid(p.prev, vals)},
         approvals := s.approvals + {Approval(me, p.prev, p.payload)})
  }

  /** HandleValidationBlock: merges validations that name this proposal's previous hash, and
      finalises and broadcasts once they are more than half of the peers. */
  function HandleValidationBlock(s: State, i: NodeId, prev: Hash, vals: map<Address, Sig>, time: nat): State
    requires WellFormed(s) && i < |s.nodes|
  {
    var node := s.nodes[i];
    if node.pending.empty || |vals| < 2 || prev != node.pending.prev then s
    else
      var merged := vals + node.pending.vals;
      if |merged| > |s.nodes| / 2 then
        var block := Block(time, node.pending.prev, node.pending.payload, merged);
        var done := (set tx | tx in node.pending.payload.txs);
        var node1 := Node(node.chain + [block], node.pool - done,
                          node.pending.(empty := true, vals := merged), node.received + {|s.finals|});
        s.(nodes := s.nodes[i := node1], finals := s.finals + [Final(block, i, node.received)])
      else
        s.(nodes := s.nodes[i := node.(pending := node.pending.(vals := merged))])
  }

  datatype Step =
    | OnTransactions(txs: set<Tx>, payload: Payload)
    | OnFinal(k: nat, stillValid: bool, payload: Payload)
    | OnProposal(proposal: Proposal)
    | OnValid(prev: Hash, vals: map<Address, Sig>, time: nat)

  ghost predicate Enabled(s: State, i: NodeId, step: Step)
  {
    && WellFormed(s) && i < |s.nodes|
    && match step
       case OnTransactions(_, _) => true
       case OnFinal(k, _, _) =>
         && k < |s.finals| && s.finals[k].sender != i
         && k !in s.nodes[i].received && s.finals[k].past <= s.nodes[i].received
       case OnProposal(p) => Propose(p) in s.soup
       case OnValid(prev, vals, _) => Valid(prev, vals) in s.soup
  }

  ghost function Next(s: State, i: NodeId, step: Step): State
    requires Enabled(s, i, step)
  {
    match step
    case OnTransactions(txs, payload) => Announce(s, i, txs, payload)
    case OnFinal(k, stillValid, payload) => HandleFinalBlock(s, i, k, stillValid, payload)
    case OnProposal(p) => HandleProposalBlock(s, i, p)
    case OnValid(prev, vals, time) => HandleValidationBlock(s, i, prev, vals, time)
  }

  ghost predicate Init(s: State)
  {
    && WellFormed(s)
    && s.soup == {} && s.finals == [] && s.approvals == {} && s.offers == map[]
    && (forall i :: 0 <= i < |s.nodes| ==> s.nodes[i] == Node([], {}, BLANK, {}))
  }

  // ---------------------------------------------------------------------------------
  // The invariant
  // ---------------------------------------------------------------------------------

  /** ks holds exactly the numbers of the first n finals. */
  ghost predicate FirstN(ks: set<nat>, n: nat)
  {
    forall k: nat :: k in ks <==> k < n
  }

  /** The blocks of the first n finals: the one log of the shard. */
  function Log(finals: seq<Final>, n: nat): (r: seq<Block>)
    requires n <= |finals|
    ensures |r| == n && forall k :: 0 <= k < n ==> r[k] == finals[k].block
  {
    seq(n, k requires 0 <= k < n => finals[k].block)
  }

  /** The hash a proposal at height h must point to. */
  function PrevAt(finals: seq<Final>, h: nat): Hash
    requires h <= |finals|
  {
    if h == 0 then Genesis else Of(finals[h - 1].block)
  }

  function Depth(h: Hash): nat
  {
    match h
    case Zero => 0
    case Genesis => 0
    case Of(b) => 1 + Depth(b.prev)
  }

  /** a signed the proposal (prev, payload) of height h: as its leader, or after validating it. */
  ghost predicate Signed(s: State, h: nat, a: Address, prev: Hash, payload: Payload)
    requires WellFormed(s)
  {
    a == s.addrs[h % |s.nodes|] || Approval(a, prev, payload) in s.approvals
  }

  ghost predicate AllSigned(s: State, h: nat, vals: map<Address, Sig>, prev: Hash, payload: Payload)
    requires WellFormed(s)
  {
    forall a :: a in vals ==> Signed(s, h, a, prev, payload)
  }

  ghost predicate FinalOk(s: State, k: nat)
    requires WellFormed(s) && k < |s.finals|
  {
    var f := s.finals[k];
    && f.sender == k % |s.nodes| && FirstN(f.past, k)
    && |s.nodes[f.sender].chain| > k
    && f.block.prev == PrevAt(s.finals, k)
    && k in s.offers && f.block.payload == s.offers[k]
    && |f.block.vals| > |s.nodes| / 2
    && AllSigned(s, k, f.block.vals, f.block.prev, f.block.payload)
  }

  ghost predicate NodeOk(s: State, i: NodeId)
    requires WellFormed(s) && i < |s.nodes|
  {
    var node := s.nodes[i];
    && |node.chain| <= |s.finals|
    && node.chain == Log(s.finals, |node.chain|)
    && FirstN(node.received, |node.chain|)
    && (!node.pending.empty ==>
          && |node.chain| == |s.finals| && |s.finals| % |s.nodes| == i
          && node.pending.prev == PrevAt(s.finals, |s.finals|)
          && |s.finals| in s.offers && node.pending.payload == s.offers[|s.finals|]
          && AllSigned(s, |s.finals|, node.pending.vals, node.pending.prev, node.pending.payload))
  }

  /** The proposal (prev, payload) is the one offered at its height. */
  ghost predicate Offered(s: State, prev: Hash)
  {
    Depth(prev) <= |s.finals| && Depth(prev) in s.offers && prev == PrevAt(s.finals, Depth(prev))
  }

  ghost predicate MessageOk(s: State, m: Message)
    requires WellFormed(s)
  {
    match m
    case Propose(p) =>
      !p.empty ==> Offered(s, p.prev) && p.payload == s.offers[Depth(p.prev)]
                   && AllSigned(s, Depth(p.prev), p.vals, p.prev, p.payload)
    case Valid(prev, vals) =>
      Offered(s, prev) && AllSigned(s, Depth(prev), vals, prev, s.offers[Depth(prev)])
  }

  ghost predicate OfferOk(s: State, h: nat)
    requires WellFormed(s)
  {
    h < |s.finals| || (h == |s.finals| && !s.nodes[h % |s.nodes|].pending.empty)
  }

  ghost predicate Inv(s: State)
  {
    && WellFormed(s)
    && (forall k :: 0 <= k < |s.finals| ==> FinalOk(s, k))
    && (forall i :: 0 <= i < |s.nodes| ==> NodeOk(s, i))
    && (forall m :: m in s.soup ==> MessageOk(s, m))
    && (forall h :: h in s.offers ==> OfferOk(s, h))
  }

  lemma InitInv(s: State)
    requires Init(s)
    ensures Inv(s)
  {
  }

  lemma {:induction false} PrevDepth(s: State, h: nat)
    requires WellFormed(s) && h <= |s.finals|
    requires forall k :: 0 <= k < |s.finals| ==> FinalOk(s, k)
    ensures Depth(PrevAt(s.finals, h)) == h
  {
    if h > 0 {
      assert FinalOk(s, h - 1);
      PrevDepth(s, h - 1);
    }
  }

  // ---------------------------------------------------------------------------------
  // Every step keeps the invariant
  // ---------------------------------------------------------------------------------

  /** A node whose turn it is has the whole log: it finalised every earlier block of its own. */
  lemma TurnHasWholeLog(s: State, i: NodeId)
    requires Inv(s) && i < |s.nodes| && MyTurn(s, i, |s.nodes[i].chain|)
    ensures |s.nodes[i].chain| == |s.finals| && |s.finals| % |s.nodes| == i
  {
    assert i % |s.nodes| == i;
    assert NodeOk(s, i);
    LeaderHas(s, |s.nodes[i].chain|, i);
  }

  /** The leader of a height that is in the log has it on its chain. */
  lemma LeaderHas(s: State, h: nat, i: NodeId)
    requires Inv(s) && i < |s.nodes| && h % |s.nodes| == i
    ensures h < |s.finals| ==> |s.nodes[i].chain| > h
  {
    if h < |s.finals| { assert FinalOk(s, h); }
  }

  /** Facts about signatures survive when approvals and offers only grow and the log keeps its
      prefix. */
  ghost predicate Extends(s: State, t: State)
    requires WellFormed(s)
  {
    && t.addrs == s.addrs && |t.nodes| == |s.nodes| && s.finals <= t.finals
    && s.approvals <= t.approvals
    && (forall h :: h in s.offers ==> h in t.offers && t.offers[h] == s.offers[h])
    && (forall i :: 0 <= i < |s.nodes| ==> |s.nodes[i].chain| <= |t.nodes[i].chain|)
  }

  lemma SignedKept(s: State, t: State, h: nat, vals: map<Address, Sig>, prev: Hash, payload: Payload)
    requires WellFormed(s) && WellFormed(t) && Extends(s, t) && AllSigned(s, h, vals, prev, payload)
    ensures AllSigned(t, h, vals, prev, payload)
  {
    forall a | a in vals
      ensures Signed(t, h, a, prev, payload)
    {
      assert Signed(s, h, a, prev, payload);
    }
  }

  lemma FinalKept(s: State, t: State, k: nat)
    requires WellFormed(s) && WellFormed(t) && Extends(s, t) && k < |s.finals| && FinalOk(s, k)
    ensures FinalOk(t, k)
  {
    assert t.finals[k] == s.finals[k];
    var b := s.finals[k].block;
    SignedKept(s, t, k, b.vals, b.prev, b.payload);
  }

  lemma MessageKept(s: State, t: State, m: Message)
    requires WellFormed(s) && WellFormed(t) && Extends(s, t) && MessageOk(s, m)
    ensures MessageOk(t, m)
  {
    match m
    case Propose(p) =>
      if !p.empty {
        SignedKept(s, t, Depth(p.prev), p.vals, p.prev, p.payload);
      }
    case Valid(prev, vals) =>
      SignedKept(s, t, Depth(prev), vals, prev, s.offers[Depth(prev)]);
  }

  /** An untouched node stays right while the log stays as it is, or while it has nothing pending. */
  lemma NodeKept(s: State, t: State, j: NodeId)
    requires WellFormed(s) && WellFormed(t) && Extends(s, t) && j < |s.nodes| && NodeOk(s, j)
    requires t.nodes[j] == s.nodes[j] && (t.finals == s.finals || s.nodes[j].pending.empty)
    ensures NodeOk(t, j)
  {
    var node := s.nodes[j];
    assert Log(s.finals, |node.chain|) == Log(t.finals, |node.chain|);
    if !node.pending.empty {
      SignedKept(s, t, |s.finals|, node.pending.vals, node.pending.prev, node.pending.payload);
    }
  }

  lemma PrevIsTop(s: State, i: NodeId)
    requires WellFormed(s) && i < |s.nodes| && NodeOk(s, i)
    ensures Top(s.nodes[i].chain) == PrevAt(s.finals, |s.nodes[i].chain|)
  {
  }

  /** The invariant but for the messages and offers added by one step of node i. */
  lemma Rebuild(s: State, t: State, i: NodeId)
    requires Inv(s) && WellFormed(t) && Extends(s, t) && i < |s.nodes|
    requires forall j :: 0 <= j < |s.nodes| && j != i ==> t.nodes[j] == s.nodes[j]
    requires t.finals == s.finals || forall j :: 0 <= j < |s.nodes| && j != i ==> s.nodes[j].pending.empty
    requires forall k :: |s.finals| <= k < |t.finals| ==> FinalOk(t, k)
    requires NodeOk(t, i)
    requires forall m :: m in t.soup && m !in s.soup ==> MessageOk(t, m)
    requires forall h :: h in t.offers ==> OfferOk(t, h)
    ensures Inv(t)
  {
    forall k | 0 <= k < |t.finals|
      ensures FinalOk(t, k)
    {
      if k < |s.finals| {
        FinalKept(s, t, k);
      }
    }
    forall j | 0 <= j < |t.nodes|
      ensures NodeOk(t, j)
    {
      if j != i {
        NodeKept(s, t, j);
      }
    }
    forall m | m in t.soup
      ensures MessageOk(t, m)
    {
      if m in s.soup {
        MessageKept(s, t, m);
      }
    }
  }

  lemma KeepCreate(s: State, i: NodeId, payload: Payload)
    requires Inv(s) && i < |s.nodes| && MyTurn(s, i, |s.nodes[i].chain|) && s.nodes[i].pending.empty
    ensures Inv(CreateNextProposal(s, i, payload))
  {
    var t := CreateNextProposal(s, i, payload);
    if s.nodes[i].pool == {} {
      Rebuild(s, t, i) by { assert NodeOk(s, i); NodeKept(s, t, i); OffersKept(s, t); }
    } else {
      KeepPropose(s, i, payload);
    }
  }

  lemma OffersKept(s: State, t: State)
    requires Inv(s) && WellFormed(t) && t.offers == s.offers && t.finals == s.finals
    requires |t.nodes| == |s.nodes|
    requires forall j :: 0 <= j < |s.nodes| ==> t.nodes[j].pending == s.nodes[j].pending
    ensures forall h :: h in t.offers ==> OfferOk(t, h)
  {
    forall h | h in t.offers
      ensures OfferOk(t, h)
    {
      assert OfferOk(s, h);
    }
  }

  /** The state once node i holds and has sent the proposal p. */
  function Proposed(s: State, i: NodeId, p: Proposal): State
    requires i < |s.nodes|
  {
    s.(nodes := s.nodes[i := s.nodes[i].(pending := p)],
       soup := s.soup + {Propose(p)},
       offers := s.offers[|s.nodes[i].chain| := p.payload])
  }

  /** The proposal of the next leader is right for the new state, as pending and as message. */
  lemma NewProposal(s: State, i: NodeId, p: Proposal)
    requires Inv(s) && i < |s.nodes| && |s.nodes[i].chain| == |s.finals| && |s.finals| % |s.nodes| == i
    requires p == MakeProposal(s.addrs[i], PrevAt(s.finals, |s.finals|), p.payload)
    ensures NodeOk(Proposed(s, i, p), i) && MessageOk(Proposed(s, i, p), Propose(p))
  {
    var t := Proposed(s, i, p);
    PrevDepth(s, |s.finals|);
    forall a | a in p.vals
      ensures Signed(t, |s.finals|, a, p.prev, p.payload)
    {
    }
    assert NodeOk(s, i);
  }

  lemma KeepPropose(s: State, i: NodeId, payload: Payload)
    requires Inv(s) && i < |s.nodes| && MyTurn(s, i, |s.nodes[i].chain|) && s.nodes[i].pending.empty
    requires s.nodes[i].pool != {}
    ensures Inv(CreateNextProposal(s, i, payload))
  {
    TurnHasWholeLog(s, i);
    PrevIsTop(s, i) by { assert NodeOk(s, i); }
    var h := |s.finals|;
    var p := MakeProposal(s.addrs[i], PrevAt(s.finals, h), payload);
    var t := Proposed(s, i, p);
    NewProposal(s, i, p);
    forall g | g in t.offers
      ensures OfferOk(t, g) && (g in s.offers ==> g != h)
    {
      assert g in s.offers ==> OfferOk(s, g);
    }
    Rebuild(s, t, i);
  }

  lemma KeepAnnounce(s: State, i: NodeId, txs: set<Tx>, payload: Payload)
    requires Inv(s) && i < |s.nodes|
    ensures Inv(Announce(s, i, txs, payload))
  {
    var s1 := s.(nodes := s.nodes[i := s.nodes[i].(pool := s.nodes[i].pool + txs)]);
    assert NodeOk(s, i);
    SamePending(s, s1, i);
    Rebuild(s, s1, i) by { OffersKept(s, s1); }
    if MyTurn(s1, i, |s1.nodes[i].chain|) && s1.nodes[i].pending.empty {
      KeepCreate(s1, i, payload);
    }
  }

  /** Only the pool of a node changed. */
  lemma SamePending(s: State, t: State, i: NodeId)
    requires WellFormed(s) && WellFormed(t) && Extends(s, t) && i < |s.nodes| && NodeOk(s, i)
    requires t.finals == s.finals && t.nodes[i] == s.nodes[i].(pool := t.nodes[i].pool)
    ensures NodeOk(t, i)
  {
    var p := s.nodes[i].pending;
    if !p.empty {
      SignedKept(s, t, |s.finals|, p.vals, p.prev, p.payload);
    }
  }

  /** A FINAL_BLOCK arrives exactly in log order, and never while a proposal is pending here. */
  lemma FinalsInOrder(s: State, i: NodeId, k: nat)
    requires Inv(s) && i < |s.nodes| && k < |s.finals|
    requires k !in s.nodes[i].received && s.finals[k].past <= s.nodes[i].received
    ensures k == |s.nodes[i].chain| && s.nodes[i].pending.empty
  {
    assert NodeOk(s, i) && FinalOk(s, k);
    var n := |s.nodes[i].chain|;
    assert n in s.finals[k].past <==> n < k;
  }

  lemma KeepFinal(s: State, i: NodeId, k: nat, stillValid: bool, payload: Payload)
    requires Inv(s) && Enabled(s, i, OnFinal(k, stillValid, payload))
    ensures Inv(HandleFinalBlock(s, i, k, stillValid, payload))
  {
    FinalsInOrder(s, i, k);
    var node := s.nodes[i];
    var node1 := node.(chain := node.chain + [s.finals[k].block], received := node.received + {k});
    var s1 := s.(nodes := s.nodes[i := node1]);
    assert NodeOk(s, i);
    assert node1.chain == Log(s.finals, k + 1);
    assert NodeOk(s1, i);
    Rebuild(s, s1, i) by { OffersKept(s, s1); }
    if node1.pool != {} && MyTurn(s1, i, |node1.chain|) {
      KeepCreate(s1, i, payload);
    }
  }

  lemma KeepProposal(s: State, i: NodeId, p: Proposal)
    requires Inv(s) && Enabled(s, i, OnProposal(p))
    ensures Inv(HandleProposalBlock(s, i, p))
  {
    var t := HandleProposalBlock(s, i, p);
    if t != s {
      assert MessageOk(s, Propose(p));
      SignedKept(s, t, Depth(p.prev), p.vals, p.prev, p.payload);
      var me := s.addrs[i];
      var vals := map[me := Sig(me, p.payload.summary)] + p.vals;
      forall a | a in vals
        ensures Signed(t, Depth(p.prev), a, p.prev, p.payload)
      {
      }
      assert MessageOk(t, Valid(p.prev, vals));
      assert NodeOk(s, i);
      NodeKept(s, t, i);
      Rebuild(s, t, i) by { OffersKept(s, t); }
    }
  }

  /** Every signer of a VALID message for this proposal signed exactly this proposal. */
  lemma MergeSigned(s: State, i: NodeId, prev: Hash, vals: map<Address, Sig>)
    requires Inv(s) && i < |s.nodes| && Valid(prev, vals) in s.soup
    requires !s.nodes[i].pending.empty && prev == s.nodes[i].pending.prev
    ensures AllSigned(s, |s.finals|, vals + s.nodes[i].pending.vals, prev, s.nodes[i].pending.payload)
  {
    assert NodeOk(s, i) && MessageOk(s, Valid(prev, vals));
    PrevDepth(s, |s.finals|);
    var p := s.nodes[i].pending;
    forall a | a in vals + p.vals
      ensures Signed(s, |s.finals|, a, prev, p.payload)
    {
    }
  }

  lemma KeepMerge(s: State, i: NodeId, vals: map<Address, Sig>)
    requires Inv(s) && i < |s.nodes| && !s.nodes[i].pending.empty
    requires AllSigned(s, |s.finals|, vals, s.nodes[i].pending.prev, s.nodes[i].pending.payload)
    ensures Inv(s.(nodes := s.nodes[i := s.nodes[i].(pending := s.nodes[i].pending.(vals := vals))]))
  {
    var p := s.nodes[i].pending.(vals := vals);
    var t := s.(nodes := s.nodes[i := s.nodes[i].(pending := p)]);
    SignedKept(s, t, |s.finals|, vals, p.prev, p.payload);
    assert NodeOk(s, i);
    assert NodeOk(t, i);
    forall h | h in t.offers
      ensures OfferOk(t, h)
    {
      assert OfferOk(s, h);
    }
    Rebuild(s, t, i);
  }

  lemma KeepFinalise(s: State, i: NodeId, block: Block, pool: set<Tx>, p: Proposal)
    requires Inv(s) && i < |s.nodes| && !s.nodes[i].pending.empty && p.empty
    requires block.prev == s.nodes[i].pending.prev && block.payload == s.nodes[i].pending.payload
    requires |block.vals| > |s.nodes| / 2
    requires AllSigned(s, |s.finals|, block.vals, block.prev, block.payload)
    ensures var node1 := Node(s.nodes[i].chain + [block], pool, p, s.nodes[i].received + {|s.finals|});
            Inv(s.(nodes := s.nodes[i := node1], finals := s.finals + [Final(block, i, s.nodes[i].received)]))
  {
    var h := |s.finals|;
    var node1 := Node(s.nodes[i].chain + [block], pool, p, s.nodes[i].received + {h});
    var t := s.(nodes := s.nodes[i := node1], finals := s.finals + [Final(block, i, s.nodes[i].received)]);
    assert NodeOk(s, i);
    assert PrevAt(t.finals, h) == PrevAt(s.finals, h);
    SignedKept(s, t, h, block.vals, block.prev, block.payload);
    assert FinalOk(t, h);
    assert node1.chain == Log(t.finals, h + 1);
    assert NodeOk(t, i);
    forall j | 0 <= j < |s.nodes| && j != i
      ensures s.nodes[j].pending.empty
    {
      assert NodeOk(s, j);
    }
    forall g | g in t.offers
      ensures OfferOk(t, g)
    {
      assert OfferOk(s, g);
    }
    Rebuild(s, t, i);
  }

  lemma KeepValid(s: State, i: NodeId, prev: Hash, vals: map<Address, Sig>, time: nat)
    requires Inv(s) && Enabled(s, i, OnValid(prev, vals, time))
    ensures Inv(HandleValidationBlock(s, i, prev, vals, time))
  {
    var node := s.nodes[i];
    if !node.pending.empty && |vals| >= 2 && prev == node.pending.prev {
      MergeSigned(s, i, prev, vals);
      var merged := vals + node.pending.vals;
      if |merged| > |s.nodes| / 2 {
        var done := (set tx | tx in node.pending.payload.txs);
        KeepFinalise(s, i, Block(time, prev, node.pending.payload, merged), node.pool - done,
                     node.pending.(empty := true, vals := merged));
      } else {
        KeepMerge(s, i, merged);
      }
    }
  }

  lemma StepInv(s: State, i: NodeId, step: Step)
    requires Inv(s) && Enabled(s, i, step)
    ensures Inv(Next(s, i, step))
  {
    match step
    case OnTransactions(txs, payload) => KeepAnnounce(s, i, txs, payload);
    case OnFinal(k, stillValid, payload) => KeepFinal(s, i, k, stillValid, payload);
    case OnProposal(p) => KeepProposal(s, i, p);
    case OnValid(prev, vals, time) => KeepValid(s, i, prev, vals, time);
  }

  // ---------------------------------------------------------------------------------
  // Runs
  // ---------------------------------------------------------------------------------

  datatype Act = Act(node: NodeId, step: Step)

  /** states[t + 1] is what the t-th act makes of states[t]. */
  ghost predicate Run(states: seq<State>, acts: seq<Act>)
  {
    && |states| == |acts| + 1 && Init(states[0])
    && (forall t :: 0 <= t < |acts| ==> StepAt(states, acts, t))
  }

  ghost predicate StepAt(states: seq<State>, acts: seq<Act>, t: nat)
    requires t < |acts| && |states| == |acts| + 1
  {
    Enabled(states[t], acts[t].node, acts[t].step) && states[t + 1] == Next(states[t], acts[t].node, acts[t].step)
  }

  lemma RunInv(states: seq<State>, acts: seq<Act>, t: nat)
    requires Run(states, acts) && t < |states|
    ensures Inv(states[t])
  {
    InitInv(states[0]);
    forall k | 0 <= k < |states| - 1 && Inv(states[k]) ensures Inv(states[k + 1]) {
      assert StepAt(states, acts, k);
      StepInv(states[k], acts[k].node, acts[k].step);
    }
    Runs.Along(states, Inv, t);
  }

  ghost predicate Continues(s: State, t: State)
  {
    s.finals <= t.finals && t.addrs == s.addrs
  }

  lemma NextContinues(s: State, i: NodeId, step: Step)
    requires Enabled(s, i, step)
    ensures Continues(s, Next(s, i, step))
  {
  }

  /** The log only grows: blocks are never replaced or reordered. */
  lemma LogGrows(states: seq<State>, acts: seq<Act>, t: nat, u: nat)
    requires Run(states, acts) && t <= u < |states|
    ensures states[t].finals <= states[u].finals && states[u].addrs == states[t].addrs
  {
    var later, grown := states[t..], (s: State) => Continues(states[t], s);
    forall k | 0 <= k < |later| - 1 && grown(later[k]) ensures grown(later[k + 1]) {
      assert StepAt(states, acts, t + k);
      NextContinues(states[t + k], acts[t + k].node, acts[t + k].step);
    }
    Runs.Along(later, grown, u - t);
  }

  /** All chains are prefixes of one log, block k of which was finalised by node k mod N and is
      already on that node's chain. */
  lemma ChainAgreement(states: seq<State>, acts: seq<Act>, t: nat)
    requires Run(states, acts) && t < |states|
    ensures var s := states[t];
            && WellFormed(s)
            && (forall i :: 0 <= i < |s.nodes| ==> s.nodes[i].chain <= Log(s.finals, |s.finals|))
            && (forall k :: 0 <= k < |s.finals| ==>
                  s.finals[k].sender == k % |s.nodes| && |s.nodes[k % |s.nodes|].chain| > k)
  {
    RunInv(states, acts, t);
    var s := states[t];
    forall i | 0 <= i < |s.nodes|
      ensures s.nodes[i].chain <= Log(s.finals, |s.finals|)
    {
      assert NodeOk(s, i);
    }
    forall k | 0 <= k < |s.finals|
      ensures s.finals[k].sender == k % |s.nodes| && |s.nodes[k % |s.nodes|].chain| > k
    {
      assert FinalOk(s, k);
    }
  }

  /** At most one node holds a pending proposal; it is the leader of the next height, it has the
      whole log, and the proposal points at the end of it. */
  lemma OnePendingProposal(states: seq<State>, acts: seq<Act>, t: nat, i: NodeId)
    requires Run(states, acts) && t < |states| && i < |states[t].nodes| && !states[t].nodes[i].pending.empty
    ensures var s := states[t];
            && s.nodes[i].chain == Log(s.finals, |s.finals|) && |s.finals| % |s.nodes| == i
            && s.nodes[i].pending.prev == Top(s.nodes[i].chain)
            && (forall j :: 0 <= j < |s.nodes| && j != i ==> s.nodes[j].pending.empty)
  {
    RunInv(states, acts, t);
    var s := states[t];
    assert NodeOk(s, i);
    PrevIsTop(s, i);
    forall j | 0 <= j < |s.nodes| && j != i
      ensures s.nodes[j].pending.empty
    {
      assert NodeOk(s, j);
    }
  }

  /** No FINAL_BLOCK ever arrives at a node with a pending proposal, so nothing is re-verified:
      neither the outcome nor the replacement payload can matter. */
  lemma NeverReverifies(states: seq<State>, acts: seq<Act>, t: nat)
    requires Run(states, acts) && t < |acts| && acts[t].step.OnFinal?
    ensures acts[t].node < |states[t].nodes| && states[t].nodes[acts[t].node].pending.empty
    ensures acts[t].step.k == |states[t].nodes[acts[t].node].chain|
  {
    RunInv(states, acts, t);
    assert StepAt(states, acts, t);
    FinalsInOrder(states[t], acts[t].node, acts[t].step.k);
  }

  /** At time u, node i ran validate on the proposal (prev, payload) and it passed. */
  ghost predicate Validated(states: seq<State>, acts: seq<Act>, u: nat, signer: Address, prev: Hash, payload: Payload)
  {
    && u < |acts| < |states| && WellFormed(states[u]) && acts[u].node < |states[u].nodes|
    && acts[u].step.OnProposal? && states[u].addrs[acts[u].node] == signer
    && var p := acts[u].step.proposal;
       !p.empty && p.prev == prev && p.payload == payload && Validate(p.payload.txs, p.payload.summary, p.vals)
  }

  lemma {:induction false} ApprovalsWereValidated(states: seq<State>, acts: seq<Act>, t: nat, a: Approval) returns (u: nat)
    requires Run(states, acts) && t < |states| && a in states[t].approvals
    ensures u < t && Validated(states, acts, u, a.signer, a.prev, a.payload)
    decreases t
  {
    if t == 0 {
      assert false;
    } else {
      assert StepAt(states, acts, t - 1);
      var step := acts[t - 1].step;
      if a in states[t - 1].approvals {
        u := ApprovalsWereValidated(states, acts, t - 1, a);
      } else {
        u := t - 1;
        ApprovalsFromProposals(states[t - 1], acts[t - 1].node, step);
      }
    }
  }

  lemma ApprovalsFromProposals(s: State, i: NodeId, step: Step)
    requires Enabled(s, i, step)
    ensures step.OnProposal? || Next(s, i, step).approvals == s.approvals
  {
  }

  /** Quorum and links: every block of the log points at its predecessor (or at Genesis) and
      carries more than N/2 distinct signers, each of which is the leader that proposed it or a
      node that earlier validated exactly this proposal. */
  lemma QuorumAndLinks(states: seq<State>, acts: seq<Act>, t: nat, k: nat)
    requires Run(states, acts) && t < |states| && k < |states[t].finals|
    ensures var s := states[t]; var b := s.finals[k].block;
            && WellFormed(s)
            && b.prev == (if k == 0 then Genesis else Of(s.finals[k - 1].block))
            && |b.vals.Keys| > |s.nodes| / 2
            && (forall a :: a in b.vals.Keys ==>
                  a == s.addrs[k % |s.nodes|] || exists u: nat :: u < t && Validated(states, acts, u, a, b.prev, b.payload))
  {
    RunInv(states, acts, t);
    var s := states[t];
    var b := s.finals[k].block;
    assert FinalOk(s, k);
    forall a | a in b.vals.Keys
      ensures a == s.addrs[k % |s.nodes|] || exists u: nat :: u < t && Validated(states, acts, u, a, b.prev, b.payload)
    {
      assert Signed(s, k, a, b.prev, b.payload);
      if a != s.addrs[k % |s.nodes|] {
        var u := ApprovalsWereValidated(states, acts, t, Approval(a, b.prev, b.payload));
      }
    }
  }

  /** Causal delivery is exactly what agreement needs: pushing the block of FINAL_BLOCK k, which
      node i has not received, leaves its chain a prefix of the log if and only if everything its
      sender had received before has been received here. */
  lemma CausalExactly(states: seq<State>, acts: seq<Act>, t: nat, i: NodeId, k: nat)
    requires Run(states, acts) && t < |states| && i < |states[t].nodes|
    requires k < |states[t].finals| && k !in states[t].nodes[i].received
    ensures var s := states[t];
            s.nodes[i].chain + [s.finals[k].block] <= Log(s.finals, |s.finals|)
            <==> s.finals[k].past <= s.nodes[i].received
  {
    RunInv(states, acts, t);
    var s := states[t];
    var n := |s.nodes[i].chain|;
    assert NodeOk(s, i) && FinalOk(s, k);
    PrevDepth(s, k + 1);
    PrevDepth(s, n + 1);
    assert PrevAt(s.finals, k + 1) == Of(s.finals[k].block) && PrevAt(s.finals, n + 1) == Of(s.finals[n].block);
    var longer := s.nodes[i].chain + [s.finals[k].block];
    assert longer[n] == s.finals[k].block;
    if longer <= Log(s.finals, |s.finals|) {
      assert s.finals[k].block == s.finals[n].block;
    }
    if s.finals[k].past <= s.nodes[i].received {
      FinalsInOrder(s, i, k);
      assert longer == Log(s.finals, n + 1);
    }
  }
}
