/** ProposedBlock and its byte counts: construction, signing, merging validations, nulling, and
    the FinalBlock made from it. Counts are unbounded here.
 */
module Proposals {
  import opened Words
  import opened Permutations
  import opened Bytes
  import opened Buffers
  import opened Options
  import opened Summaries
  import opened Codec
  import opened Blocks

  const PROPOSAL_MIN_SIZE := 61
  const PAIR_SIZE := 156
  const MIN_VALIDATION_SIZE := HASH_SIZE + 2 * PAIR_SIZE

  type Validations = map<Address, seq<byte>>

  datatype Proposal = Proposal(numBytes: nat, prev: seq<byte>, txSize: nat, sumSize: nat, valCount: nat,
                               txs: seq<seq<byte>>, summary: Summary, vals: Validations)

  /** A node address and a node signature, which is all that addValidation accepts. */
  predicate NodePair(a: Address, sig: seq<byte>)
  {
    |a| == NODE_ADDR_SIZE + 1 && |sig| == NODE_SIG_SIZE + 1
  }

  predicate NodePairs(vals: Validations)
  {
    forall a :: a in vals ==> NodePair(a, vals[a])
  }

  predicate IsNull(p: Proposal)
  {
    p.numBytes < PROPOSAL_MIN_SIZE
  }

  function TotalSize(p: Proposal): nat
  {
    PROPOSAL_MIN_SIZE + p.txSize + p.sumSize + p.valCount * PAIR_SIZE
  }

  ghost function Construct(prev: seq<byte>, txs: seq<seq<byte>>, summary: Summary, vals: Validations): Proposal
  {
    var p := Proposal(0, prev, |Chain(txs)|, |SummaryBytes(summary)|, |vals|, txs, summary, vals);
    p.(numBytes := TotalSize(p))
  }

  /** signBlock counts one more validation, whether or not the signer is new. */
  function Sign(p: Proposal, a: Address, sig: seq<byte>): Option<Proposal>
  {
    if !NodePair(a, sig) then None
    else
      var q := p.(vals := Insert(p.vals, a, sig), valCount := p.valCount + 1);
      Some(q.(numBytes := TotalSize(q)))
  }

  /** What checkValidationData does with validations that name this proposal. */
  function Merge(p: Proposal, vals: Validations): Proposal
  {
    var q := p.(vals := vals + p.vals, valCount := |vals + p.vals|);
    q.(numBytes := TotalSize(q))
  }

  /** The pairs Validation::Create(buffer) reads: as many as the remaining size allows for. */
  function ReadPairs(d: seq<byte>, o: nat): Result<Validations>
  {
    if o > |d| then Failed else ReadMany(ReadVal, d, o, (|d| - o) / PAIR_SIZE, map[])
  }

  datatype Check = Check(proposal: Proposal, enough: bool) | Threw

  /** The decisions of checkValidationData, given what the rest of the buffer holds. */
  function Judge(p: Proposal, d: seq<byte>, vals: Result<Validations>, peers: nat): Check
  {
    if |d| < MIN_VALIDATION_SIZE then Check(p, false)
    else if d[..HASH_SIZE] != p.prev then Check(p, false)
    else if !vals.Ok? then Threw
    else Check(Merge(p, vals.value), |vals.value + p.vals| > peers / 2)
  }

  function CheckValidationData(p: Proposal, d: seq<byte>, peers: nat): Check
  {
    Judge(p, d, ReadPairs(d, HASH_SIZE), peers)
  }

  /** getCanonical and getValidationData. */
  ghost function Canonical(p: Proposal): seq<byte>
  {
    [0] + (LeBytes(p.numBytes, U64) + (p.prev + (LeBytes(p.txSize, U64) + (LeBytes(p.sumSize, U64)
      + (LeBytes(p.valCount, U32) + (Chain(p.txs) + (SummaryBytes(p.summary) + ValsBytes(p.vals))))))))
  }

  ghost function ValidationData(p: Proposal): seq<byte>
  {
    p.prev + ValsBytes(p.vals)
  }

  /** The constructor of FinalBlock from a proposal. */
  function Finalise(p: Proposal, time: nat, merkle: seq<byte>): FinalBlock
  {
    FinalBlock(Header(p.numBytes + 40, time, p.prev, merkle, p.txSize, p.sumSize, p.valCount), p.txs, p.summary, p.vals)
  }

  // ---------------------------------------------------------------------------------
  // Sizes
  // ---------------------------------------------------------------------------------

  lemma {:induction false} ChainSize(parts: seq<seq<byte>>, n: nat)
    requires forall i :: 0 <= i < |parts| ==> |parts[i]| == n
    ensures |Chain(parts)| == |parts| * n
    decreases |parts|
  {
    if parts != [] {
      ChainSize(parts[1..], n);
    }
  }

  lemma ValsSize(vals: Validations)
    requires NodePairs(vals)
    ensures |ValsBytes(vals)| == |vals| * PAIR_SIZE
  {
    var codes := Codes(ValBytes, AddressOrder(vals), vals);
    ChainSize(codes, PAIR_SIZE);
  }

  /** The counts a proposal keeps tell the sizes of its parts. */
  ghost predicate Tied(p: Proposal)
  {
    && |p.prev| == HASH_SIZE && NodePairs(p.vals)
    && p.txSize == |Chain(p.txs)| && p.sumSize == |SummaryBytes(p.summary)|
    && p.valCount >= |p.vals| && p.numBytes == TotalSize(p)
  }

  lemma CanonicalSize(p: Proposal)
    requires |p.prev| == HASH_SIZE && NodePairs(p.vals)
    ensures |Canonical(p)| == PROPOSAL_MIN_SIZE + |Chain(p.txs)| + |SummaryBytes(p.summary)| + |p.vals| * PAIR_SIZE
  {
    ValsSize(p.vals);
  }

  /** num_bytes is the length of the canonical bytes exactly when validations were counted once. */
  lemma SizeExactly(p: Proposal)
    requires Tied(p)
    ensures p.numBytes == |Canonical(p)| <==> p.valCount == |p.vals|
    ensures !IsNull(p)
  {
    CanonicalSize(p);
  }

  /** The same for the final block, whose header is 40 bytes longer. */
  lemma FinalSizeExactly(p: Proposal, time: nat, merkle: seq<byte>)
    requires Tied(p) && |merkle| == HASH_SIZE
    ensures var b := Finalise(p, time, merkle); b.head.numBytes == |BlockBytes(b)| <==> p.valCount == |p.vals|
  {
    ValsSize(p.vals);
    var b := Finalise(p, time, merkle);
    assert |HeaderBytes(b.head)| == MIN_SIZE;
  }

  datatype Op =
    | SignBy(addr: Address, sig: seq<byte>)
    | Receive(data: seq<byte>, peers: nat)
    | SetPrev(hash: seq<byte>)

  /** One operation on a proposal; a throw leaves it as it was. */
  function Do(p: Proposal, op: Op): Proposal
  {
    match op
    case SignBy(a, sig) => (var q := Sign(p, a, sig); if q.None? then p else q.value)
    case Receive(d, peers) => (var c := CheckValidationData(p, d, peers); if c.Threw? then p else c.proposal)
    case SetPrev(hash) => p.(prev := hash)
  }

  function DoAll(p: Proposal, ops: seq<Op>): Proposal
    decreases |ops|
  {
    if ops == [] then p else DoAll(Do(p, ops[0]), ops[1..])
  }

  ghost predicate NodesOnly(vals: Result<Validations>)
  {
    vals.Ok? ==> NodePairs(vals.value)
  }

  /** Validation data comes from proposals whose validations are pairs of nodes; hashes have 32 bytes. */
  ghost predicate FromNodes(op: Op)
  {
    match op
    case SignBy(_, _) => true
    case Receive(d, _) => NodesOnly(ReadPairs(d, HASH_SIZE))
    case SetPrev(hash) => |hash| == HASH_SIZE
  }

  lemma InsertSize<K, V>(m: map<K, V>, k: K, v: V)
    ensures |Insert(m, k, v)| == if k in m then |m| else |m| + 1
  {
  }

  lemma JudgeTied(p: Proposal, d: seq<byte>, vals: Result<Validations>, peers: nat)
    requires Tied(p) && NodesOnly(vals)
    ensures var c := Judge(p, d, vals, peers);
            c.Check? ==> Tied(c.proposal) && (p.valCount == |p.vals| ==> c.proposal.valCount == |c.proposal.vals|)
  {
  }

  lemma DoTied(p: Proposal, op: Op)
    requires Tied(p) && FromNodes(op)
    ensures Tied(Do(p, op))
  {
    match op
    case SignBy(a, sig) => InsertSize(p.vals, a, sig);
    case Receive(d, peers) => JudgeTied(p, d, ReadPairs(d, HASH_SIZE), peers);
    case SetPrev(_) =>
  }

  /** Signing keeps the size right if and only if it was right and the signer is new. */
  lemma SignExactly(p: Proposal, a: Address, sig: seq<byte>)
    requires Tied(p) && NodePair(a, sig)
    ensures var q := Sign(p, a, sig).value;
            q.numBytes == |Canonical(q)| <==> p.numBytes == |Canonical(p)| && a !in p.vals
  {
    InsertSize(p.vals, a, sig);
    DoTied(p, SignBy(a, sig));
    SizeExactly(p);
    SizeExactly(Sign(p, a, sig).value);
  }

  /** Signing adds the signer with the signature and keeps all validations present, its own included. */
  lemma SignKeeps(p: Proposal, a: Address, sig: seq<byte>)
    ensures Sign(p, a, sig).Some? <==> NodePair(a, sig)
    ensures NodePair(a, sig) ==> var q := Sign(p, a, sig).value;
      && q.vals.Keys == p.vals.Keys + {a} && (forall c :: c in p.vals ==> q.vals[c] == p.vals[c])
      && (a !in p.vals ==> q.vals[a] == sig)
  {
  }

  /** Merging makes it right again, whatever happened before. */
  lemma MergeRepairs(p: Proposal, vals: Validations)
    requires Tied(p) && NodePairs(vals)
    ensures Merge(p, vals).numBytes == |Canonical(Merge(p, vals))|
  {
    SizeExactly(Merge(p, vals));
  }

  /** No signature comes from a signer that is already in. */
  ghost predicate DistinctSigners(p: Proposal, ops: seq<Op>)
    decreases |ops|
  {
    ops == [] || ((ops[0].SignBy? ==> ops[0].addr !in p.vals) && DistinctSigners(Do(p, ops[0]), ops[1..]))
  }

  lemma DoCounts(p: Proposal, op: Op)
    requires Tied(p) && FromNodes(op) && p.valCount == |p.vals| && (op.SignBy? ==> op.addr !in p.vals)
    ensures Do(p, op).valCount == |Do(p, op).vals|
  {
    match op
    case SignBy(a, sig) => InsertSize(p.vals, a, sig);
    case Receive(d, peers) => JudgeTied(p, d, ReadPairs(d, HASH_SIZE), peers);
    case SetPrev(_) =>
  }

  lemma {:induction false} SizesAlongRun(p: Proposal, ops: seq<Op>)
    requires Tied(p) && p.valCount == |p.vals| && DistinctSigners(p, ops) && forall op :: op in ops ==> FromNodes(op)
    ensures Tied(DoAll(p, ops)) && DoAll(p, ops).valCount == |DoAll(p, ops).vals|
    decreases |ops|
  {
    if ops != [] {
      var q := Do(p, ops[0]);
      DoTied(p, ops[0]);
      DoCounts(p, ops[0]);
      SizesAlongRun(q, ops[1..]);
    }
  }

  /** Size bookkeeping: after construction and any sequence of signatures by distinct nodes,
      received validation data and re-parenting, num_bytes is the length of the canonical bytes,
      and the final block's count the length of its own. */
  lemma SizeBookkeeping(prev: seq<byte>, txs: seq<seq<byte>>, summary: Summary, vals: Validations, ops: seq<Op>,
                        time: nat, merkle: seq<byte>)
    requires |prev| == HASH_SIZE && |merkle| == HASH_SIZE && NodePairs(vals)
    requires DistinctSigners(Construct(prev, txs, summary, vals), ops) && forall op :: op in ops ==> FromNodes(op)
    ensures var p := DoAll(Construct(prev, txs, summary, vals), ops); var b := Finalise(p, time, merkle);
            !IsNull(p) && p.numBytes == |Canonical(p)| && b.head.numBytes == |BlockBytes(b)|
  {
    var p := Construct(prev, txs, summary, vals);
    SizesAlongRun(p, ops);
    SizeExactly(DoAll(p, ops));
    FinalSizeExactly(DoAll(p, ops), time, merkle);
  }

  /** What a peer's getValidationData carries is what is merged here. */
  lemma ValidationDataRoundTrip(p: Proposal, q: Proposal, peers: nat)
    requires Tied(q) && q.prev == p.prev && |q.vals| >= 2
    requires forall a :: a in q.vals ==> IsAddress(a) && IsSignature(q.vals[a])
    ensures CheckValidationData(p, ValidationData(q), peers) == Check(Merge(p, q.vals), |q.vals + p.vals| > peers / 2)
  {
    var d := ValidationData(q);
    ValsSize(q.vals);
    ValsDecode(q.vals);
    HasSelf(d);
    HasSplit(d, 0, q.prev, ValsBytes(q.vals));
    PairsThere(d, q.vals, ValsBytes(q.vals));
    assert d[..HASH_SIZE] == q.prev;
  }

  /** Validation data counts for a proposal only if it names its previous hash and can be read; then
      the validations present are kept, those of new signers are added, and the answer is whether
      they are more than half of the peers. All other data leaves the proposal as it was. */
  lemma JudgedExactly(p: Proposal, d: seq<byte>, peers: nat)
    requires |p.prev| == HASH_SIZE
    ensures var c, pairs := CheckValidationData(p, d, peers), ReadPairs(d, HASH_SIZE);
      var names := |d| >= MIN_VALIDATION_SIZE && p.prev <= d;
      && (c.Threw? <==> names && !pairs.Ok?)
      && (!names ==> c == Check(p, false))
      && (names && pairs.Ok? ==>
            && c.proposal.vals.Keys == p.vals.Keys + pairs.value.Keys
            && (forall a :: a in c.proposal.vals ==> c.proposal.vals[a] == if a in p.vals then p.vals[a] else pairs.value[a])
            && (c.enough <==> |p.vals.Keys + pairs.value.Keys| > peers / 2)
            && c.proposal == p.(vals := c.proposal.vals, valCount := c.proposal.valCount, numBytes := c.proposal.numBytes))
  {
    assert |d| >= HASH_SIZE ==> (d[..HASH_SIZE] == p.prev <==> p.prev <= d);
    if ReadPairs(d, HASH_SIZE).Ok? {
      var merged := ReadPairs(d, HASH_SIZE).value + p.vals;
      assert merged.Keys == p.vals.Keys + ReadPairs(d, HASH_SIZE).value.Keys && |merged.Keys| == |merged|;
    }
  }

  /** In particular, validations for a proposal with another previous hash are ignored. */
  lemma OtherProposalIgnored(p: Proposal, q: Proposal, peers: nat)
    requires |p.prev| == |q.prev| == HASH_SIZE && q.prev != p.prev
    ensures CheckValidationData(p, ValidationData(q), peers) == Check(p, false)
  {
    JudgedExactly(p, ValidationData(q), peers);
    assert ValidationData(q)[..HASH_SIZE] == q.prev;
  }

  lemma PairsThere(d: seq<byte>, vals: Validations, code: seq<byte>)
    requires Has(d, HASH_SIZE, code) && |d| == HASH_SIZE + |code| && |code| == |vals| * PAIR_SIZE
    requires MapDecodes(ReadVal, code, vals)
    ensures ReadPairs(d, HASH_SIZE) == Ok(vals, |d|)
  {
    PairCount(|vals|);
  }

  lemma PairCount(n: nat)
    ensures n * PAIR_SIZE / PAIR_SIZE == n
  {
  }

  /** A finalised proposal is a block that FinalBlock::Create can read back. */
  lemma FinalisedIsWellFormed(p: Proposal, time: nat, merkle: seq<byte>)
    requires Tied(p) && p.valCount == |p.vals| && |merkle| == HASH_SIZE
    requires p.numBytes + 40 < WORD && time < WORD && p.valCount < 0x1_0000_0000
    requires forall tx :: tx in p.txs ==> IsTier2(tx)
    requires Storable(p.summary) && forall a :: a in p.vals ==> IsAddress(a) && IsSignature(p.vals[a])
    ensures WellFormed(Finalise(p, time, merkle))
  {
    FinalSizeExactly(p, time, merkle);
  }
}
