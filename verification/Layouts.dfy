/** Parsing from the other side: what a buffer must hold for the constructors and parsers to accept it,
    and the wire format of a proposal.
 */
module Layouts {
  import opened Words
  import opened Options
  import opened Permutations
  import opened Bytes
  import opened Buffers
  import opened Summaries
  import opened Codec
  import opened Blocks
  import opened Proposals
  import opened TierOne

  // ---------------------------------------------------------------------------------
  // Addresses and signatures
  // ---------------------------------------------------------------------------------

  /** The Signature constructor makes only signatures: from one as it is, or from the bytes after the
      type; everything else it refuses. */
  lemma MadeSignature(raw: seq<byte>, sig: seq<byte>)
    ensures MakeSignature(raw) == Some(sig) <==> IsSignature(sig) && (raw == sig || raw == sig[1..])
  {
    if IsSignature(sig) { assert sig == [sig[0]] + sig[1..]; }
  }

  /** The Address constructor likewise, but it keeps what it cannot use. */
  lemma MadeAddress(raw: seq<byte>)
    ensures var a := MakeAddress(raw);
      if IsAddress(raw) || |raw| !in {WALLET_ADDR_SIZE, NODE_ADDR_SIZE} then a == raw else IsAddress(a) && raw == a[1..]
  {
  }

  // ---------------------------------------------------------------------------------
  // Tier 1 transactions in a buffer
  // ---------------------------------------------------------------------------------

  /** At any offset and whatever follows, the next Tier 1 transaction is cut exactly where it ends; if
      the buffer ends before it does, nothing is cut. */
  lemma NextTier1(d: seq<byte>, o: nat, tx: seq<byte>, part: nat)
    requires |d| < HALF && Framed(tx) && U64 <= part <= |tx| < HALF
    requires Has(d, o, tx[..part]) && (part < |tx| ==> o + part == |d|)
    ensures NextT1Transaction(d, o) == if part == |tx| then Ok(tx, o + |tx|) else Ok([], o)
  {
    assert d[o..o + U64] == d[o..o + part][..U64] == tx[..U64];
    assert tx[..|tx|] == tx;
  }

  /** getNextTransaction cuts a Tier 1 transaction too, unless the bytes where a Tier 2 transaction has
      its nonce size and its operation could be those of one. */
  lemma TierOneRecognised(d: seq<byte>, o: nat, tx: seq<byte>)
    requires |d| < HALF && Framed(tx) && Has(d, o, tx)
    requires |d| < o + TX_MIN_SIZE || LeValue(tx[U64..2 * U64]) < MIN_NONCE_SIZE || tx[OPERATION_OFFSET] >= NUM_OPERATIONS
    ensures NextTransaction(d, o) == Ok(tx, o + |tx|)
  {
    assert tx[..|tx|] == tx;
    NextTier1(d, o, tx, |tx|);
    Inside(d, o, tx, U64, 2 * U64);
    Inside(d, o, tx, OPERATION_OFFSET, OPERATION_OFFSET + 1);
    assert d[o + OPERATION_OFFSET..o + OPERATION_OFFSET + 1][0] == tx[OPERATION_OFFSET..OPERATION_OFFSET + 1][0];
  }

  lemma Inside(d: seq<byte>, o: nat, code: seq<byte>, i: nat, j: nat)
    requires Has(d, o, code) && i <= j <= |code|
    ensures d[o + i..o + j] == code[i..j]
  {
    assert code == code[..i] + (code[i..j] + code[j..]);
    HasSplit(d, o, code[..i], code[i..j] + code[j..]);
    HasSplit(d, o + i, code[i..j], code[j..]);
  }

  // ---------------------------------------------------------------------------------
  // What a block is read from
  // ---------------------------------------------------------------------------------

  /** What the reader returns are the bytes it passes over. */
  ghost predicate Slices(read: (seq<byte>, nat) -> Result<seq<byte>>, d: seq<byte>)
  {
    forall o: nat :: SliceAt(read, d, o)
  }

  predicate SliceAt(read: (seq<byte>, nat) -> Result<seq<byte>>, d: seq<byte>, o: nat)
  {
    var r := read(d, o); r.Ok? && r.next > o ==> r.next <= |d| && r.value == d[o..r.next]
  }

  lemma NextSlices(d: seq<byte>)
    ensures Slices(NextTransaction, d)
  {
    forall o: nat ensures SliceAt(NextTransaction, d, o) { NextIsSlice(d, o); }
  }

  lemma NextIsSlice(d: seq<byte>, o: nat)
    ensures SliceAt(NextTransaction, d, o)
  {
  }

  lemma {:induction false} LoopIsSlice(read: (seq<byte>, nat) -> Result<seq<byte>>, d: seq<byte>, start: nat, o: nat,
      end: nat, acc: seq<seq<byte>>)
    requires Slices(read, d) && start <= o <= |d| && Chain(acc) == d[start..o] && ReadLoop(read, d, o, end, acc).Ok?
    ensures var r := ReadLoop(read, d, o, end, acc); end <= r.next <= |d| && Chain(r.value) == d[start..r.next]
    decreases end - o
  {
    if o < end {
      var one := read(d, o);
      assert SliceAt(read, d, o);
      ChainSnoc(acc, one.value);
      assert d[start..one.next] == d[start..o] + d[o..one.next];
      LoopIsSlice(read, d, start, one.next, end, acc + [one.value]);
    }
  }

  lemma {:induction false} ChainSnoc(xs: seq<seq<byte>>, x: seq<byte>)
    ensures Chain(xs + [x]) == Chain(xs) + x
  {
    if xs == [] {
      assert [] + [x] == [x] && Chain([x]) == x + Chain([]);
    } else {
      assert (xs + [x])[1..] == xs[1..] + [x];
      ChainSnoc(xs[1..], x);
    }
  }

  lemma FieldIs(d: seq<byte>, o: nat, n: nat)
    requires o + n <= |d|
    ensures LeBytes(LeValue(d[o..o + n]), n) == d[o..o + n]
  {
    LeInverse(d[o..o + n]);
  }

  lemma HeaderIs(d: seq<byte>, o: nat)
    requires ReadHeader(d, o).Ok?
    ensures o + MIN_SIZE <= |d| && HeaderBytes(ReadHeader(d, o).value) == d[o..o + MIN_SIZE]
  {
    FieldIs(d, o + 1, U64);
    FieldIs(d, o + 9, U64);
    FieldIs(d, o + 81, U64);
    FieldIs(d, o + 89, U64);
    FieldIs(d, o + 97, U32);
    Pieces(d, o);
  }

  lemma Pieces(d: seq<byte>, o: nat)
    requires o + MIN_SIZE <= |d| && d[o] == 0
    ensures d[o..o + MIN_SIZE]
         == [0] + (d[o + 1..o + 9] + (d[o + 9..o + 17] + (d[o + 17..o + 49] + (d[o + 49..o + 81]
            + (d[o + 81..o + 89] + (d[o + 89..o + 97] + d[o + 97..o + 101]))))))
  {
  }

  /** Whatever the buffer: a block that FinalBlock::Create reads from it has version 0 and no more bytes
      than the buffer, its header and transactions are the bytes that stand there, and the
      transactions reach at least as far as the header says. */
  lemma BlockLayout(d: seq<byte>, o: nat)
    requires ReadBlock(d, o).Ok?
    ensures Stands(d, o, ReadBlock(d, o).value)
  {
    StandsWith(ReadSummary, ReadVal, d, o);
  }

  ghost predicate Stands(d: seq<byte>, o: nat, b: FinalBlock)
  {
    var code := HeaderBytes(b.head) + Chain(b.txs);
    Has(d, o, code) && d[o] == 0 && b.head.numBytes <= |d| && Wrap(o + MIN_SIZE + b.head.txSize) <= o + |code|
  }

  lemma StandsWith(readSum: (seq<byte>, nat) -> Result<Summary>, readVal: (seq<byte>, nat) -> Result<(Address, seq<byte>)>,
                   d: seq<byte>, o: nat)
    requires ReadBlockWith(NextTransaction, readSum, readVal, d, o).Ok?
    ensures Stands(d, o, ReadBlockWith(NextTransaction, readSum, readVal, d, o).value)
  {
    var h, txs := ReadParts(NextTransaction, readSum, readVal, d, o);
    HeaderIs(d, o);
    TxsAreSlice(d, o + MIN_SIZE, Wrap(o + MIN_SIZE + h.txSize), txs);
    TxsStand(d, o, HeaderBytes(h), o + MIN_SIZE, Chain(txs.value), txs.next);
  }

  lemma ReadParts(
    readTx: (seq<byte>, nat) -> Result<seq<byte>>, readSum: (seq<byte>, nat) -> Result<Summary>,
    readVal: (seq<byte>, nat) -> Result<(Address, seq<byte>)>, d: seq<byte>, o: nat) returns (h: Header, txs: Result<seq<seq<byte>>>)
    requires ReadBlockWith(readTx, readSum, readVal, d, o).Ok?
    ensures ReadHeader(d, o) == Ok(h, o + MIN_SIZE) && h.numBytes <= |d|
    ensures txs == ReadLoop(readTx, d, o + MIN_SIZE, Wrap(o + MIN_SIZE + h.txSize), []) && txs.Ok?
    ensures var b := ReadBlockWith(readTx, readSum, readVal, d, o).value; b.head == h && b.txs == txs.value
  {
    h := CheckedHeader(d, o).value;
    txs := BodyTxs(readTx, readSum, readVal, d, o + MIN_SIZE, Wrap(o + MIN_SIZE + h.txSize), h.valCount);
  }

  lemma BodyTxs<S, A, V>(
    readTx: (seq<byte>, nat) -> Result<seq<byte>>, readSum: (seq<byte>, nat) -> Result<S>,
    readVal: (seq<byte>, nat) -> Result<(A, V)>, d: seq<byte>, o: nat, end: nat, valCount: nat) returns (txs: Result<seq<seq<byte>>>)
    requires ReadBody(readTx, readSum, readVal, d, o, end, valCount).Ok?
    ensures txs == ReadLoop(readTx, d, o, end, []) && txs.Ok?
    ensures ReadBody(readTx, readSum, readVal, d, o, end, valCount).value.0 == txs.value
  {
    txs := ReadLoop(readTx, d, o, end, []);
  }

  lemma TxsAreSlice(d: seq<byte>, start: nat, end: nat, txs: Result<seq<seq<byte>>>)
    requires start <= |d| && txs == ReadLoop(NextTransaction, d, start, end, []) && txs.Ok?
    ensures start <= txs.next <= |d| && end <= txs.next && Chain(txs.value) == d[start..txs.next]
  {
    assert Chain([]) == d[start..start];
    NextSlices(d);
    LoopIsSlice(NextTransaction, d, start, start, end, []);
  }

  lemma TxsStand(d: seq<byte>, o: nat, head: seq<byte>, start: nat, txs: seq<byte>, next: nat)
    requires o <= start <= next <= |d| && head == d[o..start] && txs == d[start..next]
    ensures Has(d, o, head + txs) && next == o + |head + txs|
  {
  }

  // ---------------------------------------------------------------------------------
  // Proposals on the wire
  // ---------------------------------------------------------------------------------

  /** ProposedBlock::Create on a whole buffer, for a way of reading transactions. */
  function ReadProposal(readTx: (seq<byte>, nat) -> Result<seq<byte>>, d: seq<byte>): Result<Proposal>
  {
    ReadProposalWith(readTx, ReadSummary, ReadPairs, d)
  }

  function ReadProposalWith(
    readTx: (seq<byte>, nat) -> Result<seq<byte>>, readSum: (seq<byte>, nat) -> Result<Summary>,
    readVals: (seq<byte>, nat) -> Result<Validations>, d: seq<byte>): Result<Proposal>
  {
    if |d| < PROPOSAL_MIN_SIZE || d[0] != 0 || |d| != LeValue(d[1..9]) then Failed
    else
      var txSize := LeValue(d[41..49]);
      var txs := ReadLoop(readTx, d, PROPOSAL_MIN_SIZE, Wrap(PROPOSAL_MIN_SIZE + txSize), []);
      if txs.Failed? then Failed
      else if txs.Diverged? then Diverged
      else
        var summary := readSum(d, txs.next);
        if !summary.Ok? then Failed
        else
          var vals := readVals(d, summary.next);
          if !vals.Ok? then Failed
          else
            var sumSize, valCount := LeValue(d[49..57]), LeValue(d[57..61]);
            Ok(Proposal(|d|, d[9..41], txSize, sumSize, valCount, txs.value, summary.value, vals.value), vals.next)
  }

  function ProposalHead(p: Proposal): seq<byte>
  {
    [0] + (LeBytes(p.numBytes, U64) + (p.prev
        + (LeBytes(p.txSize, U64) + (LeBytes(p.sumSize, U64) + LeBytes(p.valCount, U32)))))
  }

  lemma CanonicalIs(p: Proposal)
    ensures Canonical(p) == ProposalHead(p) + (Chain(p.txs) + (SummaryBytes(p.summary) + ValsBytes(p.vals)))
  {
  }

  /** The fields of the proposal stand at the front. */
  predicate HeadStands(d: seq<byte>, p: Proposal)
  {
    && |d| >= PROPOSAL_MIN_SIZE && d[0] == 0 && LeValue(d[1..9]) == p.numBytes && d[9..41] == p.prev
    && LeValue(d[41..49]) == p.txSize && LeValue(d[49..57]) == p.sumSize && LeValue(d[57..61]) == p.valCount
  }

  lemma HeadOf(d: seq<byte>, p: Proposal, rest: seq<byte>)
    requires d == ProposalHead(p) + rest && |p.prev| == HASH_SIZE
    requires p.numBytes < WORD && p.txSize < WORD && p.sumSize < WORD && p.valCount < 0x1_0000_0000
    ensures HeadStands(d, p) && Has(d, PROPOSAL_MIN_SIZE, rest) && |d| == PROPOSAL_MIN_SIZE + |rest|
  {
    HasSelf(d);
    HasSplit(d, 0, ProposalHead(p), rest);
    HeadHas(d, p);
  }

  lemma HeadHas(d: seq<byte>, p: Proposal)
    requires Has(d, 0, ProposalHead(p)) && |p.prev| == HASH_SIZE
    requires p.numBytes < WORD && p.txSize < WORD && p.sumSize < WORD && p.valCount < 0x1_0000_0000
    ensures |ProposalHead(p)| == PROPOSAL_MIN_SIZE && HeadStands(d, p)
  {
    var sizes := LeBytes(p.txSize, U64) + (LeBytes(p.sumSize, U64) + LeBytes(p.valCount, U32));
    HasSplit(d, 0, [0], LeBytes(p.numBytes, U64) + (p.prev + sizes));
    HasSplit(d, 1, LeBytes(p.numBytes, U64), p.prev + sizes);
    HasSplit(d, 9, p.prev, sizes);
    HasSplit(d, 41, LeBytes(p.txSize, U64), LeBytes(p.sumSize, U64) + LeBytes(p.valCount, U32));
    HasSplit(d, 49, LeBytes(p.sumSize, U64), LeBytes(p.valCount, U32));
    assert d[0] == d[0..1][0];
    Powers();
    LeRoundTrip(p.numBytes, U64);
    LeRoundTrip(p.txSize, U64);
    LeRoundTrip(p.sumSize, U64);
    LeRoundTrip(p.valCount, U32);
  }

  lemma PairsAt(d: seq<byte>, o: nat, vals: Validations, code: seq<byte>)
    requires Has(d, o, code) && |d| == o + |code| && |code| == |vals| * PAIR_SIZE && MapDecodes(ReadVal, code, vals)
    ensures ReadPairs(d, o) == Ok(vals, |d|)
  {
    PairCount(|vals|);
  }

  /** The parts of the body are read by these readers, one after the other. */
  ghost predicate Reads(
    readTx: (seq<byte>, nat) -> Result<seq<byte>>, readSum: (seq<byte>, nat) -> Result<Summary>,
    readVals: (seq<byte>, nat) -> Result<Validations>, d: seq<byte>, p: Proposal, n: nat)
  {
    var o := PROPOSAL_MIN_SIZE + |Chain(p.txs)|;
    && ReadLoop(readTx, d, PROPOSAL_MIN_SIZE, o, []) == Ok(p.txs, o)
    && readSum(d, o) == Ok(p.summary, n) && readVals(d, n) == Ok(p.vals, |d|)
  }

  lemma BodyReads(
    readTx: (seq<byte>, nat) -> Result<seq<byte>>, readSum: (seq<byte>, nat) -> Result<Summary>,
    readVals: (seq<byte>, nat) -> Result<Validations>, d: seq<byte>, p: Proposal, sum: seq<byte>, vals: seq<byte>)
    requires Has(d, PROPOSAL_MIN_SIZE, Chain(p.txs) + (sum + vals))
    requires forall i :: 0 <= i < |p.txs| ==> p.txs[i] != [] && ReadsIn(readTx, d, p.txs[i], p.txs[i])
    requires DecodesTo(readSum, sum, p.summary)
    requires forall o: nat :: Has(d, o, vals) && o + |vals| == |d| ==> readVals(d, o) == Ok(p.vals, |d|)
    requires |d| == PROPOSAL_MIN_SIZE + |Chain(p.txs)| + |sum| + |vals|
    ensures Reads(readTx, readSum, readVals, d, p, PROPOSAL_MIN_SIZE + |Chain(p.txs)| + |sum|)
  {
    HasSplit(d, PROPOSAL_MIN_SIZE, Chain(p.txs), sum + vals);
    HasSplit(d, PROPOSAL_MIN_SIZE + |Chain(p.txs)|, sum, vals);
    ReadLoopHas(readTx, d, PROPOSAL_MIN_SIZE, p.txs, p.txs, []);
    assert [] + p.txs == p.txs;
  }

  /** What a peer can read of a proposal. */
  ghost predicate Sendable(p: Proposal)
  {
    && Tied(p) && p.valCount == |p.vals| && p.numBytes < HALF && p.valCount < 0x1_0000_0000
    && Storable(p.summary) && (forall a :: a in p.vals ==> IsAddress(a) && IsSignature(p.vals[a]))
  }

  /** A proposal is read back from its canonical bytes by any reader that reads its transactions. */
  lemma ProposalRoundTrip(readTx: (seq<byte>, nat) -> Result<seq<byte>>, p: Proposal)
    requires Sendable(p) && forall i :: 0 <= i < |p.txs| ==>
        p.txs[i] != [] && ReadsIn(readTx, Canonical(p), p.txs[i], p.txs[i])
    ensures ReadProposal(readTx, Canonical(p)) == Ok(p, |Canonical(p)|)
  {
    var d, sum, vals := Canonical(p), SummaryBytes(p.summary), ValsBytes(p.vals);
    SizeExactly(p);
    CanonicalIs(p);
    SummaryRoundTrip(p.summary);
    ValsDecode(p.vals);
    ValsSize(p.vals);
    PairsDecode(d, p.vals, vals);
    ReadsParts(readTx, ReadSummary, ReadPairs, d, p, sum, vals);
  }

  lemma ReadsParts(
    readTx: (seq<byte>, nat) -> Result<seq<byte>>, readSum: (seq<byte>, nat) -> Result<Summary>,
    readVals: (seq<byte>, nat) -> Result<Validations>, d: seq<byte>, p: Proposal, sum: seq<byte>, vals: seq<byte>)
    requires d == ProposalHead(p) + (Chain(p.txs) + (sum + vals)) && |d| == p.numBytes < HALF
    requires |p.prev| == HASH_SIZE && p.txSize == |Chain(p.txs)| && p.sumSize == |sum| && p.valCount < 0x1_0000_0000
    requires forall i :: 0 <= i < |p.txs| ==> p.txs[i] != [] && ReadsIn(readTx, d, p.txs[i], p.txs[i])
    requires DecodesTo(readSum, sum, p.summary)
    requires forall o: nat :: Has(d, o, vals) && o + |vals| == |d| ==> readVals(d, o) == Ok(p.vals, |d|)
    ensures ReadProposalWith(readTx, readSum, readVals, d) == Ok(p, |d|)
  {
    HeadOf(d, p, Chain(p.txs) + (sum + vals));
    BodyReads(readTx, readSum, readVals, d, p, sum, vals);
    ReadsWhole(readTx, readSum, readVals, d, p, PROPOSAL_MIN_SIZE + |Chain(p.txs)| + |sum|);
  }

  lemma PairsDecode(d: seq<byte>, vals: Validations, code: seq<byte>)
    requires |code| == |vals| * PAIR_SIZE && MapDecodes(ReadVal, code, vals)
    ensures forall o: nat :: Has(d, o, code) && o + |code| == |d| ==> ReadPairs(d, o) == Ok(vals, |d|)
  {
    forall o: nat | Has(d, o, code) && o + |code| == |d| ensures ReadPairs(d, o) == Ok(vals, |d|) { PairsAt(d, o, vals, code); }
  }

  lemma ReadsWhole(
    readTx: (seq<byte>, nat) -> Result<seq<byte>>, readSum: (seq<byte>, nat) -> Result<Summary>,
    readVals: (seq<byte>, nat) -> Result<Validations>, d: seq<byte>, p: Proposal, n: nat)
    requires |d| == p.numBytes && HeadStands(d, p)
    requires p.txSize == |Chain(p.txs)| && PROPOSAL_MIN_SIZE + p.txSize < WORD && Reads(readTx, readSum, readVals, d, p, n)
    ensures ReadProposalWith(readTx, readSum, readVals, d) == Ok(p, |d|)
  {
  }

  /** With the reader of final blocks, every proposal of Tier 2 transactions comes back. */
  lemma ProposalReadsBack(p: Proposal)
    requires Sendable(p) && forall tx :: tx in p.txs ==> IsTier2(tx)
    ensures ReadProposal(NextTransaction, Canonical(p)) == Ok(p, |Canonical(p)|)
  {
    SizeExactly(p);
    forall i | 0 <= i < |p.txs| ensures p.txs[i] != [] && ReadsIn(NextTransaction, Canonical(p), p.txs[i], p.txs[i]) {
      assert p.txs[i] in p.txs;
      TxReadsIn(Canonical(p), p.txs[i]);
    }
    ProposalRoundTrip(NextTransaction, p);
  }

  lemma {:induction false} LoopKeeps<T>(read: (seq<byte>, nat) -> Result<T>, d: seq<byte>, o: nat, end: nat, acc: seq<T>)
    requires ReadLoop(read, d, o, end, acc).Ok?
    ensures acc <= ReadLoop(read, d, o, end, acc).value
    decreases end - o
  {
    if o < end {
      var one := read(d, o);
      LoopKeeps(read, d, one.next, end, acc + [one.value]);
    }
  }

  /** The peers read the transactions of a proposal with Fill, and so never get back one that has any. */
  lemma FillMisreads(p: Proposal)
    requires Sendable(p) && p.txs != [] && forall tx :: tx in p.txs ==> IsTier2(tx)
    ensures var r := ReadProposal(Fill, Canonical(p)); r.Ok? ==> r.value.txs != p.txs
  {
    SizeExactly(p);
    CanonicalIs(p);
    FillMisreadsFirst(ReadSummary, ReadPairs, Canonical(p), p, SummaryBytes(p.summary) + ValsBytes(p.vals));
  }

  lemma FillMisreadsFirst(readSum: (seq<byte>, nat) -> Result<Summary>, readVals: (seq<byte>, nat) -> Result<Validations>,
                          d: seq<byte>, p: Proposal, rest: seq<byte>)
    requires d == ProposalHead(p) + (Chain(p.txs) + rest) && p.txs != [] && |p.prev| == HASH_SIZE && |d| < HALF
    requires p.numBytes < HALF && p.txSize == |Chain(p.txs)| && p.sumSize < WORD && p.valCount < 0x1_0000_0000
             && IsTier2(p.txs[0])
    ensures var r := ReadProposalWith(Fill, readSum, readVals, d); r.Ok? ==> r.value.txs != p.txs
  {
    FirstTxStands(d, p, rest);
    FirstIsFilled(d, p.txs[0]);
    assert |Chain(p.txs)| <= |d|;
    FirstIsShort(Fill, readSum, readVals, d, PROPOSAL_MIN_SIZE + p.txSize, p.txs[0]);
  }

  lemma FirstIsFilled(d: seq<byte>, tx: seq<byte>)
    requires |d| < HALF && Has(d, PROPOSAL_MIN_SIZE, tx) && IsTier2(tx)
    ensures |tx| >= 2 && Fill(d, PROPOSAL_MIN_SIZE) == Ok(tx[..|tx| - 1], PROPOSAL_MIN_SIZE + |tx| - 1)
  {
    FillDropsLastByte(d, PROPOSAL_MIN_SIZE, tx);
  }

  lemma FirstTxStands(d: seq<byte>, p: Proposal, rest: seq<byte>)
    requires d == ProposalHead(p) + (Chain(p.txs) + rest) && p.txs != [] && |p.prev| == HASH_SIZE
    requires p.numBytes < WORD && p.txSize < WORD && p.sumSize < WORD && p.valCount < 0x1_0000_0000
    ensures |d| >= PROPOSAL_MIN_SIZE && LeValue(d[41..49]) == p.txSize && Has(d, PROPOSAL_MIN_SIZE, p.txs[0])
    ensures |Chain(p.txs)| >= |p.txs[0]|
  {
    HeadOf(d, p, Chain(p.txs) + rest);
    HasSplit(d, PROPOSAL_MIN_SIZE, Chain(p.txs), rest);
    HasSplit(d, PROPOSAL_MIN_SIZE, p.txs[0], Chain(p.txs[1..]));
  }

  lemma FirstIsShort(
    readTx: (seq<byte>, nat) -> Result<seq<byte>>, readSum: (seq<byte>, nat) -> Result<Summary>,
    readVals: (seq<byte>, nat) -> Result<Validations>, d: seq<byte>, end: nat, tx: seq<byte>)
    requires |d| >= PROPOSAL_MIN_SIZE && PROPOSAL_MIN_SIZE < end < WORD && end == PROPOSAL_MIN_SIZE + LeValue(d[41..49])
    requires |tx| >= 2 && readTx(d, PROPOSAL_MIN_SIZE) == Ok(tx[..|tx| - 1], PROPOSAL_MIN_SIZE + |tx| - 1)
    ensures var r := ReadProposalWith(readTx, readSum, readVals, d); r.Ok? ==> r.value.txs != [] && r.value.txs[0] != tx
  {
    var r := ReadProposalWith(readTx, readSum, readVals, d);
    if r.Ok? {
      var one := readTx(d, PROPOSAL_MIN_SIZE);
      LoopKeeps(readTx, d, one.next, end, [] + [one.value]);
      assert ([] + [one.value])[0] == r.value.txs[0];
    }
  }

  /** What was proposed is what is finalised, also after a round trip through the bytes of the block. */
  lemma FinalisedReadsBack(p: Proposal, time: nat, merkle: seq<byte>, d: seq<byte>, o: nat)
    requires Sendable(p) && |merkle| == HASH_SIZE && p.numBytes + 40 < WORD && time < WORD
    requires forall tx :: tx in p.txs ==> IsTier2(tx)
    requires |d| < HALF && Has(d, o, BlockBytes(Finalise(p, time, merkle)))
    ensures ReadBlock(d, o).Ok?
    ensures var b := ReadBlock(d, o).value;
      b.txs == p.txs && b.summary == p.summary && b.vals == p.vals && b.head.prev == p.prev
          && b.head.merkle == merkle && b.head.time == time
  {
    FinalisedIsWellFormed(p, time, merkle);
    BlockRoundTrip(d, o, Finalise(p, time, merkle));
  }
}
