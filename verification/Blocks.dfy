/** Final blocks on the wire: canonical bytes, FinalBlock::Create, the dump of part of a chain
    and the loop that splits it again.
 */
module Blocks {
  import opened Words
  import opened Permutations
  import opened Bytes
  import opened Buffers
  import opened Options
  import opened Summaries
  import opened Codec

  const HASH_SIZE := 32
  const MIN_SIZE := 101

  datatype Header = Header(numBytes: nat, time: nat, prev: seq<byte>, merkle: seq<byte>,
                           txSize: nat, sumSize: nat, valCount: nat)

  /** A FinalBlock as FinalBlock::Create leaves it: transactions in raw form. */
  datatype FinalBlock = FinalBlock(head: Header, txs: seq<seq<byte>>, summary: Summary, vals: map<Address, seq<byte>>)

  // ---------------------------------------------------------------------------------
  // Encoding
  // ---------------------------------------------------------------------------------

  function SizesBytes(h: Header): (r: seq<byte>)
    ensures |r| == 2 * U64 + U32
  {
    LeBytes(h.txSize, U64) + (LeBytes(h.sumSize, U64) + LeBytes(h.valCount, U32))
  }

  function HeaderBytes(h: Header): seq<byte>
  {
    [0] + (LeBytes(h.numBytes, U64) + (LeBytes(h.time, U64) + (h.prev + (h.merkle + SizesBytes(h)))))
  }

  function ValBytes(a: Address, sig: seq<byte>): seq<byte>
  {
    a + sig
  }

  /** Validation::getCanonical. */
  ghost function ValsBytes(vals: map<Address, seq<byte>>): seq<byte>
  {
    Chain(Codes(ValBytes, AddressOrder(vals), vals))
  }

  /** FinalBlock::getCanonical. */
  ghost function BlockBytes(b: FinalBlock): seq<byte>
  {
    HeaderBytes(b.head) + (Chain(b.txs) + (SummaryBytes(b.summary) + ValsBytes(b.vals)))
  }

  predicate IsHeader(h: Header)
  {
    && h.numBytes < WORD && h.time < WORD && |h.prev| == HASH_SIZE && |h.merkle| == HASH_SIZE
    && h.txSize < WORD && h.sumSize < WORD && h.valCount < 0x1_0000_0000
  }

  /** A block whose counts agree with its contents and whose transactions are of Tier 2. */
  ghost predicate WellFormed(b: FinalBlock)
  {
    && IsHeader(b.head)
    && b.head.numBytes == |BlockBytes(b)| && b.head.txSize == |Chain(b.txs)| && b.head.valCount == |b.vals|
    && (forall tx :: tx in b.txs ==> IsTier2(tx))
    && Storable(b.summary)
    && (forall a :: a in b.vals ==> IsAddress(a) && IsSignature(b.vals[a]))
  }

  // ---------------------------------------------------------------------------------
  // Decoding
  // ---------------------------------------------------------------------------------

  function ReadHeader(d: seq<byte>, o: nat): Result<Header>
  {
    if o + MIN_SIZE > |d| || d[o] != 0 then Failed
    else
      Ok(Header(LeValue(d[o + 1..o + 9]), LeValue(d[o + 9..o + 17]), d[o + 17..o + 49], d[o + 49..o + 81],
                LeValue(d[o + 81..o + 89]), LeValue(d[o + 89..o + 97]), LeValue(d[o + 97..o + 101])), o + MIN_SIZE)
  }

  /** The header of a buffer that is long enough for it and for what it announces. */
  function CheckedHeader(d: seq<byte>, o: nat): Result<Header>
  {
    if |d| < MIN_SIZE then Failed
    else
      var h := ReadHeader(d, o);
      if !h.Ok? || |d| < h.value.numBytes then Failed else h
  }

  function ReadVal(d: seq<byte>, o: nat): Result<(Address, seq<byte>)>
  {
    var a := ReadAddress(d, o);
    if !a.Ok? then Failed
    else
      var sig := ReadSignature(d, a.next);
      if !sig.Ok? then Failed else Ok((a.value, sig.value), sig.next)
  }

  /** What follows the header: transactions, summary and validations, for any way of reading
      a transaction, a summary and a validation. */
  function ReadBody<S, A, V>(
    readTx: (seq<byte>, nat) -> Result<seq<byte>>, readSum: (seq<byte>, nat) -> Result<S>,
    readVal: (seq<byte>, nat) -> Result<(A, V)>, d: seq<byte>, o: nat, end: nat, valCount: nat)
    : Result<(seq<seq<byte>>, S, map<A, V>)>
  {
    var txs := ReadLoop(readTx, d, o, end, []);
    if txs.Failed? then Failed
    else if txs.Diverged? then Diverged
    else
      var summary := readSum(d, txs.next);
      if !summary.Ok? then Failed
      else
        var vals := ReadMany(readVal, d, summary.next, valCount, map[]);
        if !vals.Ok? then Failed else Ok((txs.value, summary.value, vals.value), vals.next)
  }

  function Assemble(h: Header, body: Result<(seq<seq<byte>>, Summary, map<Address, seq<byte>>)>): Result<FinalBlock>
  {
    match body
    case Failed => Failed
    case Diverged => Diverged
    case Ok(x, n) => Ok(FinalBlock(h, x.0, x.1, x.2), n)
  }

  /** FinalBlock::Create. Both size checks look at the whole buffer. */
  function ReadBlockWith(
    readTx: (seq<byte>, nat) -> Result<seq<byte>>, readSum: (seq<byte>, nat) -> Result<Summary>,
    readVal: (seq<byte>, nat) -> Result<(Address, seq<byte>)>, d: seq<byte>, o: nat): Result<FinalBlock>
  {
    var h := CheckedHeader(d, o);
    if !h.Ok? then Failed
    else Assemble(h.value, ReadBody(readTx, readSum, readVal, d, h.next, Wrap(h.next + h.value.txSize), h.value.valCount))
  }

  function ReadBlock(d: seq<byte>, o: nat): Result<FinalBlock>
  {
    ReadBlockWith(NextTransaction, ReadSummary, ReadVal, d, o)
  }

  // ---------------------------------------------------------------------------------
  // Round trips
  // ---------------------------------------------------------------------------------

  lemma SizesHas(d: seq<byte>, o: nat, h: Header)
    requires IsHeader(h) && Has(d, o, SizesBytes(h))
    ensures LeValue(d[o..o + 8]) == h.txSize && LeValue(d[o + 8..o + 16]) == h.sumSize
    ensures LeValue(d[o + 16..o + 20]) == h.valCount
  {
    Powers();
    HasSplit(d, o, LeBytes(h.txSize, U64), LeBytes(h.sumSize, U64) + LeBytes(h.valCount, U32));
    HasSplit(d, o + U64, LeBytes(h.sumSize, U64), LeBytes(h.valCount, U32));
    LeRoundTrip(h.txSize, U64);
    LeRoundTrip(h.sumSize, U64);
    LeRoundTrip(h.valCount, U32);
  }

  lemma NumbersHas(d: seq<byte>, o: nat, x: nat, y: nat, rest: seq<byte>)
    requires x < WORD && y < WORD && Has(d, o, [0] + (LeBytes(x, U64) + (LeBytes(y, U64) + rest)))
    ensures d[o] == 0 && LeValue(d[o + 1..o + 9]) == x && LeValue(d[o + 9..o + 17]) == y && Has(d, o + 17, rest)
  {
    Powers();
    HasSplit(d, o, [0], LeBytes(x, U64) + (LeBytes(y, U64) + rest));
    HasSplit(d, o + 1, LeBytes(x, U64), LeBytes(y, U64) + rest);
    HasSplit(d, o + 9, LeBytes(y, U64), rest);
    assert d[o] == d[o..o + 1][0];
    LeRoundTrip(x, U64);
    LeRoundTrip(y, U64);
  }

  lemma HeaderDecodes(h: Header)
    requires IsHeader(h)
    ensures DecodesTo(ReadHeader, HeaderBytes(h), h) && |HeaderBytes(h)| == MIN_SIZE
  {
    forall d, o: nat | Has(d, o, HeaderBytes(h))
      ensures ReadHeader(d, o) == Ok(h, o + |HeaderBytes(h)|)
    {
      NumbersHas(d, o, h.numBytes, h.time, h.prev + (h.merkle + SizesBytes(h)));
      HasSplit(d, o + 17, h.prev, h.merkle + SizesBytes(h));
      HasSplit(d, o + 49, h.merkle, SizesBytes(h));
      SizesHas(d, o + 81, h);
    }
  }

  lemma TxReadsIn(d: seq<byte>, tx: seq<byte>)
    requires |d| < HALF && IsTier2(tx)
    ensures ReadsIn(NextTransaction, d, tx, tx)
  {
    forall o: nat | Has(d, o, tx)
      ensures NextTransaction(d, o) == Ok(tx, o + |tx|)
    {
      NextTier2(d, o, tx);
    }
  }

  lemma ValDecodes(a: Address, sig: seq<byte>)
    requires IsAddress(a) && IsSignature(sig)
    ensures DecodesTo(ReadVal, ValBytes(a, sig), (a, sig))
  {
    forall d, o: nat | Has(d, o, ValBytes(a, sig))
      ensures ReadVal(d, o) == Ok((a, sig), o + |ValBytes(a, sig)|)
    {
      HasSplit(d, o, a, sig);
      ReadAddressHas(d, o, a);
      ReadSignatureHas(d, o + |a|, sig);
    }
  }

  lemma ValsDecode(vals: map<Address, seq<byte>>)
    requires forall a :: a in vals ==> IsAddress(a) && IsSignature(vals[a])
    ensures MapDecodes(ReadVal, ValsBytes(vals), vals)
  {
    forall a | a in vals
      ensures DecodesTo(ReadVal, ValBytes(a, vals[a]), (a, vals[a]))
    {
      ValDecodes(a, vals[a]);
    }
    ReadMap(ReadVal, ValBytes, AddressOrder(vals), vals);
  }

  /** The body is read back if its parts are. */
  lemma BodyHas<S(!new), A(!new), V(!new)>(
    readTx: (seq<byte>, nat) -> Result<seq<byte>>, readSum: (seq<byte>, nat) -> Result<S>,
    readVal: (seq<byte>, nat) -> Result<(A, V)>, d: seq<byte>, o: nat,
    txs: seq<seq<byte>>, sum: seq<byte>, s: S, vals: seq<byte>, m: map<A, V>)
    requires Has(d, o, Chain(txs) + (sum + vals))
    requires forall i :: 0 <= i < |txs| ==> txs[i] != [] && ReadsIn(readTx, d, txs[i], txs[i])
    requires DecodesTo(readSum, sum, s) && MapDecodes(readVal, vals, m)
    ensures ReadBody(readTx, readSum, readVal, d, o, o + |Chain(txs)|, |m|)
         == Ok((txs, s, m), o + |Chain(txs)| + |sum| + |vals|)
  {
    HasSplit(d, o, Chain(txs), sum + vals);
    HasSplit(d, o + |Chain(txs)|, sum, vals);
    ReadLoopHas(readTx, d, o, txs, txs, []);
    assert [] + txs == txs;
  }

  lemma BlockFromParts(
    readTx: (seq<byte>, nat) -> Result<seq<byte>>, readSum: (seq<byte>, nat) -> Result<Summary>,
    readVal: (seq<byte>, nat) -> Result<(Address, seq<byte>)>,
    d: seq<byte>, o: nat, b: FinalBlock, sum: seq<byte>, vals: seq<byte>)
    requires |d| < HALF && IsHeader(b.head) && Has(d, o, HeaderBytes(b.head) + (Chain(b.txs) + (sum + vals)))
    requires b.head.numBytes <= |d| && b.head.txSize == |Chain(b.txs)| && b.head.valCount == |b.vals|
    requires forall i :: 0 <= i < |b.txs| ==> b.txs[i] != [] && ReadsIn(readTx, d, b.txs[i], b.txs[i])
    requires DecodesTo(readSum, sum, b.summary) && MapDecodes(readVal, vals, b.vals)
    ensures ReadBlockWith(readTx, readSum, readVal, d, o) == Ok(b, o + |HeaderBytes(b.head) + (Chain(b.txs) + (sum + vals))|)
  {
    HasSplit(d, o, HeaderBytes(b.head), Chain(b.txs) + (sum + vals));
    HeaderDecodes(b.head);
    var p := o + MIN_SIZE;
    assert ReadHeader(d, o) == Ok(b.head, p);
    BodyHas(readTx, readSum, readVal, d, p, b.txs, sum, b.summary, vals, b.vals);
  }

  /** FinalBlock::Create reads a well-formed block from its canonical bytes at any offset,
      whatever follows, and stops at its end. */
  lemma BlockRoundTrip(d: seq<byte>, o: nat, b: FinalBlock)
    requires |d| < HALF && WellFormed(b) && Has(d, o, BlockBytes(b))
    ensures ReadBlock(d, o) == Ok(b, o + |BlockBytes(b)|)
  {
    var sum, vals := SummaryBytes(b.summary), ValsBytes(b.vals);
    SummaryRoundTrip(b.summary);
    ValsDecode(b.vals);
    forall i | 0 <= i < |b.txs|
      ensures b.txs[i] != [] && ReadsIn(NextTransaction, d, b.txs[i], b.txs[i])
    {
      TxReadsIn(d, b.txs[i]);
    }
    BlockFromParts(NextTransaction, ReadSummary, ReadVal, d, o, b, sum, vals);
  }

  // ---------------------------------------------------------------------------------
  // Dumping part of a chain and splitting it again
  // ---------------------------------------------------------------------------------

  /** The blocks from height start up to the penultimate one. */
  function BlocksSince(chain: seq<FinalBlock>, start: nat): seq<FinalBlock>
  {
    if start + 1 < |chain| then chain[start..|chain| - 1] else []
  }

  ghost function BlockCodes(blocks: seq<FinalBlock>): (r: seq<seq<byte>>)
    ensures |r| == |blocks| && forall i :: 0 <= i < |blocks| ==> r[i] == BlockBytes(blocks[i])
  {
    seq(|blocks|, i requires 0 <= i < |blocks| => BlockBytes(blocks[i]))
  }

  /** Blockchain::PartialBinaryDump. */
  ghost function Dump(chain: seq<FinalBlock>, start: nat): seq<byte>
  {
    Chain(BlockCodes(BlocksSince(chain, start)))
  }

  /** The loop of HandleBlocksSinceRequest. */
  function SplitBlocks(d: seq<byte>): Result<seq<FinalBlock>>
  {
    ReadLoop(ReadBlock, d, 0, |d|, [])
  }

  lemma BlockReadsIn(d: seq<byte>, b: FinalBlock)
    requires |d| < HALF && WellFormed(b)
    ensures ReadsIn(ReadBlock, d, BlockBytes(b), b) && BlockBytes(b) != []
  {
    forall o: nat | Has(d, o, BlockBytes(b))
      ensures ReadBlock(d, o) == Ok(b, o + |BlockBytes(b)|)
    {
      BlockRoundTrip(d, o, b);
    }
    HeaderDecodes(b.head);
  }

  /** Splitting the dump of part of a chain of well-formed blocks yields those blocks in order,
      ends exactly at the end of the buffer, and they serialise to the same bytes again. */
  lemma DumpRoundTrip(chain: seq<FinalBlock>, start: nat)
    requires |Dump(chain, start)| < HALF
    requires forall b :: b in BlocksSince(chain, start) ==> WellFormed(b)
    ensures SplitBlocks(Dump(chain, start)) == Ok(BlocksSince(chain, start), |Dump(chain, start)|)
    ensures Chain(BlockCodes(SplitBlocks(Dump(chain, start)).value)) == Dump(chain, start)
  {
    var blocks := BlocksSince(chain, start);
    var codes := BlockCodes(blocks);
    var d := Dump(chain, start);
    forall i | 0 <= i < |blocks|
      ensures codes[i] != [] && ReadsIn(ReadBlock, d, codes[i], blocks[i])
    {
      BlockReadsIn(d, blocks[i]);
    }
    ReadLoopAll(ReadBlock, d, codes, blocks);
  }
}
