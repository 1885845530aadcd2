/** The serialisers and parsers as the code runs them, loop by loop over an InputBuffer, and
    ProposedBlock as an object. Each is proved to do what Codec, Blocks and Proposals say.
 */
module BlockObjects {
  import opened Words
  import opened Permutations
  import opened Ordering
  import opened Bytes
  import opened Buffers
  import opened Options
  import opened Summaries
  import opened Codec
  import opened Blocks
  import opened Proposals

  // ---------------------------------------------------------------------------------
  // Writing
  // ---------------------------------------------------------------------------------

  /** The part of Summary::getCanonical for one address. */
  method EntryCanonical(a: Address, e: Entry, before: seq<byte>) returns (out: seq<byte>)
    requires StorableEntry(e)
    ensures out == before + EntryBytes(a, e)
  {
    var delayed := DelayedCanonical(e.delayed);
    var coins := CoinsCanonical(e.coins);
    out := Uint64ToBin(|e.delayed|, a);
    out := Uint64ToBin(|e.coins|, out);
    Assoc(a, LeBytes(|e.delayed|, U64), LeBytes(|e.coins|, U64) + (delayed + coins));
    Assoc(a + LeBytes(|e.delayed|, U64), LeBytes(|e.coins|, U64), delayed + coins);
    out := before + (out + (delayed + coins));
  }

  method DelayedItemCanonical(c: Coin, item: DelayedItem) returns (out: seq<byte>)
    requires c < WORD && item.delay < WORD && item.delta < WORD
    ensures out == DelayedBytes(c, item)
  {
    EmptyPrefix(LeBytes(c, U64));
    out := Uint64ToBin(c, []);
    out := Uint64ToBin(item.delay, out);
    out := Uint64ToBin(item.delta, out);
    Assoc(LeBytes(c, U64), LeBytes(item.delay, U64), LeBytes(item.delta, U64));
  }

  method CoinCanonical(c: Coin, delta: int) returns (out: seq<byte>)
    requires c < WORD && -HALF <= delta < HALF
    ensures out == CoinBytes(c, delta)
  {
    EmptyPrefix(LeBytes(c, U64));
    out := Uint64ToBin(c, []);
    out := Uint64ToBin(Wrap(delta), out);
  }

  method DelayedCanonical(m: map<Coin, DelayedItem>) returns (out: seq<byte>)
    requires forall c :: c in m ==> c < WORD && m[c].delay < WORD && m[c].delta < WORD
    ensures out == Chain(Codes(DelayedBytes, CoinOrder(m), m))
  {
    var coins := InOrder(m.Keys, NatLess);
    ghost var codes := Codes(DelayedBytes, CoinOrder(m), m);
    out := [];
    for i := 0 to |coins|
      invariant out + Chain(codes[i..]) == Chain(codes)
    {
      var one := DelayedItemCanonical(coins[i], m[coins[i]]);
      ChainNext(codes, i, out);
      out := out + one;
    }
  }

  method CoinsCanonical(m: map<Coin, int>) returns (out: seq<byte>)
    requires forall c :: c in m ==> c < WORD && -HALF <= m[c] < HALF
    ensures out == Chain(Codes(CoinBytes, CoinOrder(m), m))
  {
    var coins := InOrder(m.Keys, NatLess);
    ghost var codes := Codes(CoinBytes, CoinOrder(m), m);
    out := [];
    for i := 0 to |coins|
      invariant out + Chain(codes[i..]) == Chain(codes)
    {
      var one := CoinCanonical(coins[i], m[coins[i]]);
      ChainNext(codes, i, out);
      out := out + one;
    }
  }

  /** Appending the next part to what is written. */
  lemma ChainNext(codes: seq<seq<byte>>, i: nat, out: seq<byte>)
    requires i < |codes|
    ensures out + codes[i] + Chain(codes[i + 1..]) == out + Chain(codes[i..])
  {
    assert codes[i..][1..] == codes[i + 1..];
    Assoc(out, codes[i], Chain(codes[i + 1..]));
  }

  method SummaryCanonical(s: Summary) returns (out: seq<byte>)
    requires Storable(s)
    ensures out == SummaryBytes(s)
  {
    BytesStrict();
    var addrs := InOrder(s.Keys, BytesLess);
    EmptyPrefix(LeBytes(|s|, U32));
    var count := Uint32ToBin(|s|, []);
    out := EntriesCanonical(s, addrs, count, Codes(EntryBytes, AddressOrder(s), s));
  }

  /** The loop of Summary::getCanonical over the addresses. */
  method EntriesCanonical(s: Summary, addrs: seq<Address>, before: seq<byte>, ghost codes: seq<seq<byte>>) returns (out: seq<byte>)
    requires Storable(s) && KeysOf(addrs, s) && |codes| == |addrs|
    requires forall i :: 0 <= i < |addrs| ==> codes[i] == EntryBytes(addrs[i], s[addrs[i]])
    ensures out == before + Chain(codes)
  {
    out := before;
    assert codes[0..] == codes;
    for i := 0 to |addrs|
      invariant out + Chain(codes[i..]) == before + Chain(codes)
    {
      ghost var written := out;
      out := EntryCanonical(addrs[i], s[addrs[i]], out);
      ChainNext(codes, i, written);
    }
  }

  method ValidationCanonical(vals: Validations) returns (out: seq<byte>)
    ensures out == ValsBytes(vals)
  {
    BytesStrict();
    var addrs := InOrder(vals.Keys, BytesLess);
    ghost var codes := Codes(ValBytes, AddressOrder(vals), vals);
    out := [];
    for i := 0 to |addrs|
      invariant out + Chain(codes[i..]) == Chain(codes)
    {
      ChainNext(codes, i, out);
      out := out + (addrs[i] + vals[addrs[i]]);
    }
  }

  method TransactionsCanonical(txs: seq<seq<byte>>) returns (out: seq<byte>)
    ensures out == Chain(txs)
  {
    out := [];
    for i := 0 to |txs|
      invariant out + Chain(txs[i..]) == Chain(txs)
    {
      ChainNext(txs, i, out);
      out := out + txs[i];
    }
  }

  method FinalBlockCanonical(b: FinalBlock) returns (out: seq<byte>)
    requires IsHeader(b.head) && Storable(b.summary)
    ensures out == BlockBytes(b)
  {
    var txs := TransactionsCanonical(b.txs);
    var sum := SummaryCanonical(b.summary);
    var vals := ValidationCanonical(b.vals);
    var head := HeaderCanonical(b.head);
    out := head + (txs + (sum + vals));
  }

  method SizesCanonical(h: Header) returns (out: seq<byte>)
    requires IsHeader(h)
    ensures out == SizesBytes(h)
  {
    EmptyPrefix(LeBytes(h.txSize, U64));
    out := Uint64ToBin(h.txSize, []);
    out := Uint64ToBin(h.sumSize, out);
    out := Uint32ToBin(h.valCount, out);
    Assoc(LeBytes(h.txSize, U64), LeBytes(h.sumSize, U64), LeBytes(h.valCount, U32));
  }

  method HeaderCanonical(h: Header) returns (out: seq<byte>)
    requires IsHeader(h)
    ensures out == HeaderBytes(h)
  {
    var sizes := SizesCanonical(h);
    out := Uint64ToBin(h.numBytes, [0]);
    out := Uint64ToBin(h.time, out);
    ghost var x, y := LeBytes(h.numBytes, U64), LeBytes(h.time, U64);
    Regroup4([0], x, y, h.prev + (h.merkle + sizes));
    out := out + (h.prev + (h.merkle + sizes));
  }

  lemma Regroup4<T>(a: seq<T>, b: seq<T>, c: seq<T>, d: seq<T>)
    ensures a + b + c + d == a + (b + (c + d))
  {
    Assoc(a, b, c + d);
    Assoc(a + b, c, d);
  }

  /** Blockchain::PartialBinaryDump: the top block is left out. */
  method PartialBinaryDump(chain: seq<FinalBlock>, start: nat) returns (out: seq<byte>)
    requires forall b :: b in chain ==> IsHeader(b.head) && Storable(b.summary)
    ensures out == Dump(chain, start)
  {
    out := [];
    ghost var codes := DumpCodes(chain, start);
    if |chain| > 0 {
      out := DumpLoop(chain, start, codes, BlockBytes);
    }
  }

  lemma DumpCodes(chain: seq<FinalBlock>, start: nat) returns (codes: seq<seq<byte>>)
    ensures |codes| == (if start + 1 < |chain| then |chain| - 1 - start else 0)
    ensures forall j :: start <= j < |chain| - 1 ==> codes[j - start] == BlockBytes(chain[j])
    ensures Dump(chain, start) == Chain(codes) && (chain == [] ==> Chain(codes) == [])
  {
    codes := BlockCodes(BlocksSince(chain, start));
  }

  /** One block appended; `codeOf` stands for BlockBytes. */
  method WriteBlock(b: FinalBlock, before: seq<byte>, ghost codeOf: FinalBlock -> seq<byte>) returns (out: seq<byte>)
    requires IsHeader(b.head) && Storable(b.summary) && forall x {:trigger BlockBytes(x)} :: codeOf(x) == BlockBytes(x)
    ensures out == before + codeOf(b)
  {
    var canonical := FinalBlockCanonical(b);
    out := before + canonical;
  }

  method DumpLoop(chain: seq<FinalBlock>, start: nat, ghost codes: seq<seq<byte>>, ghost codeOf: FinalBlock -> seq<byte>)
    returns (out: seq<byte>)
    requires forall b :: b in chain ==> IsHeader(b.head) && Storable(b.summary)
    requires forall x {:trigger BlockBytes(x)} :: codeOf(x) == BlockBytes(x)
    requires chain != [] && |codes| == (if start < |chain| - 1 then |chain| - 1 - start else 0)
    requires forall j :: start <= j < |chain| - 1 ==> codes[j - start] == codeOf(chain[j])
    ensures out == Chain(codes)
  {
    out := [];
    var i := start;
    EmptyPrefix(Chain(codes));
    assert codes[0..] == codes;
    while i < |chain| - 1
      invariant start <= i <= start + |codes|
      invariant out + Chain(codes[i - start..]) == Chain(codes)
    {
      ghost var written := out;
      out := WriteBlock(chain[i], out, codeOf);
      ChainNext(codes, i - start, written);
      i := i + 1;
    }
    assert codes[i - start..] == [];
  }

  // ---------------------------------------------------------------------------------
  // Reading
  // ---------------------------------------------------------------------------------

  method ReadDelayedMap(buffer: InputBuffer, count: nat) returns (r: Result<map<Coin, DelayedItem>>)
    modifies buffer
    ensures r == ReadMany(ReadDelayed, buffer.data, old(buffer.offset), count, map[])
    ensures r.Ok? ==> buffer.offset == r.next
  {
    ghost var goal := ReadMany(ReadDelayed, buffer.data, buffer.offset, count, map[]);
    var delayed := map[];
    for j := 0 to count
      invariant ReadMany(ReadDelayed, buffer.data, buffer.offset, count - j, delayed) == goal
    {
      ManyStep(ReadDelayed, buffer.data, buffer.offset, count - j, delayed);
      var one := NextDelayed(buffer);
      if !one.Ok? { return Failed; }
      delayed := Insert(delayed, one.value.0, one.value.1);
    }
    r := Ok(delayed, buffer.offset);
  }

  method NextDelayed(buffer: InputBuffer) returns (r: Result<(Coin, DelayedItem)>)
    modifies buffer
    ensures r == ReadDelayed(buffer.data, old(buffer.offset))
    ensures r.Ok? ==> buffer.offset == r.next
  {
    var coin := buffer.GetNextUint64(true);
    if !coin.Ok? { return Failed; }
    var delay := buffer.GetNextUint64(true);
    if !delay.Ok? { return Failed; }
    var delta := buffer.GetNextUint64(true);
    if !delta.Ok? { return Failed; }
    r := Ok((coin.value, DelayedItem(delay.value, delta.value)), buffer.offset);
  }

  method ReadCoinMap(buffer: InputBuffer, count: nat) returns (r: Result<map<Coin, int>>)
    modifies buffer
    ensures r == ReadMany(ReadCoin, buffer.data, old(buffer.offset), count, map[])
    ensures r.Ok? ==> buffer.offset == r.next
  {
    ghost var goal := ReadMany(ReadCoin, buffer.data, buffer.offset, count, map[]);
    var coins := map[];
    for j := 0 to count
      invariant ReadMany(ReadCoin, buffer.data, buffer.offset, count - j, coins) == goal
    {
      ghost var start := buffer.offset;
      ghost var one := ReadCoin(buffer.data, start);
      var coin := buffer.GetNextUint64(true);
      if !coin.Ok? { return Failed; }
      var delta := buffer.GetNextUint64(true);
      if !delta.Ok? { return Failed; }
      LeWord(buffer.data[start + U64..start + 2 * U64]);
      assert one == Ok((coin.value, Signed(delta.value)), buffer.offset);
      coins := Insert(coins, coin.value, Signed(delta.value));
    }
    r := Ok(coins, buffer.offset);
  }

  method CreateEntry(buffer: InputBuffer) returns (r: Result<(Address, Entry)>)
    modifies buffer
    ensures r == ReadEntry(buffer.data, old(buffer.offset))
    ensures r.Ok? ==> buffer.offset == r.next
  {
    var a := buffer.CopyAddress();
    if !a.Ok? { return Failed; }
    var delayedCount := buffer.GetNextUint64(true);
    if !delayedCount.Ok? { return Failed; }
    var coinCount := buffer.GetNextUint64(true);
    if !coinCount.Ok? { return Failed; }
    var e := CreateMaps(buffer, delayedCount.value, coinCount.value);
    if !e.Ok? { return Failed; }
    r := Ok((a.value, e.value), buffer.offset);
  }

  method CreateMaps(buffer: InputBuffer, delayedCount: nat, coinCount: nat) returns (r: Result<Entry>)
    modifies buffer
    ensures r == ReadMaps(buffer.data, old(buffer.offset), delayedCount, coinCount)
    ensures r.Ok? ==> buffer.offset == r.next
  {
    var delayed := ReadDelayedMap(buffer, delayedCount);
    if !delayed.Ok? { return Failed; }
    var coins := ReadCoinMap(buffer, coinCount);
    if !coins.Ok? { return Failed; }
    r := Ok(Entry(delayed.value, coins.value), buffer.offset);
  }

  /** Summary::Create(buffer). */
  method CreateSummary(buffer: InputBuffer) returns (r: Result<Summary>)
    modifies buffer
    ensures r == ReadSummary(buffer.data, old(buffer.offset))
    ensures r.Ok? ==> buffer.offset == r.next
  {
    if |buffer.data| < U32 + buffer.offset { return Failed; }
    var count := buffer.GetNextUint32(true);
    r := CreateEntries(buffer, count.value, ReadEntry);
  }

  /** The loop over the addresses; `read` stands for ReadEntry. */
  method CreateEntries(buffer: InputBuffer, count: nat, ghost read: (seq<byte>, nat) -> Result<(Address, Entry)>)
    returns (r: Result<Summary>)
    requires forall d, o: nat {:trigger ReadEntry(d, o)} :: read(d, o) == ReadEntry(d, o)
    modifies buffer
    ensures r == ReadMany(read, buffer.data, old(buffer.offset), count, map[])
    ensures r.Ok? ==> buffer.offset == r.next
  {
    ghost var goal := ReadMany(read, buffer.data, buffer.offset, count, map[]);
    var summary := map[];
    for i := 0 to count
      invariant ReadMany(read, buffer.data, buffer.offset, count - i, summary) == goal
    {
      ManyStep(read, buffer.data, buffer.offset, count - i, summary);
      var one := NextEntry(buffer, read);
      if !one.Ok? { return Failed; }
      summary := Insert(summary, one.value.0, one.value.1);
    }
    r := Ok(summary, buffer.offset);
  }

  method NextEntry(buffer: InputBuffer, ghost read: (seq<byte>, nat) -> Result<(Address, Entry)>)
    returns (one: Result<(Address, Entry)>)
    requires forall d, o: nat {:trigger ReadEntry(d, o)} :: read(d, o) == ReadEntry(d, o)
    modifies buffer
    ensures one == read(buffer.data, old(buffer.offset))
    ensures one.Ok? ==> buffer.offset == one.next
  {
    one := CreateEntry(buffer);
  }

  lemma ManyStep<K, V>(read: (seq<byte>, nat) -> Result<(K, V)>, d: seq<byte>, o: nat, n: nat, acc: map<K, V>)
    requires n > 0
    ensures var one := read(d, o);
            ReadMany(read, d, o, n, acc) ==
              if one.Ok? then ReadMany(read, d, one.next, n - 1, Insert(acc, one.value.0, one.value.1)) else Failed
  {
  }

  method CreatePair(buffer: InputBuffer) returns (r: Result<(Address, seq<byte>)>)
    modifies buffer
    ensures r == ReadVal(buffer.data, old(buffer.offset))
    ensures r.Ok? ==> buffer.offset == r.next
  {
    var a := buffer.CopyAddress();
    if !a.Ok? { return Failed; }
    var sig := buffer.CopySignature();
    if !sig.Ok? { return Failed; }
    r := Ok((a.value, sig.value), buffer.offset);
  }

  /** Validation::Create(buffer, count). */
  method CreateValidation(buffer: InputBuffer, count: nat) returns (r: Result<Validations>)
    modifies buffer
    ensures r == ReadMany(ReadVal, buffer.data, old(buffer.offset), count, map[])
    ensures r.Ok? ==> buffer.offset == r.next
  {
    ghost var goal := ReadMany(ReadVal, buffer.data, buffer.offset, count, map[]);
    var sigs := map[];
    var remainder := count;
    while remainder > 0
      invariant ReadMany(ReadVal, buffer.data, buffer.offset, remainder, sigs) == goal
    {
      var one := CreatePair(buffer);
      if !one.Ok? { return Failed; }
      sigs := Insert(sigs, one.value.0, one.value.1);
      remainder := remainder - 1;
    }
    r := Ok(sigs, buffer.offset);
  }

  method CreateHeader(buffer: InputBuffer) returns (r: Result<Header>)
    modifies buffer
    ensures r == ReadHeader(buffer.data, old(buffer.offset))
    ensures r.Ok? ==> buffer.offset == r.next
  {
    ghost var start := buffer.offset;
    var version := buffer.GetNextByte();
    if !version.Ok? || version.value != 0 { return Failed; }
    var numBytes := buffer.GetNextUint64(true);
    if !numBytes.Ok? { return Failed; }
    var time := buffer.GetNextUint64(true);
    if !time.Ok? { return Failed; }
    var prev := buffer.Copy(HASH_SIZE);
    if !prev.Ok? { return Failed; }
    var merkle := buffer.Copy(HASH_SIZE);
    if !merkle.Ok? { return Failed; }
    var txSize := buffer.GetNextUint64(true);
    if !txSize.Ok? { return Failed; }
    var sumSize := buffer.GetNextUint64(true);
    if !sumSize.Ok? { return Failed; }
    var valCount := buffer.GetNextUint32(true);
    if !valCount.Ok? { return Failed; }
    assert buffer.offset == start + MIN_SIZE;
    r := Ok(Header(numBytes.value, time.value, prev.value, merkle.value, txSize.value, sumSize.value, valCount.value),
            buffer.offset);
  }

  /** The transaction loop of FinalBlock::Create; the code would spin where this stops with Diverged. */
  method ReadTransactions(buffer: InputBuffer, end: nat) returns (r: Result<seq<seq<byte>>>)
    modifies buffer
    ensures r == ReadLoop(NextTransaction, buffer.data, old(buffer.offset), end, [])
    ensures r.Ok? ==> buffer.offset == r.next
  {
    ghost var goal := ReadLoop(NextTransaction, buffer.data, buffer.offset, end, []);
    var raw := [];
    while buffer.offset < end
      invariant ReadLoop(NextTransaction, buffer.data, buffer.offset, end, raw) == goal
      decreases end - buffer.offset
    {
      var before := buffer.offset;
      var tx := buffer.GetNextTransaction();
      if !tx.Ok? {
        LoopStops(buffer.data, before, end, raw);
        return Failed;
      }
      if buffer.offset == before {
        LoopStops(buffer.data, before, end, raw);
        return Diverged;
      }
      LoopStep(buffer.data, before, end, raw);
      raw := raw + [tx.value];
    }
    r := Ok(raw, buffer.offset);
  }

  lemma LoopStep(d: seq<byte>, o: nat, end: nat, raw: seq<seq<byte>>)
    requires o < end && NextTransaction(d, o).Ok? && NextTransaction(d, o).next > o
    ensures ReadLoop(NextTransaction, d, o, end, raw)
         == ReadLoop(NextTransaction, d, NextTransaction(d, o).next, end, raw + [NextTransaction(d, o).value])
  {
  }

  lemma LoopStops(d: seq<byte>, o: nat, end: nat, raw: seq<seq<byte>>)
    requires o < end && (NextTransaction(d, o).Ok? ==> NextTransaction(d, o).next == o)
    ensures ReadLoop(NextTransaction, d, o, end, raw) == if NextTransaction(d, o).Ok? then Diverged else Failed
  {
  }

  method CreateBody(buffer: InputBuffer, end: nat, valCount: nat) returns (r: Result<(seq<seq<byte>>, Summary, Validations)>)
    modifies buffer
    ensures r == ReadBody(NextTransaction, ReadSummary, ReadVal, buffer.data, old(buffer.offset), end, valCount)
    ensures r.Ok? ==> buffer.offset == r.next
  {
    var txs := ReadTransactions(buffer, end);
    if txs.Diverged? { return Diverged; }
    if !txs.Ok? { return Failed; }
    var summary := CreateSummary(buffer);
    if !summary.Ok? { return Failed; }
    var vals := CreateValidation(buffer, valCount);
    if !vals.Ok? { return Failed; }
    r := Ok((txs.value, summary.value, vals.value), buffer.offset);
  }

  /** FinalBlock::Create. */
  method CreateFinalBlock(buffer: InputBuffer) returns (r: Result<FinalBlock>)
    modifies buffer
    ensures r == ReadBlock(buffer.data, old(buffer.offset))
    ensures r.Ok? ==> buffer.offset == r.next
  {
    ghost var start := buffer.offset;
    var h := CheckHeader(buffer);
    if !h.Ok? {
      NoHeader(buffer.data, start);
      return Failed;
    }
    r := FinishBlock(buffer, h.value);
    BlockIs(NextTransaction, ReadSummary, ReadVal, buffer.data, start, h.value, h.next, r);
  }

  lemma BlockIs(
    readTx: (seq<byte>, nat) -> Result<seq<byte>>, readSum: (seq<byte>, nat) -> Result<Summary>,
    readVal: (seq<byte>, nat) -> Result<(Address, seq<byte>)>, d: seq<byte>, o: nat, h: Header, next: nat, r: Result<FinalBlock>)
    requires CheckedHeader(d, o) == Ok(h, next)
    requires r == Assemble(h, ReadBody(readTx, readSum, readVal, d, next, Wrap(next + h.txSize), h.valCount))
    ensures r == ReadBlockWith(readTx, readSum, readVal, d, o)
  {
  }

  lemma NoHeader(d: seq<byte>, o: nat)
    requires !CheckedHeader(d, o).Ok?
    ensures ReadBlock(d, o) == Failed
  {
  }

  method CheckHeader(buffer: InputBuffer) returns (h: Result<Header>)
    modifies buffer
    ensures h == CheckedHeader(buffer.data, old(buffer.offset))
    ensures h.Ok? ==> buffer.offset == h.next
  {
    if |buffer.data| < MIN_SIZE { return Failed; }
    h := CreateHeader(buffer);
    if h.Ok? && |buffer.data| < h.value.numBytes { return Failed; }
  }

  /** What follows the header. */
  method FinishBlock(buffer: InputBuffer, h: Header) returns (r: Result<FinalBlock>)
    modifies buffer
    ensures r == Assemble(h, ReadBody(NextTransaction, ReadSummary, ReadVal, buffer.data, old(buffer.offset),
                                      Wrap(old(buffer.offset) + h.txSize), h.valCount))
    ensures r.Ok? ==> buffer.offset == r.next
  {
    var body := CreateBody(buffer, Wrap(buffer.offset + h.txSize), h.valCount);
    r := Assemble(h, body);
  }

  /** The loop of HandleBlocksSinceRequest that splits a dump into blocks. */
  method SplitDump(buffer: InputBuffer) returns (r: Result<seq<FinalBlock>>)
    modifies buffer
    ensures r == ReadLoop(ReadBlock, buffer.data, old(buffer.offset), |buffer.data|, [])
    ensures r.Ok? ==> buffer.offset == r.next
  {
    ghost var goal := ReadLoop(ReadBlock, buffer.data, buffer.offset, |buffer.data|, []);
    var blocks := [];
    while buffer.offset < |buffer.data|
      invariant ReadLoop(ReadBlock, buffer.data, buffer.offset, |buffer.data|, blocks) == goal
      decreases |buffer.data| - buffer.offset
    {
      var before := buffer.offset;
      var one := CreateFinalBlock(buffer);
      BlockStep(buffer.data, before, blocks);
      if one.Failed? { return Failed; }
      if one.Diverged? || one.next <= before { return Diverged; }
      blocks := blocks + [one.value];
    }
    r := Ok(blocks, buffer.offset);
  }

  lemma BlockStep(d: seq<byte>, o: nat, blocks: seq<FinalBlock>)
    requires o < |d|
    ensures var one := ReadBlock(d, o);
            ReadLoop(ReadBlock, d, o, |d|, blocks) ==
              if one.Failed? then Failed
              else if one.Diverged? || one.next <= o then Diverged
              else ReadLoop(ReadBlock, d, one.next, |d|, blocks + [one.value])
  {
  }

  // ---------------------------------------------------------------------------------
  // ProposedBlock
  // ---------------------------------------------------------------------------------

  /** The loop of the constructor that adds up the transactions. */
  method SizeOf(txs: seq<seq<byte>>) returns (size: nat)
    ensures size == |Chain(txs)|
  {
    size := 0;
    assert txs[0..] == txs;
    for i := 0 to |txs|
      invariant size + |Chain(txs[i..])| == |Chain(txs)|
    {
      ChainNext(txs, i, []);
      size := size + |txs[i]|;
    }
  }

  lemma Built(p: Proposal)
    requires p.txSize == |Chain(p.txs)| && p.sumSize == |SummaryBytes(p.summary)| && p.valCount == |p.vals|
    requires p.numBytes == PROPOSAL_MIN_SIZE + p.txSize + p.sumSize + p.valCount * PAIR_SIZE
    ensures p == Construct(p.prev, p.txs, p.summary, p.vals)
  {
  }

  class ProposedBlock {
    var numBytes: nat
    var prevHash: seq<byte>
    var txSize: nat
    var sumSize: nat
    var valCount: nat
    var transactions: seq<seq<byte>>
    var summary: Summary
    var vals: Validations

    ghost function Value(): Proposal
      reads this
    {
      Proposal(numBytes, prevHash, txSize, sumSize, valCount, transactions, summary, vals)
    }

    constructor (prev: seq<byte>, txs: seq<seq<byte>>, sum: Summary, validations: Validations)
      requires Storable(sum)
      ensures Value() == Construct(prev, txs, sum, validations)
    {
      prevHash, transactions, summary, vals := prev, txs, sum, validations;
      var canonical := SummaryCanonical(sum);
      var size := SizeOf(txs);
      valCount := |validations|;
      sumSize := |canonical|;
      txSize := size;
      numBytes := PROPOSAL_MIN_SIZE + size + |canonical| + |validations| * PAIR_SIZE;
      Built(Proposal(PROPOSAL_MIN_SIZE + size + |canonical| + |validations| * PAIR_SIZE, prev, size, |canonical|,
                     |validations|, txs, sum, validations));
    }

    method SignBlock(nodeAddr: Address, nodeSig: seq<byte>) returns (threw: bool)
      modifies this
      ensures threw == Sign(old(Value()), nodeAddr, nodeSig).None?
      ensures Value() == Do(old(Value()), SignBy(nodeAddr, nodeSig))
    {
      if |nodeAddr| != NODE_ADDR_SIZE + 1 || |nodeSig| != NODE_SIG_SIZE + 1 { return true; }
      vals := Insert(vals, nodeAddr, nodeSig);
      valCount := valCount + 1;
      numBytes := PROPOSAL_MIN_SIZE + txSize + sumSize + valCount * PAIR_SIZE;
      threw := false;
    }

    method CheckValidationData(buffer: InputBuffer, peers: nat) returns (threw: bool, enough: bool)
      requires buffer.offset == 0
      modifies this, buffer
      ensures var c := Proposals.CheckValidationData(old(Value()), buffer.data, peers);
              if c.Threw? then threw && Value() == old(Value())
              else !threw && enough == c.enough && Value() == c.proposal
    {
      threw, enough := false, false;
      if |buffer.data| < MIN_VALIDATION_SIZE { return; }
      var hash := buffer.Copy(HASH_SIZE);
      if hash.value == prevHash {
        var sigs := CreateRemaining(buffer);
        if !sigs.Ok? { return true, false; }
        vals := sigs.value + vals;
        valCount := |vals|;
        numBytes := PROPOSAL_MIN_SIZE + txSize + sumSize + valCount * PAIR_SIZE;
        enough := valCount > peers / 2;
      }
    }

    method SetNull()
      modifies this
      ensures Value() == old(Value()).(numBytes := 0) && IsNull(Value())
    {
      numBytes := 0;
    }
  }

  /** Validation::Create(buffer): the remaining size decides how many pairs are read. */
  method CreateRemaining(buffer: InputBuffer) returns (r: Result<Validations>)
    requires buffer.offset <= |buffer.data|
    modifies buffer
    ensures r == ReadPairs(buffer.data, old(buffer.offset))
    ensures r.Ok? ==> buffer.offset == r.next
  {
    var remainder: nat := |buffer.data| - buffer.offset;
    r := PairsLoop(buffer, remainder, remainder / PAIR_SIZE);
  }

  method PairsLoop(buffer: InputBuffer, size: nat, ghost n: nat) returns (r: Result<Validations>)
    requires 156 * n <= size < 156 * n + PAIR_SIZE
    modifies buffer
    ensures r == ReadMany(ReadVal, buffer.data, old(buffer.offset), n, map[])
    ensures r.Ok? ==> buffer.offset == r.next
  {
    ghost var goal := ReadMany(ReadVal, buffer.data, buffer.offset, n, map[]);
    ghost var left: nat := n;
    var remainder: nat := size;
    var sigs := map[];
    while remainder >= PAIR_SIZE
      invariant 156 * left <= remainder < 156 * left + PAIR_SIZE
      invariant ReadMany(ReadVal, buffer.data, buffer.offset, left, sigs) == goal
    {
      ManyStep(ReadVal, buffer.data, buffer.offset, left, sigs);
      var one := CreatePair(buffer);
      if !one.Ok? { return Failed; }
      sigs := Insert(sigs, one.value.0, one.value.1);
      remainder := remainder - PAIR_SIZE;
      left := left - 1;
    }
    r := Ok(sigs, buffer.offset);
  }
}
