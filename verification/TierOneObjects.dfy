/** What a Tier 1 node runs on an announcement: the loop that splits it, the loop that fills the
    pool, and the check in aggregate on the objects of a pass.
 */
module TierOneObjects {
  import opened Words
  import opened Options
  import opened Bytes
  import opened Buffers
  import opened Summaries
  import opened Codec
  import opened Blocks
  import opened Ledger
  import opened LedgerObjects
  import opened BlockObjects
  import opened TierOne

  /** The Tier1Transaction constructor from a buffer. */
  method CreateTierOne(verify: Verifier, buffer: InputBuffer) returns (r: Result<seq<byte>>)
    modifies buffer
    ensures r == ReadTierOne(verify, buffer.data, old(buffer.offset))
    ensures r.Ok? ==> buffer.offset == r.next
  {
    var sumSize := buffer.GetNextUint64(false);
    if !sumSize.Ok? { return Failed; }
    var size := Wrap(sumSize.value + FRAME_SIZE);
    var canonical := buffer.Copy(size);
    if !canonical.Ok? { return Failed; }
    if |buffer.data| < Wrap(buffer.offset + size) { return canonical; }
    if Soundness(verify, canonical.value) != Good { return Failed; }
    r := canonical;
  }

  /** The loop of AddTransactions over the announced bytes. */
  method CreateTransactions(verify: Verifier, buffer: InputBuffer) returns (r: Result<seq<seq<byte>>>)
    modifies buffer
    ensures r == ReadLoop(TierOneReader(verify), buffer.data, old(buffer.offset), |buffer.data|, [])
    ensures r.Ok? ==> buffer.offset == r.next
  {
    ghost var goal := ReadLoop(TierOneReader(verify), buffer.data, buffer.offset, |buffer.data|, []);
    var txs := [];
    while buffer.offset < |buffer.data|
      invariant ReadLoop(TierOneReader(verify), buffer.data, buffer.offset, |buffer.data|, txs) == goal
      decreases |buffer.data| - buffer.offset
    {
      var before := buffer.offset;
      var one := CreateTierOne(verify, buffer);
      AnnouncementStep(verify, buffer.data, before, txs);
      if !one.Ok? { return Failed; }
      if one.next <= before { return Diverged; }
      txs := txs + [one.value];
    }
    r := Ok(txs, buffer.offset);
  }

  lemma AnnouncementStep(verify: Verifier, d: seq<byte>, o: nat, txs: seq<seq<byte>>)
    requires o < |d|
    ensures var one := ReadTierOne(verify, d, o);
            ReadLoop(TierOneReader(verify), d, o, |d|, txs) ==
              if !one.Ok? then Failed
              else if one.next <= o then Diverged
              else ReadLoop(TierOneReader(verify), d, one.next, |d|, txs + [one.value])
  {
    assert TierOneReader(verify)(d, o) == ReadTierOne(verify, d, o);
  }

  /** do_isValidInAggregate of a Tier1Transaction, on the objects of a pass. */
  method CheckSummaryInAggregate(verify: Verifier, tx: seq<byte>, state: ChainStateObject, summary: SummaryObject,
                                 aggregate: Aggregate, prior: State) returns (ok: bool)
    modifies state, summary, aggregate
    ensures var v := IsValidInAggregate(old(BooksOf(state, summary, aggregate)), prior, TierOneClaim(verify, tx));
      ok == v.ok && BooksOf(state, summary, aggregate) == v.books
  {
    if Soundness(verify, tx) != Good { return false; }
    var buffer := new InputBuffer(tx, U64);
    var parsed := CreateSummary(buffer);
    if !parsed.Ok? { return false; }
    var carried := new SummaryObject();
    carried.summary := parsed.value;
    var xfers := carried.GetTransfers();
    ok := PostReadable(xfers, state, summary, aggregate, prior);
  }

  /** The loop over the transfers, each read through its getters before it is checked and posted. */
  method PostReadable(xfers: seq<Transfer>, state: ChainStateObject, summary: SummaryObject,
                      aggregate: Aggregate, prior: State) returns (ok: bool)
    modifies state, summary, aggregate
    ensures var xs := Readable(xfers);
      var v := RunTransfers(old(BooksOf(state, summary, aggregate)), prior, false, xs.0);
      ok == (v.ok && xs.1) && BooksOf(state, summary, aggregate) == v.books
  {
    ghost var goal := RunReadable(BooksOf(state, summary, aggregate), prior, xfers);
    assert xfers[0..] == xfers;
    for i := 0 to |xfers|
      invariant RunReadable(BooksOf(state, summary, aggregate), prior, xfers[i..]) == goal
    {
      assert xfers[i..][1..] == xfers[i + 1..];
      ReadableStep(BooksOf(state, summary, aggregate), prior, xfers[i..]);
      var x := ViewTransfer(XferBytes(xfers[i]));
      if x.None? { return false; }
      var admitted := CheckAndPost(x.value, false, state, summary, aggregate, prior);
      if !admitted { return false; }
    }
    return true;
  }

  /** The books a run over readable transfers ends with, and whether it got through. */
  ghost function RunReadable(b: Books, prior: State, xs: seq<Transfer>): (Books, bool)
  {
    var v := RunTransfers(b, prior, false, Readable(xs).0);
    (v.books, v.ok && Readable(xs).1)
  }

  lemma ReadableStep(b: Books, prior: State, xs: seq<Transfer>)
    requires xs != []
    ensures var x := ViewTransfer(XferBytes(xs[0]));
      if x.None? then RunReadable(b, prior, xs) == (b, false)
      else
        var next := Admit(b, prior, false, x.value);
        RunReadable(b, prior, xs) == if next.None? then (b, false) else RunReadable(next.value, prior, xs[1..])
  {
    var x := ViewTransfer(XferBytes(xs[0]));
    if x.Some? {
      var ys := Readable(xs[1..]).0;
      assert Readable(xs).0 == [x.value] + ys && ([x.value] + ys)[1..] == ys;
    }
  }

  /** The pool of a Tier 1 node. */
  class TierOnePool {
    var txs: Pool

    constructor ()
      ensures txs == map[]
    {
      txs := map[];
    }

    /** AddTransactions: in order, until an exception. It reports success exactly if every transaction
        was inserted or is a repeat. */
    method AddTransactions(verify: Verifier, items: seq<seq<byte>>) returns (allGood: bool)
      modifies this
      ensures txs == TierOne.AddTransactions(verify, old(txs), items)
      ensures allGood <==> forall i :: 0 <= i < |items| ==> Welcome(verify, old(txs), items, i)
    {
      allGood := true;
      ghost var before, goal := txs, TierOne.AddTransactions(verify, txs, items);
      assert items[0..] == items;
      for i := 0 to |items|
        invariant TierOne.AddTransactions(verify, txs, items[i..]) == goal
        invariant Flagged(verify, before, items, i, txs, allGood)
      {
        assert items[i..][0] == items[i] && items[i..][1..] == items[i + 1..];
        ghost var pool := txs;
        var good, threw := AddTransaction(verify, items[i], items[i..]);
        FlagStep(verify, before, items, i, pool, txs, allGood, good);
        allGood := allGood && good;
        if threw { return; }
      }
    }

    /** One turn of the loop: whether the transaction is in the pool now, and whether it threw. */
    method AddTransaction(verify: Verifier, item: seq<byte>, ghost rest: seq<seq<byte>>) returns (good: bool, threw: bool)
      requires rest != [] && rest[0] == item
      modifies this
      ensures TierOne.AddTransactions(verify, old(txs), rest)
           == if threw then txs else TierOne.AddTransactions(verify, txs, rest[1..])
      ensures var sig := SignatureOf(item);
        good <==> sig.Some? && (sig.value in old(txs) || Soundness(verify, item) == Good)
      ensures good ==> !threw && forall sig :: sig in txs <==> sig in old(txs) || SignatureOf(item) == Some(sig)
    {
      var sig := SignatureOf(item);
      if sig.None? { return false, true; }
      if sig.value in txs {
        txs := txs[sig.value := txs[sig.value].(refs := (txs[sig.value].refs + 1) % 256)];
        return true, false;
      }
      var sound := Soundness(verify, item);
      if sound == Throws { return false, true; }
      if sound == Good { txs := txs[sig.value := Pooled(1, item)]; }
      return sound == Good, false;
    }
  }

  /** A signature that was in the pool or is that of one of the first n transactions. */
  ghost predicate Known(pool: Pool, items: seq<seq<byte>>, n: nat, sig: seq<byte>)
    requires n <= |items|
  {
    sig in pool || exists j :: 0 <= j < n && SignatureOf(items[j]) == Some(sig)
  }

  /** After n transactions the flag says whether all of them were welcome; if so, the pool has exactly
      the known signatures. */
  ghost predicate Flagged(verify: Verifier, before: Pool, items: seq<seq<byte>>, n: nat, pool: Pool, allGood: bool)
    requires n <= |items|
  {
    && (allGood <==> forall j :: 0 <= j < n ==> Welcome(verify, before, items, j))
    && (allGood ==> forall sig :: sig in pool <==> Known(before, items, n, sig))
  }

  lemma FlagStep(verify: Verifier, before: Pool, items: seq<seq<byte>>, n: nat, pool: Pool, pool': Pool, allGood: bool, good: bool)
    requires n < |items| && Flagged(verify, before, items, n, pool, allGood)
    requires var sig := SignatureOf(items[n]);
      good <==> sig.Some? && (sig.value in pool || Soundness(verify, items[n]) == Good)
    requires good ==> forall sig :: sig in pool' <==> sig in pool || SignatureOf(items[n]) == Some(sig)
    ensures Flagged(verify, before, items, n + 1, pool', allGood && good)
  {
    KnownNext(before, items, n);
    assert allGood ==> (good <==> Welcome(verify, before, items, n));
  }

  lemma KnownNext(pool: Pool, items: seq<seq<byte>>, n: nat)
    requires n < |items|
    ensures forall sig :: Known(pool, items, n + 1, sig) <==> Known(pool, items, n, sig) || SignatureOf(items[n]) == Some(sig)
  {
  }

  /** The i-th transaction has a readable signature and repeats an earlier one or is sound. */
  ghost predicate Welcome(verify: Verifier, pool: Pool, items: seq<seq<byte>>, i: nat)
    requires i < |items|
  {
    var sig := SignatureOf(items[i]);
    sig.Some? && (Known(pool, items, i, sig.value) || Soundness(verify, items[i]) == Good)
  }
}
