/** The second tier: a Tier 2 node announces one Tier 1 transaction per block, which carries the
    block's summary; a Tier 1 node splits the announcement, keeps the transactions in its pool by
    signature, and collects them into its own block under the check in aggregate.

    Verifying a signature is any function that accepts, refuses or throws.
 */
module TierOne {
  import opened Words
  import opened Permutations
  import opened Ordering
  import opened Options
  import opened Bytes
  import opened Buffers
  import opened Summaries
  import opened Codec
  import opened Blocks
  import opened Ledger
  import opened Assembly
  import opened Acceptance

  datatype Check = Good | Bad | Throws

  /** Verification of a signature over a message with the key of a node address. */
  type Verifier = (Address, seq<byte>, seq<byte>) -> Check

  const NODE_ADDR_BUF := NODE_ADDR_SIZE + 1
  const NODE_SIG_BUF := NODE_SIG_SIZE + 1
  const FRAME_SIZE := NODE_SIG_BUF + U64 + NODE_ADDR_BUF

  // ---------------------------------------------------------------------------------
  // The transaction
  // ---------------------------------------------------------------------------------

  /** A summary's canonical bytes with their size in front, then a node address and a signature. */
  function Frame(code: seq<byte>, addr: Address, sig: seq<byte>): seq<byte>
  {
    LeBytes(|code|, U64) + (code + (addr + sig))
  }

  /** The canonical form of a Tier1Transaction made from a block's summary and a validation. */
  ghost function TierOneBytes(summary: Summary, addr: Address, sig: seq<byte>): seq<byte>
  {
    Frame(SummaryBytes(summary), addr, sig)
  }

  /** The size field agrees with the length; otherwise the getters slice past the end. */
  predicate Framed(tx: seq<byte>)
  {
    |tx| >= FRAME_SIZE && LeValue(tx[..U64]) + FRAME_SIZE == |tx|
  }

  function DigestOf(tx: seq<byte>): seq<byte>
    requires Framed(tx)
  {
    tx[U64..|tx| - NODE_SIG_BUF - NODE_ADDR_BUF]
  }

  function NodeOf(tx: seq<byte>): Address
    requires Framed(tx)
  {
    tx[|tx| - NODE_SIG_BUF - NODE_ADDR_BUF..|tx| - NODE_SIG_BUF]
  }

  /** do_getSignature; None where the Signature constructor throws. */
  function SignatureOf(tx: seq<byte>): Option<seq<byte>>
  {
    if !Framed(tx) then None else MakeSignature(tx[|tx| - NODE_SIG_BUF..])
  }

  /** do_isSound. */
  function Soundness(verify: Verifier, tx: seq<byte>): Check
  {
    var sig := SignatureOf(tx);
    if sig.None? then Throws else verify(NodeOf(tx), DigestOf(tx), sig.value)
  }

  /** The transfers as the getters see them, up to the first that cannot be read. */
  function Readable(xs: seq<Transfer>): (seq<Transfer>, bool)
  {
    if xs == [] then ([], true)
    else
      var x := ViewTransfer(XferBytes(xs[0]));
      if x.None? then ([], false)
      else
        var rest := Readable(xs[1..]);
        ([x.value] + rest.0, rest.1)
  }

  /** What do_isValidInAggregate asks of a Tier 1 transaction: the transfers of the summary after the
      size field, without the guard on available coins. A summary that does not parse throws. */
  ghost function TierOneClaim(verify: Verifier, tx: seq<byte>): Claim
  {
    var summary := ReadSummary(tx, U64);
    if Soundness(verify, tx) != Good || !summary.Ok? then Claim(false, false, [], false)
    else
      var xs := Readable(ReadBack(summary.value));
      Claim(true, false, xs.0, xs.1)
  }

  /** How a Tier 1 node reads the transactions of its pool. */
  ghost function TierOneClaims(verify: Verifier): seq<byte> -> Claim
  {
    tx => TierOneClaim(verify, tx)
  }

  // ---------------------------------------------------------------------------------
  // Announcing and splitting
  // ---------------------------------------------------------------------------------

  /** One turn of the loop of HandleBlocksSinceRequest: the block's first validation and its summary,
      through the Tier1Transaction constructor. None where that throws. */
  ghost function AnnounceOne(verify: Verifier, b: FinalBlock): Option<seq<byte>>
  {
    if b.vals == map[] then None
    else
      var a := AddressOrder(b.vals)[0];
      var tx := TierOneBytes(b.summary, a, b.vals[a]);
      if !IsSane(b.summary) || |b.vals[a]| != NODE_SIG_BUF || |a| != NODE_ADDR_BUF then None
      else if Soundness(verify, tx) != Good then None
      else Some(tx)
  }

  ghost function Announcer(verify: Verifier): FinalBlock -> Option<seq<byte>>
  {
    b => AnnounceOne(verify, b)
  }

  /** A loop over a list that gives up at the first failure. */
  function Each<A, B>(f: A -> Option<B>, xs: seq<A>): Option<seq<B>>
  {
    if xs == [] then Some([])
    else
      var one, rest := f(xs[0]), Each(f, xs[1..]);
      if one.None? || rest.None? then None else Some([one.value] + rest.value)
  }

  lemma {:induction false} EachAt<A, B>(f: A -> Option<B>, xs: seq<A>, i: nat)
    requires Each(f, xs).Some?
    ensures |Each(f, xs).value| == |xs|
    ensures i < |xs| ==> f(xs[i]) == Some(Each(f, xs).value[i])
  {
    if xs != [] { EachAt(f, xs[1..], if i > 0 then i - 1 else 0); }
  }

  /** The transactions that HandleBlocksSinceRequest writes one after the other. */
  ghost function Announce(verify: Verifier, blocks: seq<FinalBlock>): Option<seq<seq<byte>>>
  {
    Each(Announcer(verify), blocks)
  }

  /** The constructor from a buffer. It copies first and only then looks whether the buffer is long
      enough, so the check is about the bytes behind the transaction; if those are too few it leaves
      out the test of soundness. */
  function ReadTierOne(verify: Verifier, d: seq<byte>, o: nat): Result<seq<byte>>
  {
    if o + U64 > |d| then Failed
    else
      var size := Wrap(LeValue(d[o..o + U64]) + FRAME_SIZE);
      var tx := ReadBytes(d, o, size);
      if !tx.Ok? then Failed
      else if |d| < Wrap(tx.next + size) then tx
      else if Soundness(verify, tx.value) == Good then tx
      else Failed
  }

  function TierOneReader(verify: Verifier): (seq<byte>, nat) -> Result<seq<byte>>
  {
    (d, o) => ReadTierOne(verify, d, o)
  }

  /** The loop of AddTransactions over the announced bytes. */
  function SplitAnnouncement(verify: Verifier, d: seq<byte>): Result<seq<seq<byte>>>
  {
    ReadLoop(TierOneReader(verify), d, 0, |d|, [])
  }

  /** What the constructor guarantees of an announced transaction. */
  ghost predicate Announced(verify: Verifier, summary: Summary, tx: seq<byte>)
  {
    && Framed(tx) && Soundness(verify, tx) == Good
    && ReadSummary(tx, U64).Ok? && ReadSummary(tx, U64).value == summary
  }

  lemma FrameDecodes(code: seq<byte>, addr: Address, sig: seq<byte>, summary: Summary)
    requires DecodesTo(ReadSummary, code, summary)
    ensures ReadSummary(Frame(code, addr, sig), U64) == Ok(summary, U64 + |code|)
  {
    HasMiddle(LeBytes(|code|, U64), code, addr + sig);
  }

  lemma TierOneDecodes(summary: Summary, addr: Address, sig: seq<byte>)
    requires Storable(summary)
    ensures ReadSummary(TierOneBytes(summary, addr, sig), U64) == Ok(summary, U64 + |SummaryBytes(summary)|)
  {
    SummaryRoundTrip(summary);
    FrameDecodes(SummaryBytes(summary), addr, sig, summary);
  }

  lemma FrameIsFramed(code: seq<byte>, addr: Address, sig: seq<byte>)
    requires |code| < WORD && |addr| == NODE_ADDR_BUF && |sig| == NODE_SIG_BUF
    ensures Framed(Frame(code, addr, sig))
  {
    assert Frame(code, addr, sig)[..U64] == LeBytes(|code|, U64);
    Powers();
    LeRoundTrip(|code|, U64);
  }

  lemma AnnouncedOne(verify: Verifier, b: FinalBlock, tx: seq<byte>)
    requires Storable(b.summary) && AnnounceOne(verify, b) == Some(tx) && |tx| < WORD
    ensures Announced(verify, b.summary, tx)
  {
    var a := AddressOrder(b.vals)[0];
    var code := SummaryBytes(b.summary);
    assert tx == Frame(code, a, b.vals[a]);
    TierOneDecodes(b.summary, a, b.vals[a]);
    FrameIsFramed(code, a, b.vals[a]);
  }

  lemma AnnouncedReads(verify: Verifier, d: seq<byte>, summary: Summary, tx: seq<byte>)
    requires |d| < HALF && Announced(verify, summary, tx)
    ensures ReadsIn(TierOneReader(verify), d, tx, tx)
  {
    forall o: nat | Has(d, o, tx)
      ensures TierOneReader(verify)(d, o) == Ok(tx, o + |tx|)
    {
      FrameReads(verify, d, o, tx);
    }
  }

  lemma FrameReads(verify: Verifier, d: seq<byte>, o: nat, tx: seq<byte>)
    requires |d| < HALF && Has(d, o, tx) && Framed(tx) && Soundness(verify, tx) == Good
    ensures ReadTierOne(verify, d, o) == Ok(tx, o + |tx|)
  {
    assert d[o..o + U64] == d[o..o + |tx|][..U64];
  }

  lemma SplitsInto(verify: Verifier, d: seq<byte>, txs: seq<seq<byte>>)
    requires d == Chain(txs)
    requires forall i :: 0 <= i < |txs| ==> txs[i] != [] && ReadsIn(TierOneReader(verify), d, txs[i], txs[i])
    ensures SplitAnnouncement(verify, d) == Ok(txs, |d|)
  {
    ReadLoopAll(TierOneReader(verify), d, txs, txs);
  }

  /** Splitting the announcement gives exactly the announced transactions. */
  lemma AnnouncementSplits(verify: Verifier, sums: seq<Summary>, txs: seq<seq<byte>>)
    requires |sums| == |txs| && |Chain(txs)| < HALF
    requires forall i :: 0 <= i < |txs| ==> Announced(verify, sums[i], txs[i])
    ensures SplitAnnouncement(verify, Chain(txs)) == Ok(txs, |Chain(txs)|)
  {
    var d := Chain(txs);
    forall i | 0 <= i < |txs|
      ensures txs[i] != [] && ReadsIn(TierOneReader(verify), d, txs[i], txs[i])
    {
      AnnouncedReads(verify, d, sums[i], txs[i]);
    }
    SplitsInto(verify, d, txs);
  }

  // ---------------------------------------------------------------------------------
  // The pool
  // ---------------------------------------------------------------------------------

  /** txs_: by signature, with a uint8_t count of references. */
  datatype Pooled = Pooled(refs: nat, tx: seq<byte>)

  type Pool = map<seq<byte>, Pooled>

  /** AddTransactions: a known signature gains a reference, an unsound transaction is left out, and an
      exception ends the loop. */
  function AddTransactions(verify: Verifier, pool: Pool, txs: seq<seq<byte>>): Pool
    decreases |txs|
  {
    if txs == [] then pool
    else
      var sig := SignatureOf(txs[0]);
      if sig.None? then pool
      else if sig.value in pool then
        AddTransactions(verify, pool[sig.value := pool[sig.value].(refs := (pool[sig.value].refs + 1) % 256)], txs[1..])
      else
        match Soundness(verify, txs[0])
        case Good => AddTransactions(verify, pool[sig.value := Pooled(1, txs[0])], txs[1..])
        case Bad => AddTransactions(verify, pool, txs[1..])
        case Throws => pool
  }

  /** The transactions of a pool in the order of their signatures. */
  ghost function InPoolOrder(pool: Pool): (r: seq<seq<byte>>)
    ensures |r| == |pool|
  {
    var ks := AddressOrder(pool);
    seq(|ks|, i requires 0 <= i < |ks| => pool[ks[i]].tx)
  }

  /** A whole pass of a Tier 1 node. */
  ghost function CollectTierOne(verify: Verifier, prior: State, pool: Pool, limit: nat): Haul<seq<byte>>
  {
    Collect(TierOneClaims(verify), Start(prior), prior, InPoolOrder(pool), limit)
  }

  // ---------------------------------------------------------------------------------
  // An announced transaction in a pass
  // ---------------------------------------------------------------------------------

  lemma {:induction false} DelayedAreTransfers(a: Address, coins: seq<Coin>, m: map<Coin, DelayedItem>)
    requires IsAddress(a) && forall c :: c in coins ==> c in m && c < WORD && m[c].delay < WORD
    ensures forall x :: x in DelayedTransfers(a, coins, m) ==> IsTransfer(x)
  {
    if coins != [] {
      assert forall c :: c in coins[1..] ==> c in coins;
      DelayedAreTransfers(a, coins[1..], m);
    }
  }

  lemma {:induction false} CoinsAreTransfers(a: Address, coins: seq<Coin>, m: map<Coin, int>)
    requires IsAddress(a) && forall c :: c in coins ==> c in m && c < WORD && -HALF <= m[c] < HALF
    ensures forall x :: x in CoinTransfers(a, coins, m) ==> IsTransfer(x)
  {
    if coins != [] {
      assert forall c :: c in coins[1..] ==> c in coins;
      CoinsAreTransfers(a, coins[1..], m);
    }
  }

  lemma EntryAreTransfers(a: Address, e: Entry)
    requires IsAddress(a) && StorableEntry(e)
    ensures forall x :: x in EntryTransfers(a, e) ==> IsTransfer(x)
  {
    DelayedAreTransfers(a, Ascending(e.delayed.Keys, NatLess), e.delayed);
    CoinsAreTransfers(a, Ascending(e.coins.Keys, NatLess), e.coins);
  }

  lemma {:induction false} AtAreTransfers(addrs: seq<Address>, s: Summary)
    requires Storable(s) && forall a :: a in addrs ==> a in s
    ensures forall x :: x in TransfersAt(addrs, s) ==> IsTransfer(x)
  {
    if addrs != [] {
      AtAreTransfers(addrs[1..], s);
      EntryAreTransfers(addrs[0], s[addrs[0]]);
    }
  }

  lemma {:induction false} ReadableIs(xs: seq<Transfer>)
    requires forall x :: x in xs ==> IsTransfer(x)
    ensures Readable(xs) == (xs, true)
  {
    if xs != [] {
      ViewIs(xs[0]);
      ReadableIs(xs[1..]);
      assert xs == [xs[0]] + xs[1..];
    }
  }

  /** The claim of an announced transaction: all the transfers read back from its block's summary. */
  lemma AnnouncedClaim(verify: Verifier, summary: Summary, tx: seq<byte>)
    requires Announced(verify, summary, tx) && Storable(summary)
    ensures TierOneClaim(verify, tx) == Claim(true, false, ReadBack(summary), true)
  {
    BytesStrict();
    AtAreTransfers(Ascending(summary.Keys, BytesLess), summary);
    ReadableIs(ReadBack(summary));
  }

  // ---------------------------------------------------------------------------------
  // The pool after an announcement
  // ---------------------------------------------------------------------------------

  /** Sound transactions with a signature that can be read: what splitting an announcement yields. */
  ghost predicate Acceptable(verify: Verifier, txs: seq<seq<byte>>)
  {
    forall tx :: tx in txs ==> SignatureOf(tx).Some? && Soundness(verify, tx) == Good
  }

  function Signatures(txs: seq<seq<byte>>): (r: seq<seq<byte>>)
    requires forall tx :: tx in txs ==> SignatureOf(tx).Some?
    ensures |r| == |txs| && forall i :: 0 <= i < |txs| ==> r[i] == SignatureOf(txs[i]).value
  {
    seq(|txs|, i requires 0 <= i < |txs| => SignatureOf(txs[i]).value)
  }

  /** A known signature gains a reference; a new one gets its transaction. */
  function Enter(pool: Pool, sig: seq<byte>, tx: seq<byte>): Pool
  {
    if sig in pool then pool[sig := pool[sig].(refs := (pool[sig].refs + 1) % 256)] else pool[sig := Pooled(1, tx)]
  }

  function EnterAll(pool: Pool, sigs: seq<seq<byte>>, txs: seq<seq<byte>>): Pool
    requires |sigs| == |txs|
    decreases |txs|
  {
    if txs == [] then pool else EnterAll(Enter(pool, sigs[0], txs[0]), sigs[1..], txs[1..])
  }

  lemma {:induction false} AddedTransactions(verify: Verifier, pool: Pool, txs: seq<seq<byte>>)
    requires Acceptable(verify, txs)
    ensures AddTransactions(verify, pool, txs) == EnterAll(pool, Signatures(txs), txs)
    decreases |txs|
  {
    if txs != [] {
      assert txs[0] in txs && forall tx :: tx in txs[1..] ==> tx in txs;
      AddedTransactions(verify, Enter(pool, SignatureOf(txs[0]).value, txs[0]), txs[1..]);
      OneAdded(verify, pool, txs);
      SignaturesTail(txs);
    }
  }

  lemma OneAdded(verify: Verifier, pool: Pool, txs: seq<seq<byte>>)
    requires txs != [] && SignatureOf(txs[0]).Some? && Soundness(verify, txs[0]) == Good
    ensures AddTransactions(verify, pool, txs)
         == AddTransactions(verify, Enter(pool, SignatureOf(txs[0]).value, txs[0]), txs[1..])
  {
  }

  lemma SignaturesTail(txs: seq<seq<byte>>)
    requires txs != [] && forall tx :: tx in txs ==> SignatureOf(tx).Some?
    ensures (forall tx :: tx in txs[1..] ==> SignatureOf(tx).Some?) && Signatures(txs)[1..] == Signatures(txs[1..])
  {
    assert forall tx :: tx in txs[1..] ==> tx in txs;
  }

  lemma {:induction false} Entered(pool: Pool, sigs: seq<seq<byte>>, txs: seq<seq<byte>>)
    requires |sigs| == |txs|
    ensures var r := EnterAll(pool, sigs, txs);
      && (forall s :: s in r <==> s in pool || s in sigs)
      && (forall s :: s in pool ==> r[s].tx == pool[s].tx)
    decreases |txs|
  {
    if txs != [] {
      Entered(Enter(pool, sigs[0], txs[0]), sigs[1..], txs[1..]);
      assert sigs == [sigs[0]] + sigs[1..];
    }
  }

  lemma {:induction false} EnteredAt(pool: Pool, sigs: seq<seq<byte>>, txs: seq<seq<byte>>, i: nat)
    requires |sigs| == |txs| && NoRepeats(sigs) && i < |txs| && forall s :: s in sigs ==> s !in pool
    ensures var r := EnterAll(pool, sigs, txs); sigs[i] in r && r[sigs[i]].tx == txs[i]
    decreases |txs|
  {
    var pool' := Enter(pool, sigs[0], txs[0]);
    Entered(pool', sigs[1..], txs[1..]);
    if i > 0 {
      assert forall s :: s in sigs[1..] ==> s in sigs && s != sigs[0];
      EnteredAt(pool', sigs[1..], txs[1..], i - 1);
    }
  }

  /** The transaction under a signature, as a list of one. */
  function Under(pool: Pool): seq<byte> -> seq<seq<byte>>
  {
    s => if s in pool then [pool[s].tx] else []
  }

  lemma {:induction false} GatherUnder(pool: Pool, ks: seq<seq<byte>>, txs: seq<seq<byte>>)
    requires |ks| == |txs| && forall i :: 0 <= i < |ks| ==> ks[i] in pool && pool[ks[i]].tx == txs[i]
    ensures Gather(Under(pool), ks) == txs
  {
    if ks != [] {
      GatherUnder(pool, ks[1..], txs[1..]);
      assert txs == [txs[0]] + txs[1..];
    }
  }

  /** A pool that holds transactions under distinct signatures lists them in some order. */
  lemma PoolPermutes(pool: Pool, sigs: seq<seq<byte>>, txs: seq<seq<byte>>)
    requires |sigs| == |txs| && NoRepeats(sigs) && forall s :: s in pool <==> s in sigs
    requires forall i :: 0 <= i < |sigs| ==> sigs[i] in pool && pool[sigs[i]].tx == txs[i]
    ensures multiset(InPoolOrder(pool)) == multiset(txs)
  {
    var ks := PoolKeys(pool);
    TwoOrders(pool, ks, InPoolOrder(pool), sigs, txs);
  }

  /** The transactions of a pool listed twice, in two orders of its keys. */
  lemma TwoOrders(pool: Pool, ks: seq<seq<byte>>, xs: seq<seq<byte>>, sigs: seq<seq<byte>>, txs: seq<seq<byte>>)
    requires NoRepeats(ks) && NoRepeats(sigs) && forall s :: s in ks <==> s in sigs
    requires |ks| == |xs| && forall i :: 0 <= i < |ks| ==> ks[i] in pool && pool[ks[i]].tx == xs[i]
    requires |sigs| == |txs| && forall i :: 0 <= i < |sigs| ==> sigs[i] in pool && pool[sigs[i]].tx == txs[i]
    ensures multiset(xs) == multiset(txs)
  {
    SameElements(ks, sigs);
    GatherPermuted(Under(pool), ks, sigs);
    GatherUnder(pool, ks, xs);
    GatherUnder(pool, sigs, txs);
  }

  ghost function PoolKeys(pool: Pool): (ks: seq<seq<byte>>)
    ensures ks == AddressOrder(pool) && NoRepeats(ks) && forall s :: s in ks <==> s in pool
  {
    BytesStrict();
    AscendingDistinct(pool.Keys, BytesLess);
    AddressOrder(pool)
  }

  lemma DistinctPool(sigs: seq<seq<byte>>, txs: seq<seq<byte>>)
    requires |sigs| == |txs| && NoRepeats(sigs)
    ensures multiset(InPoolOrder(EnterAll(map[], sigs, txs))) == multiset(txs)
  {
    var pool := EnterAll(map[], sigs, txs);
    Entered(map[], sigs, txs);
    forall i | 0 <= i < |sigs| ensures sigs[i] in pool && pool[sigs[i]].tx == txs[i] {
      EnteredAt(map[], sigs, txs, i);
    }
    PoolPermutes(pool, sigs, txs);
  }

  lemma RepeatedPool(sigs: seq<seq<byte>>, txs: seq<seq<byte>>)
    requires |sigs| == |txs| && !NoRepeats(sigs)
    ensures |InPoolOrder(EnterAll(map[], sigs, txs))| < |txs|
  {
    var pool := EnterAll(map[], sigs, txs);
    Entered(map[], sigs, txs);
    RepeatsAreFewer(sigs);
    assert pool.Keys == set s | s in sigs;
  }

  lemma PoolFromTxs(sigs: seq<seq<byte>>, txs: seq<seq<byte>>)
    requires |sigs| == |txs|
    ensures forall tx :: tx in InPoolOrder(EnterAll(map[], sigs, txs)) ==> tx in txs
  {
    PoolMembers(map[], sigs, txs);
  }

  /** An empty pool takes all announced transactions exactly if their signatures are distinct; it then
      lists them in the order of their signatures. */
  lemma FreshPool(verify: Verifier, txs: seq<seq<byte>>)
    requires Acceptable(verify, txs)
    ensures var order := InPoolOrder(AddTransactions(verify, map[], txs));
      && (NoRepeats(Signatures(txs)) ==> multiset(order) == multiset(txs))
      && (!NoRepeats(Signatures(txs)) ==> |order| < |txs|)
      && (forall tx :: tx in order ==> tx in txs)
  {
    var sigs := Signatures(txs);
    AddedTransactions(verify, map[], txs);
    if NoRepeats(sigs) { DistinctPool(sigs, txs); } else { RepeatedPool(sigs, txs); }
    PoolFromTxs(sigs, txs);
  }

  lemma {:induction false} PoolMembers(pool: Pool, sigs: seq<seq<byte>>, txs: seq<seq<byte>>)
    requires |sigs| == |txs|
    ensures var r := EnterAll(pool, sigs, txs); forall s :: s in r && s !in pool ==> r[s].tx in txs
    decreases |txs|
  {
    if txs != [] {
      var pool' := Enter(pool, sigs[0], txs[0]);
      PoolMembers(pool', sigs[1..], txs[1..]);
      Entered(pool', sigs[1..], txs[1..]);
      assert txs[0] in txs && forall tx :: tx in txs[1..] ==> tx in txs;
    }
  }

  lemma {:induction false} RepeatsAreFewer<T>(xs: seq<T>)
    ensures |set x | x in xs| <= |xs| && (!NoRepeats(xs) ==> |set x | x in xs| < |xs|)
  {
    if xs != [] {
      RepeatsAreFewer(xs[1..]);
      var rest := set x | x in xs[1..];
      assert (set x | x in xs) == rest + {xs[0]};
      if xs[0] in rest { assert rest + {xs[0]} == rest; }
      if NoRepeats(xs[1..]) && xs[0] !in xs[1..] { assert NoRepeats(xs); }
    }
  }

  // ---------------------------------------------------------------------------------
  // From the chain of one tier to the books of the other
  // ---------------------------------------------------------------------------------

  /** The transactions carry these summaries. */
  ghost predicate Carry(verify: Verifier, txs: seq<seq<byte>>, sums: seq<Summary>)
  {
    |sums| == |txs| && forall i :: 0 <= i < |txs| ==> Announced(verify, sums[i], txs[i]) && Storable(sums[i])
  }

  function SumsOf(blocks: seq<FinalBlock>): (r: seq<Summary>)
    ensures |r| == |blocks| && forall i :: 0 <= i < |blocks| ==> r[i] == blocks[i].summary
  {
    seq(|blocks|, i requires 0 <= i < |blocks| => blocks[i].summary)
  }

  lemma {:induction false} ChainMember(codes: seq<seq<byte>>, i: nat)
    requires i < |codes|
    ensures |codes[i]| <= |Chain(codes)|
  {
    if i > 0 { ChainMember(codes[1..], i - 1); }
  }

  /** What is announced for a list of storable blocks carries their summaries, and splits again. */
  lemma AnnouncementCarries(verify: Verifier, blocks: seq<FinalBlock>, txs: seq<seq<byte>>)
    requires Announce(verify, blocks) == Some(txs) && |Chain(txs)| < HALF
    requires forall b :: b in blocks ==> Storable(b.summary)
    ensures Carry(verify, txs, SumsOf(blocks)) && SplitAnnouncement(verify, Chain(txs)) == Ok(txs, |Chain(txs)|)
  {
    EachAt(Announcer(verify), blocks, 0);
    forall i | 0 <= i < |txs|
      ensures Announced(verify, SumsOf(blocks)[i], txs[i]) && Storable(SumsOf(blocks)[i])
    {
      EachAt(Announcer(verify), blocks, i);
      ChainMember(txs, i);
      assert blocks[i] in blocks;
      AnnouncedOne(verify, blocks[i], txs[i]);
    }
    AnnouncementSplits(verify, SumsOf(blocks), txs);
  }

  lemma SplitIs(chain: seq<FinalBlock>, start: nat, blocks: seq<FinalBlock>, n: nat)
    requires |Dump(chain, start)| < HALF && forall b :: b in BlocksSince(chain, start) ==> WellFormed(b)
    requires SplitBlocks(Dump(chain, start)) == Ok(blocks, n)
    ensures blocks == BlocksSince(chain, start)
  {
    DumpRoundTrip(chain, start);
  }

  lemma CarryAcceptable(verify: Verifier, txs: seq<seq<byte>>, sums: seq<Summary>)
    requires Carry(verify, txs, sums)
    ensures Acceptable(verify, txs)
    ensures forall tx :: tx in txs ==> Plain(TierOneClaims(verify)(tx))
  {
    forall tx | tx in txs
      ensures SignatureOf(tx).Some? && Soundness(verify, tx) == Good && Plain(TierOneClaim(verify, tx))
    {
      var i :| 0 <= i < |txs| && txs[i] == tx;
      AnnouncedClaim(verify, sums[i], tx);
    }
  }

  /** All transfers of the pool, in pool order. */
  ghost function PoolXfers(verify: Verifier, pool: Pool): seq<Transfer>
  {
    Gather(XfersBy(TierOneClaims(verify)), InPoolOrder(pool))
  }

  /** A pass over plain transactions takes them all, or fewer. */
  lemma PassTakes<T>(claims: T -> Claim, prior: State, order: seq<T>, limit: nat)
    requires forall tx :: tx in order ==> Plain(claims(tx))
    ensures var h := Collect(claims, Start(prior), prior, order, limit);
      var all := Gather(XfersBy(claims), order);
      && |h.valid| <= |order|
      && (|h.valid| == |order| <==> |order| <= Max(limit, 1) && AllCovered(prior, [], all))
      && (|h.valid| == |order| ==> h.valid == order && h.posted == all)
  {
    CollectBound(claims, Start(prior), prior, order, limit);
    assert [] + order == order;
    if |order| <= Max(limit, 1) {
      if |Collect(claims, Start(prior), prior, order, limit).valid| == |order| {
        CollectWhole(claims, Start(prior), prior, order, limit);
      }
      CollectExactly(claims, Start(prior), prior, order, limit);
      var all := Gather(XfersBy(claims), order);
      assert [] + all == all;
    }
  }

  /** Every announced transaction is accepted exactly if the signatures are distinct, the block has
      room, and every spend is covered in pool order. */
  lemma AcceptedExactly(verify: Verifier, txs: seq<seq<byte>>, sums: seq<Summary>, prior: State, limit: nat)
    requires Carry(verify, txs, sums)
    ensures var pool := AddTransactions(verify, map[], txs);
      var h := CollectTierOne(verify, prior, pool, limit);
      && (forall tx :: tx in txs ==> SignatureOf(tx).Some?)
      && (multiset(h.valid) == multiset(txs)
          <==> NoRepeats(Signatures(txs)) && |txs| <= Max(limit, 1) && AllCovered(prior, [], PoolXfers(verify, pool)))
      && (multiset(h.valid) == multiset(txs) ==> h.posted == PoolXfers(verify, pool)
                                                 && multiset(InPoolOrder(pool)) == multiset(txs))
  {
    CarryAcceptable(verify, txs, sums);
    FreshPool(verify, txs);
    var order := InPoolOrder(AddTransactions(verify, map[], txs));
    PassTakes(TierOneClaims(verify), prior, order, limit);
    var h := Collect(TierOneClaims(verify), Start(prior), prior, order, limit);
    assert |multiset(h.valid)| == |h.valid| && |multiset(txs)| == |txs| && |multiset(order)| == |order|;
  }

  /** Adding what was read back from every summary, one after the other. */
  lemma {:induction false} GatherSummaries(f: seq<byte> -> seq<Transfer>, s: Summary, txs: seq<seq<byte>>, xss: seq<seq<Transfer>>)
    requires |txs| == |xss| && forall i :: 0 <= i < |txs| ==> f(txs[i]) == ReadBack(AddAll(map[], xss[i]))
    ensures AddAll(s, Gather(f, txs)) == AddBlockSummaries(s, xss)
    decreases |txs|
  {
    if txs != [] {
      AddAllConcat(s, f(txs[0]), Gather(f, txs[1..]));
      GatherSummaries(f, AddAll(s, f(txs[0])), txs[1..], xss[1..]);
    }
  }

  /** Summarising the pool's transfers, in whatever order it has them, is summarising all transfers
      that went into the announced summaries. */
  lemma PoolSummary(verify: Verifier, txs: seq<seq<byte>>, order: seq<seq<byte>>, sums: seq<Summary>,
                    xss: seq<seq<Transfer>>, all: seq<Transfer>)
    requires Carry(verify, txs, sums) && multiset(order) == multiset(txs)
    requires |xss| == |sums| && forall i :: 0 <= i < |sums| ==> sums[i] == AddAll(map[], xss[i])
    requires multiset(all) == multiset(Summaries.Flatten(xss))
    ensures AddAll(map[], Gather(XfersBy(TierOneClaims(verify)), order)) == AddAll(map[], all)
  {
    var f := XfersBy(TierOneClaims(verify));
    forall i | 0 <= i < |txs| ensures f(txs[i]) == ReadBack(AddAll(map[], xss[i])) {
      AnnouncedClaim(verify, sums[i], txs[i]);
    }
    GatherPermuted(f, order, txs);
    SummaryPermuted(map[], Gather(f, order), Gather(f, txs));
    GatherSummaries(f, map[], txs, xss);
    ChainOfSummaries(map[], xss, all);
  }

  /** The balances of an explained pass change by what its summary amounts to. */
  lemma BalancesFollow(b: Books, prior: State, posted: seq<Transfer>, all: seq<Transfer>, a: Address, c: Coin)
    requires Explains(b, prior, posted) && b.summary == AddAll(map[], all)
    ensures Wrap(Balance(b.state, a, c) - Balance(prior, a, c)) == Wrap(Change(all, a, c))
  {
    ExplainedChange(b, prior, posted, a, c);
    RecordedIsChange(all, a, c);
  }

  /** What became of an announcement in a pool and a pass over it. */
  ghost predicate Received(verify: Verifier, txs: seq<seq<byte>>, all: seq<Transfer>, prior: State, limit: nat,
                           pool: Pool, h: Haul<seq<byte>>)
    requires forall tx :: tx in txs ==> SignatureOf(tx).Some?
  {
    // the books are exactly what the pass posted, whatever it refused
    && Explains(h.books, prior, h.posted)
    // every announced summary is accepted exactly under this condition
    && (multiset(h.valid) == multiset(txs)
        <==> NoRepeats(Signatures(txs)) && |txs| <= Max(limit, 1) && AllCovered(prior, [], PoolXfers(verify, pool)))
    // and then summary and balances are what the transfers behind the summaries amount to
    && (multiset(h.valid) == multiset(txs) ==>
          h.books.summary == AddAll(map[], all) && forall a, c :: Moved(prior, h.books.state, all, a, c))
  }

  /** A balance changed by the sum of some transfers, modulo 2^64. */
  predicate Moved(before: State, after: State, xs: seq<Transfer>, a: Address, c: Coin)
  {
    Wrap(Balance(after, a, c) - Balance(before, a, c)) == Wrap(Change(xs, a, c))
  }

  lemma AcceptedBooks(b: Books, prior: State, posted: seq<Transfer>, all: seq<Transfer>)
    requires Explains(b, prior, posted) && AddAll(map[], posted) == AddAll(map[], all)
    ensures b.summary == AddAll(map[], all) && forall a, c :: Moved(prior, b.state, all, a, c)
  {
    forall a, c ensures Moved(prior, b.state, all, a, c) {
      BalancesFollow(b, prior, posted, all, a, c);
    }
  }

  lemma Receives(verify: Verifier, txs: seq<seq<byte>>, sums: seq<Summary>, xss: seq<seq<Transfer>>,
                 all: seq<Transfer>, prior: State, limit: nat, pool: Pool, h: Haul<seq<byte>>)
    requires Carry(verify, txs, sums) && forall tx :: tx in txs ==> SignatureOf(tx).Some?
    requires |xss| == |sums| && forall i :: 0 <= i < |sums| ==> sums[i] == AddAll(map[], xss[i])
    requires multiset(all) == multiset(Summaries.Flatten(xss))
    requires pool == AddTransactions(verify, map[], txs) && h == CollectTierOne(verify, prior, pool, limit)
    ensures Received(verify, txs, all, prior, limit, pool, h)
  {
    PassExplains(TierOneClaims(verify), prior, InPoolOrder(pool), limit);
    AcceptedExactly(verify, txs, sums, prior, limit);
    if multiset(h.valid) == multiset(txs) {
      PoolSummary(verify, txs, InPoolOrder(pool), sums, xss, all);
      AcceptedBooks(h.books, prior, h.posted, all);
    }
  }

  /** The way of the bytes: dump the chain since some height, split it, announce one Tier 1 transaction
      per block, and split the announcement again. */
  lemma Relayed(verify: Verifier, chain: seq<FinalBlock>, start: nat, blocks: seq<FinalBlock>, n: nat, txs: seq<seq<byte>>)
    requires |Dump(chain, start)| < HALF && forall b :: b in BlocksSince(chain, start) ==> WellFormed(b)
    requires SplitBlocks(Dump(chain, start)) == Ok(blocks, n)
    requires Announce(verify, blocks) == Some(txs) && |Chain(txs)| < HALF
    ensures blocks == BlocksSince(chain, start) && Carry(verify, txs, SumsOf(blocks))
    ensures SplitAnnouncement(verify, Chain(txs)) == Ok(txs, |Chain(txs)|)
    ensures forall tx :: tx in txs ==> SignatureOf(tx).Some?
  {
    SplitIs(chain, start, blocks, n);
    forall b | b in blocks ensures Storable(b.summary) {
      assert WellFormed(b);
    }
    AnnouncementCarries(verify, blocks, txs);
    CarryAcceptable(verify, txs, SumsOf(blocks));
  }

  /** End to end: what a Tier 2 node announces for the blocks of its chain since some height reaches
      the pool of a Tier 1 node unchanged, and a pass over that pool receives it: the books are what
      was posted; every summary is accepted if and only if the signatures are distinct, the block has
      room and the prior balances cover the spends; and then the Tier 1 summary is exactly what all
      transfers of all those blocks amount to, in any order, and so are the balances. */
  lemma TwoTiers(verify: Verifier, chain: seq<FinalBlock>, start: nat, blocks: seq<FinalBlock>, n: nat,
                 txs: seq<seq<byte>>, xss: seq<seq<Transfer>>, all: seq<Transfer>, prior: State, limit: nat)
    requires |Dump(chain, start)| < HALF && forall b :: b in BlocksSince(chain, start) ==> WellFormed(b)
    requires SplitBlocks(Dump(chain, start)) == Ok(blocks, n)
    requires Announce(verify, blocks) == Some(txs) && |Chain(txs)| < HALF
    requires |xss| == |blocks| && forall i :: 0 <= i < |xss| ==> blocks[i].summary == AddAll(map[], xss[i])
    requires multiset(all) == multiset(Summaries.Flatten(xss))
    ensures SplitAnnouncement(verify, Chain(txs)) == Ok(txs, |Chain(txs)|)
    ensures forall tx :: tx in txs ==> SignatureOf(tx).Some?
    ensures var pool := AddTransactions(verify, map[], txs);
      Received(verify, txs, all, prior, limit, pool, CollectTierOne(verify, prior, pool, limit))
  {
    Relayed(verify, chain, start, blocks, n, txs);
    var pool := AddTransactions(verify, map[], txs);
    Receives(verify, txs, SumsOf(blocks), xss, all, prior, limit, pool, CollectTierOne(verify, prior, pool, limit));
  }
}
