/** Whose word a Tier 1 node takes: what the signature in a Tier 1 transaction covers, which
    transactions are announced, which get into the pool, and whose summaries a pass posts.
 */
module Vouching {
  import opened Words
  import opened Options
  import opened Permutations
  import opened Ordering
  import opened Bytes
  import opened Buffers
  import opened Summaries
  import opened Codec
  import opened Blocks
  import opened Ledger
  import opened Assembly
  import opened CanonicalOrder
  import opened TierOne

  // ---------------------------------------------------------------------------------
  // The signature
  // ---------------------------------------------------------------------------------

  /** The node address verifies the signature over the summary's bytes, all of them in the frame. */
  ghost predicate Vouched(verify: Verifier, tx: seq<byte>)
  {
    exists code, addr, sig :: IsVouched(verify, tx, code, addr, sig)
  }

  predicate IsVouched(verify: Verifier, tx: seq<byte>, code: seq<byte>, addr: Address, sig: seq<byte>)
  {
    && |addr| == NODE_ADDR_BUF && |sig| == NODE_SIG_BUF && sig[0] == NODE_SIG_SIZE
    && tx == Frame(code, addr, sig) && LeValue(LeBytes(|code|, U64)) == |code|
    && verify(addr, code, sig) == Good
  }

  /** Where the parts of a framed transaction stand. */
  lemma FrameParts(code: seq<byte>, addr: Address, sig: seq<byte>)
    requires |addr| == NODE_ADDR_BUF && |sig| == NODE_SIG_BUF && LeValue(LeBytes(|code|, U64)) == |code|
    ensures var tx := Frame(code, addr, sig);
      && Framed(tx) && DigestOf(tx) == code && NodeOf(tx) == addr
      && SignatureOf(tx) == if sig[0] == NODE_SIG_SIZE then Some(sig) else None
  {
    var tx := Frame(code, addr, sig);
    Cuts(LeBytes(|code|, U64), code, addr, sig, tx);
    assert LeValue(tx[..U64]) == |code| && |tx| == |code| + FRAME_SIZE;
  }

  lemma Cuts(a: seq<byte>, b: seq<byte>, c: seq<byte>, d: seq<byte>, all: seq<byte>)
    requires all == a + (b + (c + d))
    ensures all[..|a|] == a && all[|a|..|all| - |d| - |c|] == b
    ensures all[|all| - |d| - |c|..|all| - |d|] == c && all[|all| - |d|..] == d
  {
  }

  /** Every framed transaction is the frame of its parts. */
  lemma FramedIs(tx: seq<byte>)
    requires Framed(tx)
    ensures tx == Frame(DigestOf(tx), NodeOf(tx), tx[|tx| - NODE_SIG_BUF..])
    ensures LeValue(LeBytes(|DigestOf(tx)|, U64)) == |DigestOf(tx)|
  {
    LeInverse(tx[..U64]);
    assert |DigestOf(tx)| == LeValue(tx[..U64]);
    assert tx == tx[..U64] + (DigestOf(tx) + (NodeOf(tx) + tx[|tx| - NODE_SIG_BUF..]));
  }

  /** do_isSound of a Tier 1 transaction. */
  lemma SoundIsVouched(verify: Verifier, tx: seq<byte>)
    ensures Soundness(verify, tx) == Good <==> Vouched(verify, tx)
  {
    if Soundness(verify, tx) == Good {
      FramedIs(tx);
      assert IsVouched(verify, tx, DigestOf(tx), NodeOf(tx), tx[|tx| - NODE_SIG_BUF..]);
    }
    if code, addr, sig :| IsVouched(verify, tx, code, addr, sig) { FrameParts(code, addr, sig); }
  }

  // ---------------------------------------------------------------------------------
  // The announcement
  // ---------------------------------------------------------------------------------

  /** A block is announced exactly if its validation with the least address is one by a node, its
      summary is sane and that node's signature verifies; and what is announced is its summary with
      that validation. */
  lemma AnnouncedExactly(verify: Verifier, b: FinalBlock, tx: seq<byte>)
    requires LeValue(LeBytes(|SummaryBytes(b.summary)|, U64)) == |SummaryBytes(b.summary)|
    ensures AnnounceOne(verify, b) == Some(tx) <==> exists a :: Announces(verify, b, a, tx)
  {
    if b.vals != map[] {
      AnnouncedBy(verify, b, AddressOrder(b.vals)[0], SummaryBytes(b.summary), tx);
    }
  }

  lemma AnnouncedBy(verify: Verifier, b: FinalBlock, first: Address, code: seq<byte>, tx: seq<byte>)
    requires code == SummaryBytes(b.summary) && LeValue(LeBytes(|code|, U64)) == |code|
    requires b.vals != map[] && AddressOrder(b.vals) != [] && first == AddressOrder(b.vals)[0]
    ensures AnnounceOne(verify, b) == Some(tx) <==> exists a :: Announces(verify, b, a, tx)
  {
    FirstIsLeast(b.vals, AddressOrder(b.vals));
    AnnounceOneIs(verify, b, first, code);
    WithExactly(verify, IsSane(b.summary), code, first, b.vals[first], tx);
    assert Announces(verify, b, first, tx) <==> IsSane(b.summary) && Carries(verify, code, first, b.vals[first], tx);
    if a :| Announces(verify, b, a, tx) { OneLeast(b.vals, a, first); }
  }

  /** Of the block, a is the least address and that of a node, whose validation of the sane summary
      verifies, and tx is made of both. */
  ghost predicate Announces(verify: Verifier, b: FinalBlock, a: Address, tx: seq<byte>)
  {
    IsLeast(a, b.vals) && IsSane(b.summary) && Carries(verify, SummaryBytes(b.summary), a, b.vals[a], tx)
  }

  predicate Carries(verify: Verifier, code: seq<byte>, a: Address, sig: seq<byte>, tx: seq<byte>)
  {
    && |a| == NODE_ADDR_BUF && |sig| == NODE_SIG_BUF && sig[0] == NODE_SIG_SIZE
    && verify(a, code, sig) == Good && tx == Frame(code, a, sig)
  }

  ghost predicate IsLeast<V>(a: seq<byte>, m: map<seq<byte>, V>)
  {
    a in m && forall c :: c in m ==> c == a || Precedes(a, c)
  }

  lemma OneLeast<V>(m: map<seq<byte>, V>, a: seq<byte>, b: seq<byte>)
    requires IsLeast(a, m) && IsLeast(b, m)
    ensures a == b
  {
    if a != b { OneWay(a, b); }
  }

  /** AnnounceOne from the point where it has the summary's bytes and the first validation. */
  function AnnounceWith(verify: Verifier, sane: bool, code: seq<byte>, a: Address, sig: seq<byte>): Option<seq<byte>>
  {
    if !sane || |sig| != NODE_SIG_BUF || |a| != NODE_ADDR_BUF || Soundness(verify, Frame(code, a, sig)) != Good then None
    else Some(Frame(code, a, sig))
  }

  lemma AnnounceOneIs(verify: Verifier, b: FinalBlock, a: Address, code: seq<byte>)
    requires a in b.vals && AddressOrder(b.vals) != [] && a == AddressOrder(b.vals)[0] && code == SummaryBytes(b.summary)
    ensures AnnounceOne(verify, b) == AnnounceWith(verify, IsSane(b.summary), code, a, b.vals[a])
  {
  }

  lemma WithExactly(verify: Verifier, sane: bool, code: seq<byte>, a: Address, sig: seq<byte>, tx: seq<byte>)
    requires LeValue(LeBytes(|code|, U64)) == |code|
    ensures AnnounceWith(verify, sane, code, a, sig) == Some(tx) <==> sane && Carries(verify, code, a, sig, tx)
  {
    if |a| == NODE_ADDR_BUF && |sig| == NODE_SIG_BUF { FrameSoundness(verify, code, a, sig); }
  }

  lemma FrameSoundness(verify: Verifier, code: seq<byte>, addr: Address, sig: seq<byte>)
    requires |addr| == NODE_ADDR_BUF && |sig| == NODE_SIG_BUF && LeValue(LeBytes(|code|, U64)) == |code|
    ensures Soundness(verify, Frame(code, addr, sig)) == if sig[0] == NODE_SIG_SIZE then verify(addr, code, sig) else Throws
  {
    FrameParts(code, addr, sig);
  }

  lemma FirstIsLeast<V>(m: map<seq<byte>, V>, ks: seq<seq<byte>>)
    requires m != map[] && ks == AddressOrder(m)
    ensures ks != [] && ks[0] in m && IsLeast(ks[0], m)
  {
    ByBytesIs(ks, m);
    forall c | c in m ensures c == ks[0] || Precedes(ks[0], c) { var i :| 0 <= i < |ks| && ks[i] == c; }
  }

  /** The constructor from a buffer checks the signature of a transaction only if at least as many
      bytes follow as it is long: the last transaction of an announcement is taken unchecked. */
  lemma CheckedExactly(verify: Verifier, d: seq<byte>, o: nat, tx: seq<byte>)
    requires |d| < HALF && Has(d, o, tx) && Framed(tx)
    ensures ReadTierOne(verify, d, o)
         == if Vouched(verify, tx) || |d| < o + 2 * |tx| then Ok(tx, o + |tx|) else Failed
  {
    assert d[o..o + U64] == d[o..o + |tx|][..U64];
    SoundIsVouched(verify, tx);
  }

  // ---------------------------------------------------------------------------------
  // The pool
  // ---------------------------------------------------------------------------------

  /** The entry is new and holds a vouched transaction of the list under its own signature. */
  ghost predicate Entered(verify: Verifier, txs: seq<seq<byte>>, sig: seq<byte>, entry: Pooled)
  {
    entry.tx in txs && Vouched(verify, entry.tx) && SignatureOf(entry.tx) == Some(sig)
  }

  /** What AddTransactions does to a pool: nothing leaves it or is replaced, and whatever is new is a
      vouched transaction of the list. */
  lemma {:induction false} AddedAreVouched(verify: Verifier, pool: Pool, txs: seq<seq<byte>>)
    ensures var r := AddTransactions(verify, pool, txs);
      && (forall sig :: sig in pool ==> sig in r && r[sig].tx == pool[sig].tx)
      && (forall sig :: sig in r && sig !in pool ==> Entered(verify, txs, sig, r[sig]))
    decreases |txs|
  {
    if txs != [] {
      var sig := SignatureOf(txs[0]);
      if sig.Some? && (sig.value in pool || Soundness(verify, txs[0]) != Throws) {
        var next := Entering(verify, pool, txs[0], sig.value);
        AddedAreVouched(verify, next, txs[1..]);
        EnteringIs(verify, pool, next, txs, sig.value);
        AddedNext(verify, pool, next, txs, AddTransactions(verify, next, txs[1..]));
      }
    }
  }

  lemma EnteringIs(verify: Verifier, pool: Pool, next: Pool, txs: seq<seq<byte>>, own: seq<byte>)
    requires txs != [] && SignatureOf(txs[0]) == Some(own) && next == Entering(verify, pool, txs[0], own)
    ensures forall sig :: sig in pool ==> sig in next && next[sig].tx == pool[sig].tx
    ensures forall sig :: sig in next && sig !in pool ==> Entered(verify, txs, sig, next[sig])
  {
    SoundIsVouched(verify, txs[0]);
    assert txs[0] in txs;
  }

  lemma AddedNext(verify: Verifier, pool: Pool, next: Pool, txs: seq<seq<byte>>, r: Pool)
    requires txs != [] && (forall sig :: sig in next ==> sig in r && r[sig].tx == next[sig].tx)
    requires forall sig :: sig in r && sig !in next ==> Entered(verify, txs[1..], sig, r[sig])
    requires forall sig :: sig in pool ==> sig in next && next[sig].tx == pool[sig].tx
    requires forall sig :: sig in next && sig !in pool ==> Entered(verify, txs, sig, next[sig])
    ensures forall sig :: sig in pool ==> sig in r && r[sig].tx == pool[sig].tx
    ensures forall sig :: sig in r && sig !in pool ==> Entered(verify, txs, sig, r[sig])
  {
    forall sig | sig in r && sig !in pool ensures Entered(verify, txs, sig, r[sig]) {
      if sig !in next { assert Entered(verify, txs[1..], sig, r[sig]) && forall tx :: tx in txs[1..] ==> tx in txs; }
    }
  }

  /** One turn of the loop that goes on. */
  function Entering(verify: Verifier, pool: Pool, tx: seq<byte>, sig: seq<byte>): Pool
  {
    if sig in pool then pool[sig := pool[sig].(refs := (pool[sig].refs + 1) % 256)]
    else if Soundness(verify, tx) == Good then pool[sig := Pooled(1, tx)]
    else pool
  }

  /** How often the signature occurs in a list. */
  function Occurs(txs: seq<seq<byte>>, sig: seq<byte>): nat
  {
    if txs == [] then 0 else (if SignatureOf(txs[0]) == Some(sig) then 1 else 0) + Occurs(txs[1..], sig)
  }

  lemma WrapRefs(x: nat, n: nat)
    ensures ((x + 1) % 256 + n) % 256 == (x + (1 + n)) % 256
  {
  }

  /** The references of a transaction already in the pool grow, in eight bits, by the number of times
      it is announced again, unless an exception ends the loop. */
  lemma {:induction false} RefsCount(verify: Verifier, pool: Pool, txs: seq<seq<byte>>, sig: seq<byte>)
    requires sig in pool && pool[sig].refs < 256
    requires forall tx :: tx in txs ==> Soundness(verify, tx) != Throws
    ensures var r := AddTransactions(verify, pool, txs);
      sig in r && r[sig].refs == (pool[sig].refs + Occurs(txs, sig)) % 256
    decreases |txs|
  {
    if txs != [] {
      assert txs[0] in txs && forall tx :: tx in txs[1..] ==> tx in txs;
      var own := SignatureOf(txs[0]).value;
      var next := Entering(verify, pool, txs[0], own);
      WrapRefs(pool[sig].refs, Occurs(txs[1..], sig));
      RefsCount(verify, next, txs[1..], sig);
    }
  }

  // ---------------------------------------------------------------------------------
  // A pass
  // ---------------------------------------------------------------------------------

  /** The transfer is one that the getters read back from the summary of a vouched transaction. */
  ghost predicate Backed(verify: Verifier, pool: seq<seq<byte>>, x: Transfer)
  {
    exists tx, y :: tx in pool && Vouched(verify, tx) && ReadSummary(tx, U64).Ok?
                    && y in ReadBack(ReadSummary(tx, U64).value) && ViewTransfer(XferBytes(y)) == Some(x)
  }

  ghost predicate AllBacked(verify: Verifier, pool: seq<seq<byte>>, xs: seq<Transfer>)
  {
    forall x :: x in xs ==> Backed(verify, pool, x)
  }

  ghost predicate AllVouched(verify: Verifier, txs: seq<seq<byte>>)
  {
    forall tx :: tx in txs ==> Vouched(verify, tx) && ReadSummary(tx, U64).Ok?
  }

  lemma {:induction false} ReadableFrom(xs: seq<Transfer>)
    ensures forall x :: x in Readable(xs).0 ==> exists y :: y in xs && ViewTransfer(XferBytes(y)) == Some(x)
  {
    if xs != [] && ViewTransfer(XferBytes(xs[0])).Some? {
      ReadableFrom(xs[1..]);
      forall x | x in Readable(xs).0 ensures exists y :: y in xs && ViewTransfer(XferBytes(y)) == Some(x) {
        if x in Readable(xs[1..]).0 {
          var y :| y in xs[1..] && ViewTransfer(XferBytes(y)) == Some(x);
          assert y in xs;
        } else {
          assert xs[0] in xs && ViewTransfer(XferBytes(xs[0])) == Some(x);
        }
      }
    }
  }

  lemma ClaimBacked(verify: Verifier, tx: seq<byte>, pool: seq<seq<byte>>)
    requires tx in pool
    ensures AllBacked(verify, pool, TierOneClaim(verify, tx).xfers)
    ensures TierOneClaim(verify, tx).sound ==> Vouched(verify, tx) && ReadSummary(tx, U64).Ok?
  {
    SoundIsVouched(verify, tx);
    if TierOneClaim(verify, tx).sound { ReadableFrom(ReadBack(ReadSummary(tx, U64).value)); }
  }

  lemma ConsiderBacked(verify: Verifier, h: Haul<seq<byte>>, prior: State, tx: seq<byte>, all: seq<seq<byte>>)
    requires AllBacked(verify, all, h.posted) && AllVouched(verify, h.valid) && tx in all
    ensures var h' := Consider(TierOneClaims(verify), h, prior, tx);
      AllBacked(verify, all, h'.posted) && AllVouched(verify, h'.valid)
  {
    var c := TierOneClaim(verify, tx);
    ClaimBacked(verify, tx, all);
    var v := IsValidInAggregate(h.books, prior, c);
    assert v.posted <= c.xfers;
  }

  lemma {:induction false} CollectBacked(verify: Verifier, h: Haul<seq<byte>>, prior: State, pool: seq<seq<byte>>,
      limit: nat, all: seq<seq<byte>>)
    requires AllBacked(verify, all, h.posted) && AllVouched(verify, h.valid) && forall tx :: tx in pool ==> tx in all
    ensures var r := Collect(TierOneClaims(verify), h, prior, pool, limit);
      AllBacked(verify, all, r.posted) && AllVouched(verify, r.valid)
    decreases |pool|
  {
    if pool != [] {
      assert pool[0] in pool && forall tx :: tx in pool[1..] ==> tx in pool;
      ConsiderBacked(verify, h, prior, pool[0], all);
      CollectBacked(verify, Consider(TierOneClaims(verify), h, prior, pool[0]), prior, pool[1..], limit, all);
    }
  }

  /** A Tier 1 pass posts only transfers from summaries that a node vouched for, and accepts only
      transactions that carry such a summary. */
  lemma EverySummaryVouched(verify: Verifier, prior: State, pool: Pool, limit: nat)
    ensures var h := CollectTierOne(verify, prior, pool, limit);
      && (forall x :: x in h.posted ==> Backed(verify, InPoolOrder(pool), x))
      && (forall tx :: tx in h.valid ==> Vouched(verify, tx) && ReadSummary(tx, U64).Ok?)
  {
    CollectBacked(verify, Start(prior), prior, InPoolOrder(pool), limit, InPoolOrder(pool));
  }
}
