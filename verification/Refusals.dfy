/** Announced summaries that a Tier 1 node refuses: two blocks in which the same address pays 1, to a
    node that has no balance for it. Each summary alone is accepted, and the announcement is one that
    a verifier lets through, with two different signatures.
 */
module Refusals {
  import opened Words
  import opened Options
  import opened Permutations
  import opened Ordering
  import opened Bytes
  import opened Buffers
  import opened Summaries
  import opened Codec
  import opened Ledger
  import opened Assembly
  import opened Acceptance
  import opened TierOne

  /** The summary of a block with one payment of 1. */
  function PaymentSummary(alice: Address, bob: Address, coin: Coin): Summary
  {
    AddAll(map[], Payment(alice, bob, coin, 1).xfers)
  }

  lemma SummariseTwo(x: Transfer, y: Transfer)
    ensures AddAll(map[], [x, y]) == AddTransfer(AddTransfer(map[], x), y)
  {
    assert [x, y][1..] == [y];
    assert AddAll(AddTransfer(map[], x), [y]) == AddTransfer(AddTransfer(map[], x), y);
  }

  lemma OneCoinRead(a: Address, coin: Coin, amount: int)
    ensures EntryTransfers(a, Entry(map[], map[coin := amount])) == [Transfer(a, coin, amount, 0)]
  {
    var coins: map<Coin, int> := map[coin := amount];
    assert coins.Keys == {coin};
    AscendingStep({coin}, NatLess, coin);
    assert {coin} - {coin} == {} && Ascending<Coin>({}, NatLess) == [];
    assert CoinTransfers(a, [coin], coins) == [Transfer(a, coin, amount, 0)] + CoinTransfers(a, [], coins);
  }

  lemma SummaryIs(alice: Address, bob: Address, coin: Coin)
    requires alice != bob
    ensures PaymentSummary(alice, bob, coin) == map[alice := Entry(map[], map[coin := -1]), bob := Entry(map[], map[coin := 1])]
  {
    SummariseTwo(Transfer(alice, coin, -1, 0), Transfer(bob, coin, 1, 0));
  }

  lemma TwoInOrder(a: Address, b: Address)
    requires StrictOrder(BytesLess) && BytesLess(a, b)
    ensures Ascending({a, b}, BytesLess) == [a, b]
  {
    AscendingStep({a, b}, BytesLess, a);
    assert {a, b} - {a} == {b};
    AscendingStep({b}, BytesLess, b);
    assert {b} - {b} == {} && Ascending<Address>({}, BytesLess) == [];
  }

  lemma TwoRead(s: Summary, a: Address, b: Address, x: Transfer, y: Transfer)
    requires StrictOrder(BytesLess) && BytesLess(a, b) && s.Keys == {a, b}
    requires EntryTransfers(a, s[a]) == [x] && EntryTransfers(b, s[b]) == [y]
    ensures ReadBack(s) == [x, y]
  {
    TwoInOrder(a, b);
    assert [a, b][1..] == [b];
    assert TransfersAt([b], s) == [y] + TransfersAt([], s);
    assert TransfersAt([a, b], s) == [x] + TransfersAt([b], s);
  }

  /** The spend and the receipt are read back, in the order of the addresses. */
  lemma PaymentReadBack(alice: Address, bob: Address, coin: Coin)
    requires alice != bob
    ensures var x, y := Transfer(alice, coin, -1, 0), Transfer(bob, coin, 1, 0);
      ReadBack(PaymentSummary(alice, bob, coin)) in {[x, y], [y, x]}
  {
    var s, x, y := PaymentSummary(alice, bob, coin), Transfer(alice, coin, -1, 0), Transfer(bob, coin, 1, 0);
    SummaryIs(alice, bob, coin);
    OneCoinRead(alice, coin, -1);
    OneCoinRead(bob, coin, 1);
    BytesStrict();
    if BytesLess(alice, bob) { TwoRead(s, alice, bob, x, y); } else { TwoRead(s, bob, alice, y, x); }
  }

  lemma OneSpendCovered(x: Transfer, y: Transfer, xs: seq<Transfer>)
    requires y.amount >= 0 && xs in {[x, y], [y, x]}
    ensures AllCovered(map[], [], xs)
  {
    forall i | 0 <= i < |xs|
      ensures CoveredAt(map[], [] + xs[..i], xs[i])
    {
      assert i == 1 ==> xs[..i] == [xs[0]];
      assert Spends([y], x.addr) == [];
    }
  }

  lemma OneSpend(x: Transfer, y: Transfer, xs: seq<Transfer>)
    requires x.amount < 0 <= y.amount && xs in {[x, y], [y, x]}
    ensures Spends(xs, x.addr) == [x]
  {
    assert xs[1..] == [xs[1]];
    assert Spends([x], x.addr) == [x] && Spends([y], x.addr) == [];
  }

  lemma GatherOne<A, B>(f: A -> seq<B>, order: seq<A>, a: A)
    requires multiset(order) == multiset([a])
    ensures Gather(f, order) == f(a)
  {
    assert |multiset(order)| == |order| && |multiset([a])| == 1;
    assert order[0] in multiset(order);
    assert order == [a] && Gather(f, [a]) == f(a) + [];
  }

  ghost predicate AcceptedAlone(verify: Verifier, tx: seq<byte>, limit: nat)
  {
    CollectTierOne(verify, map[], AddTransactions(verify, map[], [tx]), limit).valid == [tx]
  }

  /** A pool of one transaction has the transfers of its summary. */
  lemma PoolOfOne(verify: Verifier, tx: seq<byte>, s: Summary, pool: Pool)
    requires Carry(verify, [tx], [s]) && pool == AddTransactions(verify, map[], [tx])
    ensures PoolXfers(verify, pool) == ReadBack(s)
  {
    CarryAcceptable(verify, [tx], [s]);
    FreshPool(verify, [tx]);
    CarriesOne(verify, tx, s);
    GatherOne(XfersBy(TierOneClaims(verify)), InPoolOrder(pool), tx);
  }

  lemma CarriesOne(verify: Verifier, tx: seq<byte>, s: Summary)
    requires Carry(verify, [tx], [s])
    ensures XfersBy(TierOneClaims(verify))(tx) == ReadBack(s)
  {
    assert Announced(verify, [s][0], [tx][0]) && Storable([s][0]);
    AnnouncedClaim(verify, s, tx);
  }

  /** A summary whose transfers are covered is accepted alone. */
  lemma CoveredAlone(verify: Verifier, tx: seq<byte>, s: Summary, limit: nat)
    requires Carry(verify, [tx], [s]) && AllCovered(map[], [], ReadBack(s))
    ensures AcceptedAlone(verify, tx, limit)
  {
    var pool := AddTransactions(verify, map[], [tx]);
    PoolOfOne(verify, tx, s, pool);
    AcceptedExactly(verify, [tx], [s], map[], limit);
    OneLeft(CollectTierOne(verify, map[], pool, limit).valid, tx);
  }

  /** Alone, the summary of the payment is accepted. */
  lemma OneIsAccepted(verify: Verifier, tx: seq<byte>, s: Summary, alice: Address, bob: Address, coin: Coin, limit: nat)
    requires alice != bob && s == PaymentSummary(alice, bob, coin) && Carry(verify, [tx], [s])
    ensures AcceptedAlone(verify, tx, limit)
  {
    PaymentReadBack(alice, bob, coin);
    OneSpendCovered(Transfer(alice, coin, -1, 0), Transfer(bob, coin, 1, 0), ReadBack(s));
    CoveredAlone(verify, tx, s, limit);
  }

  lemma OneLeft<T>(xs: seq<T>, x: T)
    requires multiset(xs) == multiset([x])
    ensures xs == [x]
  {
    assert |multiset(xs)| == |xs| && |multiset([x])| == 1;
    assert xs[0] in multiset(xs);
  }

  lemma TwoSpendsSum(xs: seq<Transfer>, a: Address)
    requires Spends(xs, a) != []
    ensures |Spends(xs + xs, a)| >= 2 && Sum(Spends(xs + xs, a)) < 0
  {
    SpendsConcat(xs, xs, a);
    SumConcat(Spends(xs, a), Spends(xs, a));
    var i := LastSpend(xs, a);
    SumConcat(Spends(xs[..i], a), [xs[i]]);
    SumOfSpends(xs[..i], a);
  }

  lemma GatherTwo<A, B>(f: A -> seq<B>, order: seq<A>, xs: seq<B>)
    requires |order| == 2 && f(order[0]) == f(order[1]) == xs
    ensures Gather(f, order) == xs + xs
  {
    assert order[1..] == [order[1]] && Gather(f, [order[1]]) == xs + [];
  }

  lemma SameMembers<T>(xs: seq<T>, ys: seq<T>)
    requires multiset(xs) == multiset(ys)
    ensures |xs| == |ys| && forall i :: 0 <= i < |xs| ==> xs[i] in ys
  {
    assert |multiset(xs)| == |xs| && |multiset(ys)| == |ys|;
    forall i | 0 <= i < |xs| ensures xs[i] in ys { assert xs[i] in multiset(ys); }
  }

  lemma CarriedClaim(verify: Verifier, txs: seq<seq<byte>>, s: Summary, tx: seq<byte>)
    requires Carry(verify, txs, [s, s]) && tx in txs
    ensures XfersBy(TierOneClaims(verify))(tx) == ReadBack(s)
  {
    var i :| 0 <= i < |txs| && txs[i] == tx;
    assert Announced(verify, [s, s][i], tx) && Storable([s, s][i]);
    AnnouncedClaim(verify, s, tx);
  }

  lemma TwiceRead(verify: Verifier, txs: seq<seq<byte>>, order: seq<seq<byte>>, s: Summary)
    requires Carry(verify, txs, [s, s]) && multiset(order) == multiset(txs)
    ensures Gather(XfersBy(TierOneClaims(verify)), order) == ReadBack(s) + ReadBack(s)
  {
    SameMembers(order, txs);
    CarriedClaim(verify, txs, s, order[0]);
    CarriedClaim(verify, txs, s, order[1]);
    GatherTwo(XfersBy(TierOneClaims(verify)), order, ReadBack(s));
  }

  /** Two blocks, each with a payment of 1 by the same address, announced to a Tier 1 node that knows
      nothing of it: not both summaries are accepted, although each of them is by itself. */
  lemma SecondSummaryRefused(verify: Verifier, txs: seq<seq<byte>>, alice: Address, bob: Address, coin: Coin, limit: nat)
    requires alice != bob
    requires var s := PaymentSummary(alice, bob, coin); Carry(verify, txs, [s, s])
    ensures multiset(CollectTierOne(verify, map[], AddTransactions(verify, map[], txs), limit).valid) != multiset(txs)
    ensures forall tx :: tx in txs ==> AcceptedAlone(verify, tx, limit)
  {
    var s := PaymentSummary(alice, bob, coin);
    NotBoth(verify, txs, s, alice, bob, coin, limit);
    forall tx | tx in txs
      ensures AcceptedAlone(verify, tx, limit)
    {
      CarriesEach(verify, txs, s, tx);
      OneIsAccepted(verify, tx, s, alice, bob, coin, limit);
    }
  }

  lemma CarriesEach(verify: Verifier, txs: seq<seq<byte>>, s: Summary, tx: seq<byte>)
    requires Carry(verify, txs, [s, s]) && tx in txs
    ensures Carry(verify, [tx], [s])
  {
    var i :| 0 <= i < |txs| && txs[i] == tx;
    assert Announced(verify, [s, s][i], txs[i]) && Storable([s, s][i]);
  }

  lemma NotBoth(verify: Verifier, txs: seq<seq<byte>>, s: Summary, alice: Address, bob: Address, coin: Coin, limit: nat)
    requires alice != bob && s == PaymentSummary(alice, bob, coin) && Carry(verify, txs, [s, s])
    ensures multiset(CollectTierOne(verify, map[], AddTransactions(verify, map[], txs), limit).valid) != multiset(txs)
  {
    var pool := AddTransactions(verify, map[], txs);
    var h := CollectTierOne(verify, map[], pool, limit);
    if multiset(h.valid) == multiset(txs) {
      AcceptedExactly(verify, txs, [s, s], map[], limit);
      TwiceRead(verify, txs, InPoolOrder(pool), s);
      PaymentReadBack(alice, bob, coin);
      OneSpend(Transfer(alice, coin, -1, 0), Transfer(bob, coin, 1, 0), ReadBack(s));
      PassExplains(TierOneClaims(verify), map[], InPoolOrder(pool), limit);
      assert AggregateOk(h.books, map[], h.posted, alice);
      TwoSpendsSum(ReadBack(s), alice);
    }
  }

  // ---------------------------------------------------------------------------------
  // Such an announcement exists
  // ---------------------------------------------------------------------------------

  lemma {:induction false} ChainBound(parts: seq<seq<byte>>, n: nat)
    requires forall i :: 0 <= i < |parts| ==> |parts[i]| <= n
    ensures |Chain(parts)| <= |parts| * n
    decreases |parts|
  {
    if parts != [] { ChainBound(parts[1..], n); }
  }

  lemma OneCoinBytes(a: Address, coin: Coin, amount: int)
    ensures |EntryBytes(a, Entry(map[], map[coin := amount]))| == |a| + 32
  {
    var coins: map<Coin, int> := map[coin := amount];
    var none: map<Coin, DelayedItem> := map[];
    var codes := Codes(CoinBytes, CoinOrder(coins), coins);
    assert |coins| == 1 && |codes| == 1;
    assert Chain(codes) == codes[0] + Chain(codes[1..]) && codes[1..] == [];
    assert Codes(DelayedBytes, CoinOrder(none), none) == [];
  }

  lemma TwoEntriesBytes(s: Summary, n: nat)
    requires |s| == 2 && forall a :: a in s ==> |EntryBytes(a, s[a])| <= n
    ensures |SummaryBytes(s)| <= 4 + 2 * n
  {
    var codes := Codes(EntryBytes, AddressOrder(s), s);
    forall i | 0 <= i < |codes|
      ensures |codes[i]| <= n
    {
      assert AddressOrder(s)[i] in s;
    }
    ChainBound(codes, n);
  }

  lemma PaymentBytes(alice: Address, bob: Address, coin: Coin, s: Summary)
    requires alice != bob && IsAddress(alice) && IsAddress(bob) && s == PaymentSummary(alice, bob, coin)
    ensures |SummaryBytes(s)| <= 4 + 2 * 82
  {
    SummaryIs(alice, bob, coin);
    OneCoinBytes(alice, coin, -1);
    OneCoinBytes(bob, coin, 1);
    assert s.Keys == {alice, bob};
    TwoEntriesBytes(s, 82);
  }

  lemma PaymentStorable(alice: Address, bob: Address, coin: Coin, s: Summary)
    requires alice != bob && IsAddress(alice) && IsAddress(bob) && coin < WORD && s == PaymentSummary(alice, bob, coin)
    ensures Storable(s)
  {
    SummaryIs(alice, bob, coin);
    assert s.Keys == {alice, bob};
  }

  /** A verifier that accepts every signature. */
  function Trusting(): Verifier
  {
    (_, _, _) => Good
  }

  ghost predicate NodeSignature(sig: seq<byte>)
  {
    |sig| == NODE_SIG_BUF && sig[0] == NODE_SIG_SIZE
  }

  lemma FrameSigned(code: seq<byte>, node: Address, sig: seq<byte>)
    requires |code| < WORD && |node| == NODE_ADDR_BUF && NodeSignature(sig)
    ensures SignatureOf(Frame(code, node, sig)) == Some(sig)
  {
    FrameIsFramed(code, node, sig);
    var tx := Frame(code, node, sig);
    assert tx[|tx| - NODE_SIG_BUF..] == sig;
  }

  lemma TrustedFrame(s: Summary, node: Address, sig: seq<byte>)
    requires Storable(s) && |SummaryBytes(s)| < WORD && |node| == NODE_ADDR_BUF && NodeSignature(sig)
    ensures Announced(Trusting(), s, TierOneBytes(s, node, sig)) && SignatureOf(TierOneBytes(s, node, sig)) == Some(sig)
  {
    FrameIsFramed(SummaryBytes(s), node, sig);
    FrameSigned(SummaryBytes(s), node, sig);
    TierOneDecodes(s, node, sig);
  }

  /** The refusal is not for want of distinct signatures: for any two addresses, any coin, any node
      and any two different signatures there is an announcement of two sound transactions, of which
      each is accepted alone and not both together. */
  lemma RefusedThoughDistinct(alice: Address, bob: Address, coin: Coin, node: Address, sig: seq<byte>, sig': seq<byte>,
      limit: nat)
    returns (verify: Verifier, txs: seq<seq<byte>>)
    requires alice != bob && IsAddress(alice) && IsAddress(bob) && coin < WORD
    requires |node| == NODE_ADDR_BUF && NodeSignature(sig) && NodeSignature(sig') && sig != sig'
    ensures |txs| == 2 && SignatureOf(txs[0]) == Some(sig) && SignatureOf(txs[1]) == Some(sig')
    ensures forall tx :: tx in txs ==> Soundness(verify, tx) == Good && AcceptedAlone(verify, tx, limit)
    ensures multiset(CollectTierOne(verify, map[], AddTransactions(verify, map[], txs), limit).valid) != multiset(txs)
  {
    var s := PaymentSummary(alice, bob, coin);
    PaymentStorable(alice, bob, coin, s);
    PaymentBytes(alice, bob, coin, s);
    verify, txs := Trusting(), [TierOneBytes(s, node, sig), TierOneBytes(s, node, sig')];
    TrustedFrame(s, node, sig);
    TrustedFrame(s, node, sig');
    SecondSummaryRefused(verify, txs, alice, bob, coin, limit);
  }
}
