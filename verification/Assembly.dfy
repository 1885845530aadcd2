/** Block assembly by an honest leader: what a pass over a pool of well-shaped transactions
    guarantees about the block it proposes.
 */
module Assembly {
  import opened Words
  import opened Options
  import opened Summaries
  import opened Ledger
  import Totals

  // ---------------------------------------------------------------------------------
  // Totals
  // ---------------------------------------------------------------------------------

  ghost function StateTotal(st: State): int
  {
    Totals.Total(map a | a in st :: Totals.Total(st[a]))
  }

  lemma AddCoinTotal(st: State, sc: SmartCoin)
    ensures StateTotal(AddCoin(st, sc)) == StateTotal(st) + sc.amount
  {
    var st' := AddCoin(st, sc);
    var m := map a | a in st :: Totals.Total(st[a]);
    var m' := map a | a in st' :: Totals.Total(st'[a]);
    assert m' == m[sc.addr := Totals.Total(st'[sc.addr])];
    Totals.TotalSet(m, sc.addr, Totals.Total(st'[sc.addr]));
    var inner: map<Coin, int> := if sc.addr in st then st[sc.addr] else map[];
    var amount := (if sc.coin in inner then inner[sc.coin] else 0) + sc.amount;
    assert st'[sc.addr] == inner[sc.coin := amount];
    Totals.TotalSet(inner, sc.coin, amount);
  }

  lemma {:induction false} PostAllTotal(st: State, xs: seq<Transfer>)
    ensures StateTotal(PostAll(st, xs)) == StateTotal(st) + Sum(xs)
    decreases |xs|
  {
    if xs != [] {
      var sc := SmartCoin(xs[0].addr, xs[0].coin, xs[0].amount);
      AddCoinTotal(st, sc);
      PostAllTotal(AddCoin(st, sc), xs[1..]);
    }
  }

  ghost function EntryTotal(e: Entry): int
  {
    DeltaTotal(e.delayed) + Totals.Total(e.coins)
  }

  ghost function EntryTotals(s: Summary): map<Address, int>
  {
    Mapped(EntryTotal, s)
  }

  ghost function Mapped<K, V>(f: V -> int, m: map<K, V>): map<K, int>
  {
    map k | k in m :: f(m[k])
  }

  lemma MappedSet<K, V>(f: V -> int, m: map<K, V>, k: K, v: V)
    ensures Mapped(f, m[k := v]) == Mapped(f, m)[k := f(v)]
  {
  }

  ghost function SummaryTotal(s: Summary): int
  {
    Totals.Total(EntryTotals(s))
  }

  /** Summary::isSane: not empty, and the 64-bit sum of all deltas is zero. */
  ghost predicate IsSane(s: Summary)
  {
    s != map[] && Wrap(SummaryTotal(s)) == 0
  }

  function Deltas(m: map<Coin, DelayedItem>): map<Coin, int>
  {
    map c | c in m :: m[c].delta
  }

  ghost function DeltaTotal(m: map<Coin, DelayedItem>): int
  {
    Totals.Total(Deltas(m))
  }

  lemma DelayedTotal(coin: Coin, item: DelayedItem, m: map<Coin, DelayedItem>)
    ensures Wrap(DeltaTotal(AddToDelayedMap(coin, item, m))) == Wrap(DeltaTotal(m) + item.delta)
  {
    var m' := AddToDelayedMap(coin, item, m);
    assert Deltas(m') == Deltas(m)[coin := m'[coin].delta];
    Totals.TotalSet(Deltas(m), coin, m'[coin].delta);
    if coin in m { WrapCong(m'[coin].delta, m[coin].delta + item.delta, DeltaTotal(m) - m[coin].delta); }
  }

  lemma CoinTotal(coin: Coin, item: DelayedItem, m: map<Coin, int>)
    requires item.delta < WORD
    ensures Wrap(Totals.Total(AddToCoinMap(coin, item, m))) == Wrap(Totals.Total(m) + item.delta)
  {
    var m': map<Coin, int> := AddToCoinMap(coin, item, m);
    var before, after := if coin in m then m[coin] else 0, m'[coin];
    Totals.TotalSet(m, coin, after);
    WrapAdd(before, item.delta);
    WrapPart(Totals.Total(m), Totals.Total(m'), before, after, item.delta);
  }

  lemma DelayedGrows(e: Entry, x: Transfer)
    ensures Wrap(EntryTotal(e.(delayed := AddToDelayedMap(x.coin, ItemOf(x), e.delayed)))) == Wrap(EntryTotal(e) + x.amount)
  {
    var m := AddToDelayedMap(x.coin, ItemOf(x), e.delayed);
    DelayedTotal(x.coin, ItemOf(x), e.delayed);
    EntryGrowsBy(e, Entry(m, e.coins), x.amount, true);
  }

  /** One of the two maps of an entry moves by an amount. */
  lemma EntryGrowsBy(e: Entry, e': Entry, amount: int, delayed: bool)
    requires delayed ==> e'.coins == e.coins && Wrap(DeltaTotal(e'.delayed)) == Wrap(DeltaTotal(e.delayed) + Wrap(amount))
    requires !delayed ==> e'.delayed == e.delayed && Wrap(Totals.Total(e'.coins)) == Wrap(Totals.Total(e.coins) + Wrap(amount))
    ensures Wrap(EntryTotal(e')) == Wrap(EntryTotal(e) + amount)
  {
    var d, d', c, c' := DeltaTotal(e.delayed), DeltaTotal(e'.delayed), Totals.Total(e.coins), Totals.Total(e'.coins);
    if delayed { PartGrows(d, d', c, amount); } else { PartGrows(c, c', d, amount); }
  }

  lemma CoinsGrow(e: Entry, x: Transfer)
    ensures Wrap(EntryTotal(e.(coins := AddToCoinMap(x.coin, ItemOf(x), e.coins)))) == Wrap(EntryTotal(e) + x.amount)
  {
    var m := AddToCoinMap(x.coin, ItemOf(x), e.coins);
    CoinTotal(x.coin, ItemOf(x), e.coins);
    EntryGrowsBy(e, Entry(e.delayed, m), x.amount, false);
  }

  lemma EntryGrows(e: Entry, e': Entry, x: Transfer)
    requires e' == if x.delay > 0 then e.(delayed := AddToDelayedMap(x.coin, ItemOf(x), e.delayed))
                   else e.(coins := AddToCoinMap(x.coin, ItemOf(x), e.coins))
    ensures Wrap(EntryTotal(e')) == Wrap(EntryTotal(e) + x.amount)
  {
    if x.delay > 0 {
      DelayedGrows(e, x);
    } else {
      CoinsGrow(e, x);
    }
  }

  lemma PartGrows(part: int, part': int, rest: int, amount: int)
    requires Wrap(part') == Wrap(part + Wrap(amount))
    ensures Wrap(part' + rest) == Wrap(part + rest + amount)
  {
    WrapAdd(part, amount);
    WrapCong(part', part + amount, rest);
  }

  lemma EmptyTotal()
    ensures SummaryTotal(map[]) == 0
  {
    assert EntryTotals(map[]) == map[];
  }

  lemma SummarySet(s: Summary, a: Address, e: Entry)
    ensures SummaryTotal(s[a := e]) == SummaryTotal(s) + EntryTotal(e) - EntryTotal(EntryOf(s, a))
  {
    MappedSet(EntryTotal, s, a, e);
    Totals.TotalSet(EntryTotals(s), a, EntryTotal(e));
  }

  lemma AddTransferTotal(s: Summary, x: Transfer)
    ensures Wrap(SummaryTotal(AddTransfer(s, x))) == Wrap(SummaryTotal(s) + x.amount)
  {
    var e, e' := EntryOf(s, x.addr), AddTransfer(s, x)[x.addr];
    EntryGrows(e, e', x);
    assert AddTransfer(s, x) == s[x.addr := e'];
    SetTotal(s, x.addr, e', x.amount);
  }

  /** An entry that moves by an amount moves the total by it. */
  lemma SetTotal(s: Summary, a: Address, e: Entry, amount: int)
    requires Wrap(EntryTotal(e)) == Wrap(EntryTotal(EntryOf(s, a)) + amount)
    ensures Wrap(SummaryTotal(s[a := e])) == Wrap(SummaryTotal(s) + amount)
  {
    SummarySet(s, a, e);
    WrapPart(SummaryTotal(s), SummaryTotal(s[a := e]), EntryTotal(EntryOf(s, a)), EntryTotal(e), amount);
  }

  ghost predicate Additive(total: Summary -> int)
  {
    forall t, x :: Moves(total, t, x)
  }

  ghost predicate Moves(total: Summary -> int, s: Summary, x: Transfer)
  {
    Wrap(total(AddTransfer(s, x))) == Wrap(total(s) + x.amount)
  }

  /** A quantity that every transfer moves by its amount is moved by a list by its sum. */
  lemma {:induction false} FoldTotal(total: Summary -> int, s: Summary, xs: seq<Transfer>)
    requires Additive(total)
    ensures Wrap(total(AddAll(s, xs))) == Wrap(total(s) + Sum(xs))
    decreases |xs|
  {
    if xs != [] {
      var t := AddTransfer(s, xs[0]);
      FoldTotal(total, t, xs[1..]);
      assert Moves(total, s, xs[0]);
      WrapChain(total(s), total(t), total(AddAll(s, xs)), xs[0].amount, Sum(xs[1..]), Sum(xs));
    }
  }

  lemma AddAllTotal(s: Summary, xs: seq<Transfer>)
    ensures Wrap(SummaryTotal(AddAll(s, xs))) == Wrap(SummaryTotal(s) + Sum(xs))
  {
    TotalIsAdditive();
    FoldTotal(SummaryTotal, s, xs);
  }

  lemma TotalIsAdditive()
    ensures Additive(SummaryTotal)
  {
    forall t, x
      ensures Moves(SummaryTotal, t, x)
    {
      TotalMoves(t, x);
    }
  }

  lemma TotalMoves(s: Summary, x: Transfer)
    ensures Moves(SummaryTotal, s, x)
  {
    AddTransferTotal(s, x);
  }

  // ---------------------------------------------------------------------------------
  // Rejection
  // ---------------------------------------------------------------------------------

  /** Only the first transfer may be a spend. */
  predicate LaterAreReceipts(xs: seq<Transfer>)
  {
    forall i :: 1 <= i < |xs| ==> xs[i].amount >= 0
  }

  /** One spend, placed first: the shape the transaction generators build. */
  predicate SenderFirst(xs: seq<Transfer>)
  {
    xs != [] && xs[0].amount < 0 && LaterAreReceipts(xs)
  }

  lemma {:induction false} ReceiptsAreAdmitted(b: Books, prior: State, guarded: bool, xs: seq<Transfer>)
    requires forall i :: 0 <= i < |xs| ==> xs[i].amount >= 0
    ensures var v := RunTransfers(b, prior, guarded, xs); v.ok && v.books.aggregate == b.aggregate
    decreases |xs|
  {
    if xs != [] { ReceiptsAreAdmitted(Post(b, xs[0]), prior, guarded, xs[1..]); }
  }

  /** A transaction in which only the first transfer may be a spend is taken whole or leaves the
      books as they were. */
  lemma AllOrNothing(b: Books, prior: State, c: Claim)
    requires c.complete && LaterAreReceipts(c.xfers)
    ensures var v := IsValidInAggregate(b, prior, c);
      if v.ok then v.posted == c.xfers else v.books == b && v.posted == []
  {
    if c.xfers != [] {
      var first := Admit(b, prior, c.guarded, c.xfers[0]);
      if first.Some? { ReceiptsAreAdmitted(first.value, prior, c.guarded, c.xfers[1..]); }
    }
  }

  /** A run goes on from where a prefix of it ended. */
  lemma {:induction false} RunOn(b: Books, prior: State, guarded: bool, xs: seq<Transfer>, k: nat)
    requires k <= |xs| && RunTransfers(b, prior, guarded, xs[..k]).ok
    ensures var v, v' := RunTransfers(b, prior, guarded, xs),
                         RunTransfers(RunTransfers(b, prior, guarded, xs[..k]).books, prior, guarded, xs[k..]);
      v.ok == v'.ok && v.books == v'.books
    decreases k
  {
    if k == 0 {
      assert xs[0..] == xs;
    } else {
      var next := Admit(b, prior, guarded, xs[0]);
      Slices(xs, k);
      RunTransfersStep(b, prior, guarded, xs[..k], next.value);
      RunTransfersStep(b, prior, guarded, xs, next.value);
      RunOn(next.value, prior, guarded, xs[1..], k - 1);
    }
  }

  lemma Slices<T>(xs: seq<T>, k: nat)
    requires 0 < k <= |xs|
    ensures xs[..k][0] == xs[0] && xs[..k][1..] == xs[1..][..k - 1] && xs[1..][k - 1..] == xs[k..]
  {
  }

  /** With nothing in the prior state, an address that has committed a spend gets no other. */
  lemma SecondSpendRefused(b: Books, guarded: bool, xs: seq<Transfer>)
    requires xs != [] && xs[0].amount < 0 && xs[0].addr in b.aggregate && b.aggregate[xs[0].addr].amount < 0
    ensures RunTransfers(b, map[], guarded, xs) == Verdict(b, false, [])
  {
  }

  lemma FirstLaterSpend(xs: seq<Transfer>) returns (k: nat)
    requires !LaterAreReceipts(xs)
    ensures 1 <= k < |xs| && xs[k].amount < 0 && forall i :: 1 <= i < k ==> xs[i].amount >= 0
  {
    k := 1;
    while xs[k].amount >= 0
      invariant 1 <= k < |xs| && forall i :: 1 <= i < k ==> xs[i].amount >= 0
      decreases |xs| - k
    {
      assert exists i :: k < i < |xs| && xs[i].amount < 0;
      k := k + 1;
    }
  }

  /** Whatever a pass over some pool left behind: if the transaction is then refused, it has
      changed nothing in state, summary or aggregate. */
  ghost predicate RejectedCleanly(prior: State, keys: Keys, pool: seq<Tx>, limit: nat, tx: Tx)
  {
    var b := CollectTxs(prior, keys, pool, limit).books;
    var v := IsValidInAggregate(b, prior, TxClaim(tx, keys));
    v.ok || v.books == b
  }

  /** Two spends, the first of them in front: from nothing, the second one is refused and the first
      stays committed. */
  lemma SpendThenSpend(tx: Tx, keys: Keys, k: nat)
    requires IsSound(tx, keys) && 1 <= k < |tx.xfers| && tx.xfers[0].amount < 0 && tx.xfers[k].amount < 0
    requires forall i :: 1 <= i < k ==> tx.xfers[i].amount >= 0
    ensures !RejectedCleanly(map[], keys, [], 1, tx)
  {
    var xs, guarded := tx.xfers, tx.oper == Exchange;
    var b := CollectTxs(map[], keys, [], 1).books;
    var b' := Admit(b, map[], guarded, xs[0]).value;
    assert xs[..k][0] == xs[0];
    RunTransfersStep(b, map[], guarded, xs[..k], b');
    ReceiptsAreAdmitted(b', map[], guarded, xs[..k][1..]);
    assert xs[0].addr == xs[k].addr;
    var b'' := RunTransfers(b, map[], guarded, xs[..k]).books;
    RunOn(b, map[], guarded, xs, k);
    SecondSpendRefused(b'', guarded, xs[k..]);
  }

  /** A transaction of one address with itself. */
  function Loop(a: Address, c: Coin): Tx
  {
    Tx(Exchange, [Transfer(a, c, -1, 0), Transfer(a, c, 1, 0)], a)
  }

  lemma LoopIsSound(a: Address, c: Coin, keys: Keys)
    ensures IsSound(Loop(a, c), keys) && SenderFirst(Loop(a, c).xfers)
  {
    var xs := Loop(a, c).xfers;
    assert xs[1..] == [xs[1]] && Sum(xs[1..]) == 1;
    assert xs[..1] == [xs[0]] && Sender([xs[0]]) == a;
  }

  /** After it, the address has committed one coin, and only that cell of the state is set. */
  lemma AfterLoop(a: Address, c: Coin, keys: Keys)
    ensures var b := CollectTxs(map[], keys, [Loop(a, c)], 1).books;
      && a in b.aggregate && b.aggregate[a].amount == -1
      && forall d, e :: HasCell(b.state, d, e) ==> d == a && e == c
  {
    var tx := Loop(a, c);
    var b := Start<Tx>(map[]).books;
    LoopIsSound(a, c, keys);
    var b' := Admit(b, map[], true, tx.xfers[0]).value;
    RunTransfersStep(b, map[], true, tx.xfers, b');
    assert tx.xfers[1..] == [tx.xfers[1]];
    RunTransfersStep(b', map[], true, tx.xfers[1..], Post(b', tx.xfers[1]));
    var h := Consider(TxClaims(keys), Start(map[]), map[], tx);
    assert h.books == Post(b', tx.xfers[1]) && h.valid == [tx];
    assert CollectTxs(map[], keys, [tx], 1) == h;
  }

  /** Receipts are posted before the spend of somebody who has committed from nothing is refused. */
  lemma ReceiptsStay(b: Books, guarded: bool, xs: seq<Transfer>, k: nat)
    requires 1 <= k < |xs| && xs[k].amount < 0 && forall i :: 0 <= i < k ==> xs[i].amount >= 0
    requires xs[k].addr in b.aggregate && b.aggregate[xs[k].addr].amount < 0
    ensures var v := RunTransfers(b, map[], guarded, xs); !v.ok && HasCell(v.books.state, xs[0].addr, xs[0].coin)
  {
    ReceiptsAreAdmitted(b, map[], guarded, xs[..k]);
    RunOn(b, map[], guarded, xs, k);
    SecondSpendRefused(RunTransfers(b, map[], guarded, xs[..k]).books, guarded, xs[k..]);
    RunState(b, map[], guarded, xs[..k]);
    PostAllSets(b.state, xs[..k]);
    assert xs[..k][0] == xs[0];
  }

  /** A receipt in front of a spend: once the spender has committed something from nothing, the
      spend is refused and the receipt stays. */
  lemma ReceiptThenSpend(tx: Tx, keys: Keys, k: nat)
    requires IsSound(tx, keys) && 1 <= k < |tx.xfers| && tx.xfers[k].amount < 0
    requires forall i :: 0 <= i < k ==> tx.xfers[i].amount >= 0
    ensures !RejectedCleanly(map[], keys, [Loop(tx.xfers[k].addr, tx.xfers[0].coin + 1)], 1, tx)
  {
    var spender, coin := tx.xfers[k].addr, tx.xfers[0].coin + 1;
    AfterLoop(spender, coin, keys);
    ReceiptsStay(CollectTxs(map[], keys, [Loop(spender, coin)], 1).books, tx.oper == Exchange, tx.xfers, k);
  }

  /** The exact shape: however a pass went before, a rejection of this sound transaction leaves no
      trace, if and only if no transfer but the first is a spend. */
  lemma RejectionIsCleanExactly(tx: Tx, keys: Keys)
    requires IsSound(tx, keys)
    ensures (forall prior, pool, limit :: RejectedCleanly(prior, keys, pool, limit, tx)) <==> LaterAreReceipts(tx.xfers)
  {
    if LaterAreReceipts(tx.xfers) {
      forall prior, pool, limit ensures RejectedCleanly(prior, keys, pool, limit, tx) {
        AllOrNothing(CollectTxs(prior, keys, pool, limit).books, prior, TxClaim(tx, keys));
      }
    } else {
      var k := FirstLaterSpend(tx.xfers);
      if tx.xfers[0].amount < 0 {
        SpendThenSpend(tx, keys, k);
      } else {
        ReceiptThenSpend(tx, keys, k);
      }
    }
  }

  function Payment(from: Address, to: Address, coin: Coin, amount: int): Tx
  {
    Tx(Exchange, [Transfer(from, coin, -amount, 0), Transfer(to, coin, amount, 0)], from)
  }

  /** The same with the receipt in front of the spend. */
  function Backwards(from: Address, to: Address, coin: Coin, amount: int): Tx
  {
    Tx(Exchange, [Transfer(to, coin, amount, 0), Transfer(from, coin, -amount, 0)], from)
  }

  lemma PaymentsAreSound(from: Address, to: Address, coin: Coin, amount: int, keys: Keys)
    requires amount > 0
    ensures IsSound(Payment(from, to, coin, amount), keys) && IsSound(Backwards(from, to, coin, amount), keys)
  {
    var xs, ys := Payment(from, to, coin, amount).xfers, Backwards(from, to, coin, amount).xfers;
    assert xs[1..] == [xs[1]] && Sum(xs[1..]) == amount;
    assert ys[1..] == [ys[1]] && Sum(ys[1..]) == -amount;
    assert xs[..1] == [xs[0]] && Sender([xs[0]]) == from;
  }

  /** From nothing, one payment is accepted and overdraws its sender. */
  lemma FirstPayment(from: Address, to: Address, coin: Coin, amount: int, keys: Keys)
    requires from != to && amount > 0
    ensures var tx := Payment(from, to, coin, amount);
      var h := Consider(TxClaims(keys), Start(map[]), map[], tx);
      && h.valid == [tx] && h.posted == tx.xfers
      && from in h.books.aggregate && h.books.aggregate[from].amount == -amount
      && Balance(h.books.state, from, coin) == -amount && Balance(h.books.state, to, coin) == amount
      && forall d :: Balance(h.books.state, d, coin) != 0 ==> d == from || d == to
  {
    var tx := Payment(from, to, coin, amount);
    var b := Start<Tx>(map[]).books;
    PaymentsAreSound(from, to, coin, amount, keys);
    var b' := Admit(b, map[], true, tx.xfers[0]).value;
    assert tx.xfers[1..] == [tx.xfers[1]];
    RunTransfersStep(b, map[], true, tx.xfers, b');
    RunTransfersStep(b', map[], true, tx.xfers[1..], Post(b', tx.xfers[1]));
  }

  lemma CollectTwo<T>(claims: T -> Claim, h: Haul<T>, prior: State, x: T, y: T, limit: nat)
    requires |h.valid| + 1 < limit
    ensures Collect(claims, h, prior, [x, y], limit) == Consider(claims, Consider(claims, h, prior, x), prior, y)
  {
    var h' := Consider(claims, h, prior, x);
    assert [x, y][1..] == [y];
    assert Collect(claims, h', prior, [y], limit) == Consider(claims, h', prior, y);
  }

  /** A payment written backwards, by an address that has committed a spend from nothing. */
  lemma BackwardsStays(h: Haul<Tx>, from: Address, to: Address, coin: Coin, amount: int, keys: Keys)
    requires amount > 0 && from in h.books.aggregate && h.books.aggregate[from].amount < 0
    ensures var tx := Backwards(from, to, coin, amount);
      Consider(TxClaims(keys), h, map[], tx) == Haul(Post(h.books, tx.xfers[0]), h.valid, h.posted + tx.xfers[..1])
  {
    var tx := Backwards(from, to, coin, amount);
    PaymentsAreSound(from, to, coin, amount, keys);
    var b := Post(h.books, tx.xfers[0]);
    RunTransfersStep(h.books, map[], true, tx.xfers, b);
    assert tx.xfers[1..][0] == tx.xfers[1];
    SecondSpendRefused(b, true, tx.xfers[1..]);
    assert [tx.xfers[0]] + [] == tx.xfers[..1];
  }

  /** A pool of two for which a rejection leaves traces: alice pays carol 1 from nothing, then bob's
      receipt of 5 is posted before alice's spend of 5 is refused. Bob keeps 5. */
  lemma RejectionCanLeaveTraces(alice: Address, bob: Address, carol: Address, coin: Coin, keys: Keys)
    requires alice != bob && alice != carol && bob != carol
    ensures var first, second := Payment(alice, carol, coin, 1), Backwards(alice, bob, coin, 5);
      var h := CollectTxs(map[], keys, [first, second], 2);
      && IsSound(second, keys) && h.valid == [first]
      && Balance(h.books.state, bob, coin) == 5 && Balance(h.books.state, alice, coin) == -1
  {
    FirstPayment(alice, carol, coin, 1, keys);
    PaymentsAreSound(alice, bob, coin, 5, keys);
    var first, second := Payment(alice, carol, coin, 1), Backwards(alice, bob, coin, 5);
    var h := Consider(TxClaims(keys), Start(map[]), map[], first);
    BackwardsStays(h, alice, bob, coin, 5, keys);
    CollectTwo(TxClaims(keys), Start(map[]), map[], first, second, 2);
    AddCoinBalance(h.books.state, SmartCoin(bob, coin, 5), bob, coin);
    AddCoinBalance(h.books.state, SmartCoin(bob, coin, 5), alice, coin);
  }

  // ---------------------------------------------------------------------------------
  // Honest proposals
  // ---------------------------------------------------------------------------------

  ghost predicate Honest(pool: seq<Tx>)
  {
    forall tx :: tx in pool ==> SenderFirst(tx.xfers)
  }

  function XfersOf(txs: seq<Tx>): seq<Transfer>
  {
    if txs == [] then [] else XfersOf(txs[..|txs| - 1]) + txs[|txs| - 1].xfers
  }

  lemma XfersSnoc(txs: seq<Tx>, tx: Tx)
    ensures XfersOf(txs + [tx]) == XfersOf(txs) + tx.xfers
  {
    assert (txs + [tx])[..|txs|] == txs;
  }

  /** A haul of sender-first transactions is explained by the accepted ones alone: posted are
      exactly their transfers, and verifying them again from the start rebuilds the books. */
  ghost predicate Clean(h: Haul<Tx>, prior: State, keys: Keys)
  {
    && h.posted == XfersOf(h.valid)
    && (forall tx :: tx in h.valid ==> IsSound(tx, keys) && SenderFirst(tx.xfers))
    && Reverify(TxClaims(keys), Start<Tx>(prior).books, prior, h.valid) == Some(h.books)
  }

  lemma {:induction false} ReverifySnoc<T>(claims: T -> Claim, b: Books, prior: State, txs: seq<T>, tx: T)
    requires Reverify(claims, b, prior, txs).Some?
    ensures var b' := Reverify(claims, b, prior, txs).value;
      var v := IsValidInAggregate(b', prior, claims(tx));
      Reverify(claims, b, prior, txs + [tx]) == if v.ok then Some(v.books) else None
    decreases |txs|
  {
    if txs == [] {
      assert txs + [tx] == [tx];
    } else {
      assert (txs + [tx])[1..] == txs[1..] + [tx];
      ReverifySnoc(claims, IsValidInAggregate(b, prior, claims(txs[0])).books, prior, txs[1..], tx);
    }
  }

  lemma CleanStep(h: Haul<Tx>, prior: State, keys: Keys, tx: Tx)
    requires Clean(h, prior, keys) && SenderFirst(tx.xfers)
    ensures Clean(Consider(TxClaims(keys), h, prior, tx), prior, keys)
  {
    var v := IsValidInAggregate(h.books, prior, TxClaim(tx, keys));
    AllOrNothing(h.books, prior, TxClaim(tx, keys));
    if v.ok {
      XfersSnoc(h.valid, tx);
      ReverifySnoc(TxClaims(keys), Start<Tx>(prior).books, prior, h.valid, tx);
    } else {
      assert h.posted + v.posted == h.posted;
    }
  }

  lemma {:induction false} CollectClean(h: Haul<Tx>, prior: State, keys: Keys, pool: seq<Tx>, limit: nat)
    requires Clean(h, prior, keys) && Honest(pool)
    ensures Clean(Collect(TxClaims(keys), h, prior, pool, limit), prior, keys)
    decreases |pool|
  {
    if pool != [] {
      CleanStep(h, prior, keys, pool[0]);
      assert forall tx :: tx in pool[1..] ==> tx in pool;
      CollectClean(Consider(TxClaims(keys), h, prior, pool[0]), prior, keys, pool[1..], limit);
    }
  }

  /** Verifying exactly the accepted transactions again, from the same prior state, succeeds
      and rebuilds the same state, summary and aggregate. */
  lemma ReverificationFixpoint(prior: State, keys: Keys, pool: seq<Tx>, limit: nat)
    requires Honest(pool)
    ensures var h := CollectTxs(prior, keys, pool, limit);
      Reverify(TxClaims(keys), Start<Tx>(prior).books, prior, h.valid) == Some(h.books)
  {
    CollectClean(Start(prior), prior, keys, pool, limit);
  }

  lemma {:induction false} SoundSum(txs: seq<Tx>, keys: Keys)
    requires forall tx :: tx in txs ==> IsSound(tx, keys)
    ensures Sum(XfersOf(txs)) == 0
  {
    if txs != [] {
      SoundSum(txs[..|txs| - 1], keys);
      assert txs[|txs| - 1] in txs;
      SumConcat(XfersOf(txs[..|txs| - 1]), txs[|txs| - 1].xfers);
    }
  }

  /** Ideal signatures over the hash of a summary's canonical form. */
  datatype Sig = Sig(signer: Address, over: Summary)

  /** ProposedBlock::validate. */
  ghost predicate Validate(txs: seq<Tx>, summary: Summary, vals: map<Address, Sig>)
  {
    && |txs| >= 1
    && IsSane(summary)
    && (forall a :: a in vals ==> vals[a] == Sig(a, summary))
  }

  /** What an honest leader collects conserves the total of all balances, and if it collects
      anything, the block it signs passes the validation of its peers. */
  lemma HonestProposalAccepted(prior: State, keys: Keys, pool: seq<Tx>, limit: nat, leader: Address)
    requires Honest(pool)
    ensures var h := CollectTxs(prior, keys, pool, limit);
      && StateTotal(h.books.state) == StateTotal(prior)
      && (h.valid != [] ==> Validate(h.valid, h.books.summary, map[leader := Sig(leader, h.books.summary)]))
  {
    var h := CollectTxs(prior, keys, pool, limit);
    CollectClean(Start(prior), prior, keys, pool, limit);
    PassExplains(TxClaims(keys), prior, pool, limit);
    SoundSum(h.valid, keys);
    PostAllTotal(prior, h.posted);
    if h.valid != [] {
      SomethingPosted(h.valid);
      BalancedIsSane(h.posted);
    }
  }

  lemma BalancedIsSane(xs: seq<Transfer>)
    requires Sum(xs) == 0 && AddAll(map[], xs) != map[]
    ensures IsSane(AddAll(map[], xs))
  {
    AddAllTotal(map[], xs);
    EmptyTotal();
  }

  lemma SummaryIsEmpty(xs: seq<Transfer>)
    ensures AddAll(map[], xs) == map[] <==> xs == []
  {
    if xs != [] {
      var x := xs[|xs| - 1];
      assert xs == xs[..|xs| - 1] + [x];
      AddAllConcat(map[], xs[..|xs| - 1], [x]);
      assert x.addr in AddAll(AddAll(map[], xs[..|xs| - 1]), [x]);
    }
  }

  /** What validate refuses, of a block whose summary is made from any transfers: one without
      transactions or transfers, one whose amounts do not cancel out modulo 2^64, and one with any
      validation that is not its signer's own signature of that summary. */
  lemma ValidateExactly(txs: seq<Tx>, xs: seq<Transfer>, vals: map<Address, Sig>)
    ensures Validate(txs, AddAll(map[], xs), vals)
       <==> txs != [] && xs != [] && Wrap(Sum(xs)) == 0
            && forall a :: a in vals ==> vals[a].signer == a && vals[a].over == AddAll(map[], xs)
  {
    AddAllTotal(map[], xs);
    EmptyTotal();
    SummaryIsEmpty(xs);
  }

  lemma SomethingPosted(txs: seq<Tx>)
    requires txs != [] && forall tx :: tx in txs ==> SenderFirst(tx.xfers)
    ensures AddAll(map[], XfersOf(txs)) != map[]
  {
    var last := txs[|txs| - 1];
    assert last in txs;
    SummaryIsEmpty(XfersOf(txs));
  }
}
