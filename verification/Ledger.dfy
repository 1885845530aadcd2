/** Chain state, transaction validity "in aggregate", and the greedy assembly of a block.

    Balances are unbounded integers: the code's signed 64-bit sums are undefined on overflow.
    Signatures are ideal: a transaction carries the address whose key signed it.
 */
module Ledger {
  import opened Words
  import opened Permutations
  import opened Options
  import opened Summaries

  type State = map<Address, map<Coin, int>>

  datatype SmartCoin = SmartCoin(addr: Address, coin: Coin, amount: int)

  datatype Operation = Create | Modify | Exchange | Delete

  datatype Tx = Tx(oper: Operation, xfers: seq<Transfer>, signedBy: Address)

  /** The KeyRing, as far as validity asks it: who belongs to the INN. */
  datatype Keys = Keys(inn: set<Address>)

  // ---------------------------------------------------------------------------------
  // ChainState
  // ---------------------------------------------------------------------------------

  function AddCoin(st: State, sc: SmartCoin): State
  {
    if sc.addr in st then
      var inner: map<Coin, int> := st[sc.addr];
      st[sc.addr := inner[sc.coin := (if sc.coin in inner then inner[sc.coin] else 0) + sc.amount]]
    else
      var inner: map<Coin, int> := map[sc.coin := sc.amount];
      st[sc.addr := inner]
  }

  /** None where `it->second.at(type)` throws: a known address without that coin. */
  function GetAmount(st: State, coin: Coin, addr: Address): Option<int>
  {
    if addr !in st then Some(0)
    else if coin in st[addr] then Some(st[addr][coin])
    else None
  }

  /** The balance, 0 where there is no record. */
  function Balance(st: State, addr: Address, coin: Coin): int
  {
    if addr in st && coin in st[addr] then st[addr][coin] else 0
  }

  lemma GetAmountIsBalance(st: State, coin: Coin, addr: Address)
    ensures GetAmount(st, coin, addr).Some? ==> GetAmount(st, coin, addr).value == Balance(st, addr, coin)
  {
  }

  // ---------------------------------------------------------------------------------
  // Soundness
  // ---------------------------------------------------------------------------------

  /** The address of the last negative transfer; the null address if there is none. */
  function Sender(xs: seq<Transfer>): Address
  {
    if xs == [] then [0]
    else if xs[|xs| - 1].amount < 0 then xs[|xs| - 1].addr
    else Sender(xs[..|xs| - 1])
  }

  predicate OneSender(xs: seq<Transfer>)
  {
    forall i, j :: 0 <= i < j < |xs| && xs[i].amount < 0 && xs[j].amount < 0 ==> xs[i].addr == xs[j].addr
  }

  /** do_isSound: true, or an exception that the validity checks turn into a rejection. */
  predicate IsSound(tx: Tx, keys: Keys)
  {
    var sender := Sender(tx.xfers);
    && OneSender(tx.xfers)
    && (tx.oper != Exchange ==> sender in keys.inn)
    && Sum(tx.xfers) == 0
    && tx.signedBy == sender
  }

  // ---------------------------------------------------------------------------------
  // do_isValidInAggregate
  // ---------------------------------------------------------------------------------

  /** What validity asks of a transaction of either tier: whether it is sound, whether its spends
      go through the guard on available coins, its transfers up to the first one that cannot be
      read, and whether that is all of them. */
  datatype Claim = Claim(sound: bool, guarded: bool, xfers: seq<Transfer>, complete: bool)

  function TxClaim(tx: Tx, keys: Keys): Claim
  {
    Claim(IsSound(tx, keys), tx.oper == Exchange, tx.xfers, true)
  }

  /** How a Tier 2 node reads the transactions of its pool. */
  function TxClaims(keys: Keys): Tx -> Claim
  {
    tx => TxClaim(tx, keys)
  }

  /** What one pass over the pool reads and writes. */
  datatype Books = Books(state: State, summary: Summary, aggregate: map<Address, SmartCoin>)

  function Post(b: Books, x: Transfer): Books
  {
    b.(state := AddCoin(b.state, SmartCoin(x.addr, x.coin, x.amount)), summary := AddTransfer(b.summary, x))
  }

  /** The aggregate after a spend, or None where the check returns false or throws. */
  function Commit(b: Books, prior: State, guarded: bool, x: Transfer): Option<map<Address, SmartCoin>>
  {
    var available := GetAmount(b.state, x.coin, x.addr);
    if guarded && (available.None? || x.amount > available.value) then None
    else if x.addr in b.aggregate then
      var historic := GetAmount(prior, x.coin, x.addr);
      var committed := b.aggregate[x.addr].amount;
      if historic.None? || historic.value + committed + x.amount < 0 then None
      else Some(b.aggregate[x.addr := SmartCoin(x.addr, x.coin, x.amount + committed)])
    else Some(b.aggregate[x.addr := SmartCoin(x.addr, x.coin, x.amount)])
  }

  /** One turn of the loop over the transfers; None leaves the books as they were. */
  function Admit(b: Books, prior: State, guarded: bool, x: Transfer): Option<Books>
  {
    if x.amount >= 0 then Some(Post(b, x))
    else
      var aggregate := Commit(b, prior, guarded, x);
      if aggregate.None? then None else Some(Post(b.(aggregate := aggregate.value), x))
  }

  datatype Verdict = Verdict(books: Books, ok: bool, posted: seq<Transfer>)

  /** The loop: stops at the first transfer that is not admitted, keeping what was posted. */
  function RunTransfers(b: Books, prior: State, guarded: bool, xs: seq<Transfer>): (v: Verdict)
    ensures v.posted <= xs && (v.ok <==> v.posted == xs)
    decreases |xs|
  {
    if xs == [] then Verdict(b, true, [])
    else
      var next := Admit(b, prior, guarded, xs[0]);
      if next.None? then Verdict(b, false, [])
      else
        var v := RunTransfers(next.value, prior, guarded, xs[1..]);
        assert [xs[0]] + xs[1..] == xs;
        Verdict(v.books, v.ok, [xs[0]] + v.posted)
  }

  function IsValidInAggregate(b: Books, prior: State, c: Claim): Verdict
  {
    if !c.sound then Verdict(b, false, [])
    else
      var v := RunTransfers(b, prior, c.guarded, c.xfers);
      v.(ok := v.ok && c.complete)
  }

  // ---------------------------------------------------------------------------------
  // CollectValidTransactions and ReverifyTransactions
  // ---------------------------------------------------------------------------------

  /** The transactions accepted so far, and every transfer posted, by accepted transactions
      and by rejected ones before they failed. */
  datatype Haul<T> = Haul(books: Books, valid: seq<T>, posted: seq<Transfer>)

  /** The haul after one more transaction was looked at. */
  function Consider<T>(claims: T -> Claim, h: Haul<T>, prior: State, tx: T): Haul<T>
  {
    var v := IsValidInAggregate(h.books, prior, claims(tx));
    Haul(v.books, if v.ok then h.valid + [tx] else h.valid, h.posted + v.posted)
  }

  /** The loop over the pool in signature order, from a haul so far. The limit is tested
      after an acceptance only. */
  function Collect<T>(claims: T -> Claim, h: Haul<T>, prior: State, pool: seq<T>, limit: nat): Haul<T>
    decreases |pool|
  {
    if pool == [] then h
    else
      var h' := Consider(claims, h, prior, pool[0]);
      if |h'.valid| > |h.valid| && |h'.valid| >= limit then h' else Collect(claims, h', prior, pool[1..], limit)
  }

  function Start<T>(prior: State): Haul<T>
  {
    Haul(Books(prior, map[], map[]), [], [])
  }

  /** A whole pass of a Tier 2 node. */
  function CollectTxs(prior: State, keys: Keys, pool: seq<Tx>, limit: nat): Haul<Tx>
  {
    Collect(TxClaims(keys), Start(prior), prior, pool, limit)
  }

  /** ReverifyTransactions: the books it ends with if every transaction is still valid. */
  function Reverify<T>(claims: T -> Claim, b: Books, prior: State, txs: seq<T>): Option<Books>
    decreases |txs|
  {
    if txs == [] then Some(b)
    else
      var v := IsValidInAggregate(b, prior, claims(txs[0]));
      if v.ok then Reverify(claims, v.books, prior, txs[1..]) else None
  }

  // ---------------------------------------------------------------------------------
  // The books are exactly what was posted
  // ---------------------------------------------------------------------------------

  function PostAll(st: State, xs: seq<Transfer>): State
    decreases |xs|
  {
    if xs == [] then st else PostAll(AddCoin(st, SmartCoin(xs[0].addr, xs[0].coin, xs[0].amount)), xs[1..])
  }

  /** The change of one balance by a list of transfers. */
  function Change(xs: seq<Transfer>, a: Address, c: Coin): int
  {
    if xs == [] then 0 else (if xs[0].addr == a && xs[0].coin == c then xs[0].amount else 0) + Change(xs[1..], a, c)
  }

  lemma AddCoinBalance(st: State, sc: SmartCoin, a: Address, c: Coin)
    ensures Balance(AddCoin(st, sc), a, c) == Balance(st, a, c) + (if sc.addr == a && sc.coin == c then sc.amount else 0)
  {
  }

  lemma {:induction false} PostAllBalance(st: State, xs: seq<Transfer>, a: Address, c: Coin)
    ensures Balance(PostAll(st, xs), a, c) == Balance(st, a, c) + Change(xs, a, c)
    decreases |xs|
  {
    if xs != [] {
      var sc := SmartCoin(xs[0].addr, xs[0].coin, xs[0].amount);
      AddCoinBalance(st, sc, a, c);
      PostAllBalance(AddCoin(st, sc), xs[1..], a, c);
    }
  }

  lemma {:induction false} PostAllConcat(st: State, xs: seq<Transfer>, ys: seq<Transfer>)
    ensures PostAll(st, xs + ys) == PostAll(PostAll(st, xs), ys)
    decreases |xs|
  {
    if xs == [] {
      assert xs + ys == ys;
    } else {
      assert (xs + ys)[1..] == xs[1..] + ys;
      PostAllConcat(AddCoin(st, SmartCoin(xs[0].addr, xs[0].coin, xs[0].amount)), xs[1..], ys);
    }
  }

  /** The spends of an address in a list. */
  function Spends(xs: seq<Transfer>, a: Address): seq<Transfer>
  {
    if xs == [] then [] else (if xs[0].addr == a && xs[0].amount < 0 then [xs[0]] else []) + Spends(xs[1..], a)
  }

  lemma {:induction false} SpendsConcat(xs: seq<Transfer>, ys: seq<Transfer>, a: Address)
    ensures Spends(xs + ys, a) == Spends(xs, a) + Spends(ys, a)
  {
    if xs == [] {
      assert xs + ys == ys;
    } else {
      assert (xs + ys)[1..] == xs[1..] + ys;
      SpendsConcat(xs[1..], ys, a);
    }
  }

  lemma {:induction false} SumConcat(xs: seq<Transfer>, ys: seq<Transfer>)
    ensures Sum(xs + ys) == Sum(xs) + Sum(ys)
  {
    if xs == [] {
      assert xs + ys == ys;
    } else {
      assert (xs + ys)[1..] == xs[1..] + ys;
      SumConcat(xs[1..], ys);
    }
  }

  /** The aggregate of an address: nothing before its first spend, then the sum of its spends
      under the coin of the last one; from the second spend on, the prior balance of that coin
      covers that sum. */
  ghost predicate AggregateOk(b: Books, prior: State, posted: seq<Transfer>, a: Address)
  {
    var spends := Spends(posted, a);
    if spends == [] then a !in b.aggregate
    else
      && a in b.aggregate
      && b.aggregate[a] == SmartCoin(a, spends[|spends| - 1].coin, Sum(spends))
      && (|spends| >= 2 ==> Balance(prior, a, b.aggregate[a].coin) + Sum(spends) >= 0)
  }

  ghost predicate Explains(b: Books, prior: State, posted: seq<Transfer>)
  {
    && b.state == PostAll(prior, posted)
    && b.summary == AddAll(map[], posted)
    && (forall a :: AggregateOk(b, prior, posted, a))
  }

  lemma SpendsStep(posted: seq<Transfer>, x: Transfer, a: Address)
    ensures Spends(posted + [x], a)
         == if x.addr == a && x.amount < 0 then Spends(posted, a) + [x] else Spends(posted, a)
    ensures x.addr == a && x.amount < 0 ==> Sum(Spends(posted + [x], a)) == Sum(Spends(posted, a)) + x.amount
  {
    SpendsConcat(posted, [x], a);
    assert Spends([x], a) == if x.addr == a && x.amount < 0 then [x] else [];
    SumConcat(Spends(posted, a), [x]);
  }

  lemma AdmitAggregate(b: Books, prior: State, guarded: bool, x: Transfer, posted: seq<Transfer>, a: Address)
    requires AggregateOk(b, prior, posted, a)
    requires Admit(b, prior, guarded, x).Some?
    ensures AggregateOk(Admit(b, prior, guarded, x).value, prior, posted + [x], a)
  {
    SpendsStep(posted, x, a);
    if x.addr == a && x.amount < 0 {
      CommitAggregate(b, prior, guarded, x, posted);
    } else {
      AdmitElsewhere(b, prior, guarded, x, a);
      SameAggregate(b, Admit(b, prior, guarded, x).value, prior, posted, posted + [x], a);
    }
  }

  ghost predicate SameAt<K, V>(m: map<K, V>, n: map<K, V>, k: K)
  {
    if k in m then k in n && n[k] == m[k] else k !in n
  }

  lemma AdmitElsewhere(b: Books, prior: State, guarded: bool, x: Transfer, a: Address)
    requires Admit(b, prior, guarded, x).Some? && (x.addr != a || x.amount >= 0)
    ensures SameAt(b.aggregate, Admit(b, prior, guarded, x).value.aggregate, a)
  {
  }

  lemma SameAggregate(b: Books, b': Books, prior: State, posted: seq<Transfer>, posted': seq<Transfer>, a: Address)
    requires AggregateOk(b, prior, posted, a) && SameAt(b.aggregate, b'.aggregate, a) && Spends(posted', a) == Spends(posted, a)
    ensures AggregateOk(b', prior, posted', a)
  {
  }

  lemma CommitAggregate(b: Books, prior: State, guarded: bool, x: Transfer, posted: seq<Transfer>)
    requires AggregateOk(b, prior, posted, x.addr)
    requires x.amount < 0 && Commit(b, prior, guarded, x).Some?
    ensures AggregateOk(b.(aggregate := Commit(b, prior, guarded, x).value), prior, posted + [x], x.addr)
  {
    SpendsStep(posted, x, x.addr);
    GetAmountIsBalance(prior, x.coin, x.addr);
  }

  lemma AdmitExplains(b: Books, prior: State, guarded: bool, x: Transfer, posted: seq<Transfer>)
    requires Explains(b, prior, posted) && Admit(b, prior, guarded, x).Some?
    ensures Explains(Admit(b, prior, guarded, x).value, prior, posted + [x])
  {
    var b' := Admit(b, prior, guarded, x).value;
    PostAllConcat(prior, posted, [x]);
    AddAllConcat(map[], posted, [x]);
    assert PostAll(b.state, [x]) == b'.state;
    assert AddAll(b.summary, [x]) == b'.summary;
    forall a ensures AggregateOk(b', prior, posted + [x], a) {
      AdmitAggregate(b, prior, guarded, x, posted, a);
    }
  }

  lemma RunTransfersStep(b: Books, prior: State, guarded: bool, xs: seq<Transfer>, next: Books)
    requires xs != [] && Admit(b, prior, guarded, xs[0]) == Some(next)
    ensures var v, v' := RunTransfers(b, prior, guarded, xs), RunTransfers(next, prior, guarded, xs[1..]);
      v.books == v'.books && v.ok == v'.ok && v.posted == [xs[0]] + v'.posted
  {
  }

  /** The state a run ends with is what it posted. */
  lemma {:induction false} RunState(b: Books, prior: State, guarded: bool, xs: seq<Transfer>)
    ensures var v := RunTransfers(b, prior, guarded, xs); v.books.state == PostAll(b.state, v.posted)
    decreases |xs|
  {
    if xs != [] && Admit(b, prior, guarded, xs[0]).Some? {
      var next := Admit(b, prior, guarded, xs[0]).value;
      RunTransfersStep(b, prior, guarded, xs, next);
      RunState(next, prior, guarded, xs[1..]);
      var posted := RunTransfers(next, prior, guarded, xs[1..]).posted;
      assert ([xs[0]] + posted)[1..] == posted;
    }
  }

  /** There is a record for this address and coin. */
  predicate HasCell(st: State, a: Address, c: Coin)
  {
    a in st && c in st[a]
  }

  lemma {:induction false} PostAllKeeps(st: State, xs: seq<Transfer>, a: Address, c: Coin)
    requires HasCell(st, a, c)
    ensures HasCell(PostAll(st, xs), a, c)
    decreases |xs|
  {
    if xs != [] { PostAllKeeps(AddCoin(st, SmartCoin(xs[0].addr, xs[0].coin, xs[0].amount)), xs[1..], a, c); }
  }

  /** The first transfer posted leaves a record. */
  lemma PostAllSets(st: State, xs: seq<Transfer>)
    requires xs != []
    ensures HasCell(PostAll(st, xs), xs[0].addr, xs[0].coin)
  {
    PostAllKeeps(AddCoin(st, SmartCoin(xs[0].addr, xs[0].coin, xs[0].amount)), xs[1..], xs[0].addr, xs[0].coin);
  }

  lemma {:induction false} TransfersExplain(b: Books, prior: State, guarded: bool, xs: seq<Transfer>,
                                            posted: seq<Transfer>, all: seq<Transfer>)
    requires Explains(b, prior, posted)
    requires all == posted + RunTransfers(b, prior, guarded, xs).posted
    ensures Explains(RunTransfers(b, prior, guarded, xs).books, prior, all)
    decreases |xs|
  {
    if xs == [] || Admit(b, prior, guarded, xs[0]).None? {
      assert all == posted;
    } else {
      var Some(next) := Admit(b, prior, guarded, xs[0]);
      AdmitExplains(b, prior, guarded, xs[0], posted);
      RunTransfersStep(b, prior, guarded, xs, next);
      Regroup(posted, xs[0], RunTransfers(next, prior, guarded, xs[1..]).posted);
      TransfersExplain(next, prior, guarded, xs[1..], posted + [xs[0]], all);
    }
  }

  lemma ConsiderExplains<T>(claims: T -> Claim, h: Haul<T>, prior: State, tx: T)
    requires Explains(h.books, prior, h.posted)
    ensures var r := Consider(claims, h, prior, tx); Explains(r.books, prior, r.posted)
  {
    var c := claims(tx);
    var v := IsValidInAggregate(h.books, prior, c);
    if c.sound {
      TransfersExplain(h.books, prior, c.guarded, c.xfers, h.posted, h.posted + v.posted);
    } else {
      assert h.posted + v.posted == h.posted;
    }
  }

  lemma {:induction false} CollectExplains<T>(claims: T -> Claim, h: Haul<T>, prior: State, pool: seq<T>, limit: nat)
    requires Explains(h.books, prior, h.posted)
    ensures var r := Collect(claims, h, prior, pool, limit); Explains(r.books, prior, r.posted)
    decreases |pool|
  {
    if pool != [] {
      ConsiderExplains(claims, h, prior, pool[0]);
      CollectExplains(claims, Consider(claims, h, prior, pool[0]), prior, pool[1..], limit);
    }
  }

  /** The books of a pass from the start are what it posted. */
  lemma PassExplains<T>(claims: T -> Claim, prior: State, pool: seq<T>, limit: nat)
    ensures var r := Collect(claims, Start(prior), prior, pool, limit); Explains(r.books, prior, r.posted)
  {
    CollectExplains(claims, Start<T>(prior), prior, pool, limit);
  }

  /** The change of a balance, as the summary records it: delayed plus immediate delta. */
  function Recorded(s: Summary, a: Address, c: Coin): int
  {
    DeltaIn(s, Cell(a, c, true)) + DeltaIn(s, Cell(a, c, false))
  }

  function DeltaIn(s: Summary, k: Cell): int
  {
    var d := Look(s, k);
    if d.Some? then d.value.delta else 0
  }

  lemma {:induction false} ChangeSplits(xs: seq<Transfer>, a: Address, c: Coin)
    ensures Change(xs, a, c) == Sum(Within(xs, Cell(a, c, true))) + Sum(Within(xs, Cell(a, c, false)))
  {
    if xs != [] {
      ChangeSplits(xs[1..], a, c);
      WithinStep(xs, Cell(a, c, true));
      WithinStep(xs, Cell(a, c, false));
    }
  }

  lemma WithinStep(xs: seq<Transfer>, k: Cell)
    requires xs != []
    ensures Sum(Within(xs, k)) == (if Hits(xs[0], k) then xs[0].amount else 0) + Sum(Within(xs[1..], k))
  {
    if Hits(xs[0], k) { assert Within(xs, k)[1..] == Within(xs[1..], k); }
    else { assert Within(xs, k) == Within(xs[1..], k); }
  }

  lemma DeltaOf(xs: seq<Transfer>, k: Cell)
    ensures DeltaIn(AddAll(map[], xs), k) == Wrap(Sum(Within(xs, k)))
  {
    AddAllLook(map[], xs, k);
  }

  lemma RecordedIsChange(xs: seq<Transfer>, a: Address, c: Coin)
    ensures Wrap(Recorded(AddAll(map[], xs), a, c)) == Wrap(Change(xs, a, c))
  {
    var d, i := Cell(a, c, true), Cell(a, c, false);
    DeltaOf(xs, d);
    DeltaOf(xs, i);
    ChangeSplits(xs, a, c);
    var s := AddAll(map[], xs);
    WrapPair(DeltaIn(s, d), DeltaIn(s, i), Sum(Within(xs, d)), Sum(Within(xs, i)), Change(xs, a, c));
  }

  /** The new balance minus the prior one is what the summary records, modulo 2^64. */
  ghost predicate ChangeRecorded(b: Books, prior: State, a: Address, c: Coin)
  {
    Wrap(Balance(b.state, a, c) - Balance(prior, a, c)) == Wrap(Recorded(b.summary, a, c))
  }

  lemma ExplainedChange(b: Books, prior: State, posted: seq<Transfer>, a: Address, c: Coin)
    requires b.state == PostAll(prior, posted) && b.summary == AddAll(map[], posted)
    ensures ChangeRecorded(b, prior, a, c)
  {
    BalanceIs(b.state, prior, posted, a, c);
    RecordedIs(b.summary, posted, a, c);
  }

  lemma BalanceIs(st: State, prior: State, posted: seq<Transfer>, a: Address, c: Coin)
    requires st == PostAll(prior, posted)
    ensures Balance(st, a, c) - Balance(prior, a, c) == Change(posted, a, c)
  {
    PostAllBalance(prior, posted, a, c);
  }

  lemma RecordedIs(s: Summary, posted: seq<Transfer>, a: Address, c: Coin)
    requires s == AddAll(map[], posted)
    ensures Wrap(Recorded(s, a, c)) == Wrap(Change(posted, a, c))
  {
    RecordedIsChange(posted, a, c);
  }

  /** However a pass over the pool goes, and whatever it rejects halfway: for every address
      and coin the new balance minus the prior one is what the summary records, modulo 2^64. */
  lemma StateChangeIsSummary<T>(claims: T -> Claim, prior: State, pool: seq<T>, limit: nat, a: Address, c: Coin)
    ensures ChangeRecorded(Collect(claims, Start(prior), prior, pool, limit).books, prior, a, c)
  {
    PassExplains(claims, prior, pool, limit);
    HaulChange(Collect(claims, Start(prior), prior, pool, limit), prior, a, c);
  }

  lemma HaulChange<T>(h: Haul<T>, prior: State, a: Address, c: Coin)
    requires Explains(h.books, prior, h.posted)
    ensures ChangeRecorded(h.books, prior, a, c)
  {
    ExplainedChange(h.books, prior, h.posted, a, c);
  }

  // ---------------------------------------------------------------------------------
  // Order safety
  // ---------------------------------------------------------------------------------

  lemma {:induction false} ChangeConcat(xs: seq<Transfer>, ys: seq<Transfer>, a: Address, c: Coin)
    ensures Change(xs + ys, a, c) == Change(xs, a, c) + Change(ys, a, c)
  {
    if xs == [] {
      assert xs + ys == ys;
    } else {
      assert (xs + ys)[1..] == xs[1..] + ys;
      ChangeConcat(xs[1..], ys, a, c);
    }
  }

  predicate IsSpend(x: Transfer, a: Address, c: Coin)
  {
    x.addr == a && x.coin == c && x.amount < 0
  }

  /** What the spends of an address from one coin take away. */
  function Drain(xs: seq<Transfer>, a: Address, c: Coin): int
  {
    if xs == [] then 0
    else (if IsSpend(xs[0], a, c) then xs[0].amount else 0) + Drain(xs[1..], a, c)
  }

  lemma {:induction false} DrainConcat(xs: seq<Transfer>, ys: seq<Transfer>, a: Address, c: Coin)
    ensures Drain(xs + ys, a, c) == Drain(xs, a, c) + Drain(ys, a, c)
  {
    if xs == [] {
      assert xs + ys == ys;
    } else {
      assert (xs + ys)[1..] == xs[1..] + ys;
      DrainConcat(xs[1..], ys, a, c);
    }
  }

  lemma {:induction false} DrainBounds(xs: seq<Transfer>, a: Address, c: Coin)
    ensures Drain(xs, a, c) <= 0 && Drain(xs, a, c) <= Change(xs, a, c)
  {
    if xs != [] { DrainBounds(xs[1..], a, c); }
  }

  lemma {:induction false} DrainPermuted(xs: seq<Transfer>, ys: seq<Transfer>, a: Address, c: Coin)
    requires multiset(xs) == multiset(ys)
    ensures Drain(xs, a, c) == Drain(ys, a, c)
  {
    if xs == [] {
      assert |multiset(ys)| == 0;
    } else {
      var i := PullOut(xs, ys);
      DrainPermuted(xs[1..], ys[..i] + ys[i + 1..], a, c);
      DrainPull(ys, i, a, c);
    }
  }

  lemma DrainPull(ys: seq<Transfer>, i: nat, a: Address, c: Coin)
    requires i < |ys|
    ensures Drain(ys, a, c) == Drain([ys[i]], a, c) + Drain(ys[..i] + ys[i + 1..], a, c)
  {
    assert ys == ys[..i] + ([ys[i]] + ys[i + 1..]);
    DrainConcat(ys[..i], [ys[i]] + ys[i + 1..], a, c);
    DrainConcat([ys[i]], ys[i + 1..], a, c);
    DrainConcat(ys[..i], ys[i + 1..], a, c);
  }

  /** No order of the transfers, broken off anywhere, takes the balance below zero. */
  ghost predicate SafeInAnyOrder(prior: State, posted: seq<Transfer>, a: Address, c: Coin)
  {
    forall ys: seq<Transfer>, n: nat :: multiset(ys) == multiset(posted) && 0 <= n <= |ys| ==>
      Balance(PostAll(prior, ys[..n]), a, c) >= 0
  }

  lemma PrefixBalance(prior: State, posted: seq<Transfer>, ys: seq<Transfer>, n: nat, a: Address, c: Coin)
    requires multiset(ys) == multiset(posted) && n <= |ys|
    ensures Balance(PostAll(prior, ys[..n]), a, c) >= Balance(prior, a, c) + Drain(posted, a, c)
  {
    PostAllBalance(prior, ys[..n], a, c);
    DrainBounds(ys[..n], a, c);
    DrainBounds(ys[n..], a, c);
    assert ys == ys[..n] + ys[n..];
    DrainConcat(ys[..n], ys[n..], a, c);
    DrainPermuted(posted, ys, a, c);
  }

  /** The spends of the balance first, then the rest: the worst order. */
  function Spending(xs: seq<Transfer>, a: Address, c: Coin): seq<Transfer>
  {
    if xs == [] then []
    else (if IsSpend(xs[0], a, c) then [xs[0]] else []) + Spending(xs[1..], a, c)
  }

  function Others(xs: seq<Transfer>, a: Address, c: Coin): seq<Transfer>
  {
    if xs == [] then []
    else (if IsSpend(xs[0], a, c) then [] else [xs[0]]) + Others(xs[1..], a, c)
  }

  lemma {:induction false} SpendingDrains(xs: seq<Transfer>, a: Address, c: Coin)
    ensures Change(Spending(xs, a, c), a, c) == Drain(xs, a, c)
  {
    if xs != [] {
      SpendingDrains(xs[1..], a, c);
      if IsSpend(xs[0], a, c) {
        ChangeConcat([xs[0]], Spending(xs[1..], a, c), a, c);
      } else {
        assert Spending(xs, a, c) == Spending(xs[1..], a, c);
      }
    }
  }

  lemma SplitStep(xs: seq<Transfer>, a: Address, c: Coin)
    requires xs != []
    ensures var x, s, o := xs[0], Spending(xs[1..], a, c), Others(xs[1..], a, c);
      if IsSpend(x, a, c) then Spending(xs, a, c) == [x] + s && Others(xs, a, c) == o
      else Spending(xs, a, c) == s && Others(xs, a, c) == [x] + o
  {
  }

  lemma MultisetSplit(x: Transfer, s: seq<Transfer>, o: seq<Transfer>, rest: seq<Transfer>)
    requires multiset(s) + multiset(o) == multiset(rest)
    ensures multiset([x] + s) + multiset(o) == multiset([x] + rest) == multiset(s) + multiset([x] + o)
  {
    MultisetCons(x, s);
    MultisetCons(x, o);
    MultisetCons(x, rest);
  }

  lemma {:induction false} WorstOrder(xs: seq<Transfer>, a: Address, c: Coin)
    ensures multiset(Spending(xs, a, c)) + multiset(Others(xs, a, c)) == multiset(xs)
  {
    if xs != [] {
      WorstOrder(xs[1..], a, c);
      SplitStep(xs, a, c);
      MultisetSplit(xs[0], Spending(xs[1..], a, c), Others(xs[1..], a, c), xs[1..]);
      assert xs == [xs[0]] + xs[1..];
    }
  }

  lemma UnsafeOrder(prior: State, posted: seq<Transfer>, a: Address, c: Coin)
    requires Balance(prior, a, c) + Drain(posted, a, c) < 0
    ensures !SafeInAnyOrder(prior, posted, a, c)
  {
    var spending, others := Spending(posted, a, c), Others(posted, a, c);
    WorstOrder(posted, a, c);
    SpendingDrains(posted, a, c);
    PostAllBalance(prior, spending, a, c);
    var ys := spending + others;
    assert multiset(ys) == multiset(posted) && ys[..|spending|] == spending;
  }

  /** The exact condition: the prior balance covers all the spends together. */
  lemma SafeExactly(prior: State, posted: seq<Transfer>, a: Address, c: Coin)
    ensures SafeInAnyOrder(prior, posted, a, c) <==> Balance(prior, a, c) + Drain(posted, a, c) >= 0
  {
    if Balance(prior, a, c) + Drain(posted, a, c) >= 0 {
      forall ys: seq<Transfer>, n: nat | multiset(ys) == multiset(posted) && 0 <= n <= |ys|
        ensures Balance(PostAll(prior, ys[..n]), a, c) >= 0
      {
        PrefixBalance(prior, posted, ys, n, a, c);
      }
    } else {
      UnsafeOrder(prior, posted, a, c);
    }
  }

  ghost predicate SpendsOnly(posted: seq<Transfer>, a: Address, c: Coin)
  {
    forall x :: x in posted && x.addr == a && x.amount < 0 ==> x.coin == c
  }

  lemma {:induction false} DrainIsSpends(posted: seq<Transfer>, a: Address, c: Coin)
    requires SpendsOnly(posted, a, c)
    ensures Drain(posted, a, c) == Sum(Spends(posted, a))
    ensures forall x :: x in Spends(posted, a) ==> x.coin == c
  {
    if posted != [] {
      assert forall x :: x in posted[1..] ==> x in posted;
      DrainIsSpends(posted[1..], a, c);
      var head := if posted[0].addr == a && posted[0].amount < 0 then [posted[0]] else [];
      SumConcat(head, Spends(posted[1..], a));
      assert posted[0] in posted;
    }
  }

  /** An address that spends from one coin only and spends at least twice in a pass: no order
      of everything the pass posted overdraws it at any point. */
  lemma OrderSafety<T>(claims: T -> Claim, prior: State, pool: seq<T>, limit: nat, a: Address, c: Coin)
    requires var posted := Collect(claims, Start(prior), prior, pool, limit).posted;
      SpendsOnly(posted, a, c) && |Spends(posted, a)| >= 2
    ensures SafeInAnyOrder(prior, Collect(claims, Start(prior), prior, pool, limit).posted, a, c)
  {
    var h := Collect(claims, Start(prior), prior, pool, limit);
    PassExplains(claims, prior, pool, limit);
    assert AggregateOk(h.books, prior, h.posted, a);
    DrainIsSpends(h.posted, a, c);
    SafeExactly(prior, h.posted, a, c);
  }
}
