/** When a balance can go below zero. The guard on available coins compares the negative amount of a
    spend with the balance, so by itself it stops nobody; only the check against what was committed
    earlier in the same pass does, from the second spend on.
 */
module Overdrafts {
  import opened Options
  import opened Summaries
  import opened Ledger
  import opened Assembly

  // ---------------------------------------------------------------------------------
  // One transaction
  // ---------------------------------------------------------------------------------

  /** A first spend from nothing is accepted, whatever its size, and overdraws. */
  lemma FirstSpendUnchecked(alice: Address, bob: Address, coin: Coin, amount: int, keys: Keys)
    requires alice != bob && amount > 0
    ensures var tx := Payment(alice, bob, coin, amount);
      var h := CollectTxs(map[], keys, [tx], 1);
      h.valid == [tx] && Balance(h.books.state, alice, coin) == -amount
  {
    FirstPayment(alice, bob, coin, amount, keys);
    CollectOne(TxClaims(keys), Start(map[]), map[], Payment(alice, bob, coin, amount), 1);
  }

  /** What the checks ask of a spend before it is posted, in terms of the books and the prior state
      alone: the coin is on record and not already overdrawn by more than the spend, and if its
      address has committed spends in this pass, the prior balance covers them all. */
  predicate Passes(b: Books, prior: State, guarded: bool, x: Transfer)
  {
    var available, historic := GetAmount(b.state, x.coin, x.addr), GetAmount(prior, x.coin, x.addr);
    && (guarded ==> available.Some? && x.amount <= available.value)
    && (x.addr in b.aggregate ==> historic.Some? && historic.value + b.aggregate[x.addr].amount + x.amount >= 0)
  }

  /** A sender-first transaction is accepted and leaves its sender overdrawn exactly if its spend
      passes and the balance does not cover what the transaction takes from it. */
  lemma OverdrawnExactly(b: Books, prior: State, keys: Keys, tx: Tx)
    requires IsSound(tx, keys) && SenderFirst(tx.xfers)
    ensures var v, x := IsValidInAggregate(b, prior, TxClaim(tx, keys)), tx.xfers[0];
      && (v.ok <==> Passes(b, prior, tx.oper == Exchange, x))
      && (v.ok ==> (Balance(v.books.state, x.addr, x.coin) < 0
                    <==> Balance(b.state, x.addr, x.coin) + Change(tx.xfers, x.addr, x.coin) < 0))
  {
    var v, x := IsValidInAggregate(b, prior, TxClaim(tx, keys)), tx.xfers[0];
    AllOrNothing(b, prior, TxClaim(tx, keys));
    RunState(b, prior, tx.oper == Exchange, tx.xfers);
    PostAllBalance(b.state, v.posted, x.addr, x.coin);
    PassesExactly(b, prior, tx.oper == Exchange, tx.xfers);
  }

  lemma PassesExactly(b: Books, prior: State, guarded: bool, xs: seq<Transfer>)
    requires SenderFirst(xs)
    ensures RunTransfers(b, prior, guarded, xs).ok <==> Passes(b, prior, guarded, xs[0])
  {
    var first := Admit(b, prior, guarded, xs[0]);
    if first.Some? {
      RunTransfersStep(b, prior, guarded, xs, first.value);
      ReceiptsAreAdmitted(first.value, prior, guarded, xs[1..]);
    }
  }

  // ---------------------------------------------------------------------------------
  // A whole pass
  // ---------------------------------------------------------------------------------

  /** The spends of a in a list all take coin c, and the prior balance covers each of them alone. */
  ghost predicate EachCovered(prior: State, xs: seq<Transfer>, a: Address, c: Coin)
  {
    forall x :: x in xs && x.addr == a && x.amount < 0 ==> x.coin == c && Balance(prior, a, c) + x.amount >= 0
  }

  lemma {:induction false} PostedCovered<T>(
    claims: T -> Claim, h: Haul<T>, prior: State, pool: seq<T>, limit: nat, a: Address, c: Coin)
    requires EachCovered(prior, h.posted, a, c)
    requires forall tx :: tx in pool ==> EachCovered(prior, claims(tx).xfers, a, c)
    ensures EachCovered(prior, Collect(claims, h, prior, pool, limit).posted, a, c)
    decreases |pool|
  {
    if pool != [] {
      var v := IsValidInAggregate(h.books, prior, claims(pool[0]));
      assert pool[0] in pool && v.posted <= claims(pool[0]).xfers;
      assert EachCovered(prior, h.posted + v.posted, a, c);
      assert forall tx :: tx in pool[1..] ==> tx in pool;
      PostedCovered(claims, Consider(claims, h, prior, pool[0]), prior, pool[1..], limit, a, c);
    }
  }

  /** What a pass posted is safe in any order, for an address that spent from one coin only, exactly
      if it spent at least twice or the prior balance covers its spends. */
  lemma PassSafeExactly<T>(claims: T -> Claim, prior: State, pool: seq<T>, limit: nat, a: Address, c: Coin)
    requires SpendsOnly(Collect(claims, Start(prior), prior, pool, limit).posted, a, c)
    ensures var posted := Collect(claims, Start(prior), prior, pool, limit).posted;
      SafeInAnyOrder(prior, posted, a, c)
      <==> |Spends(posted, a)| >= 2 || Balance(prior, a, c) + Sum(Spends(posted, a)) >= 0
  {
    var posted := Collect(claims, Start(prior), prior, pool, limit).posted;
    DrainIsSpends(posted, a, c);
    SafeExactly(prior, posted, a, c);
    if |Spends(posted, a)| >= 2 {
      OrderSafety(claims, prior, pool, limit, a, c);
    }
  }

  lemma {:induction false} SpendsAreMembers(xs: seq<Transfer>, a: Address)
    ensures forall x :: x in Spends(xs, a) ==> x in xs && x.addr == a && x.amount < 0
  {
    if xs != [] { SpendsAreMembers(xs[1..], a); }
  }

  /** A condition on the pool alone: if the prior balance of one coin is not negative, and every spend
      of the address in the pool takes that coin and would be covered by itself, then nothing the
      pass accepts overdraws it, in any order. */
  lemma PoolSafe<T>(claims: T -> Claim, prior: State, pool: seq<T>, limit: nat, a: Address, c: Coin)
    requires Balance(prior, a, c) >= 0
    requires forall tx :: tx in pool ==> EachCovered(prior, claims(tx).xfers, a, c)
    ensures SafeInAnyOrder(prior, Collect(claims, Start(prior), prior, pool, limit).posted, a, c)
  {
    var posted := Collect(claims, Start(prior), prior, pool, limit).posted;
    PostedCovered(claims, Start(prior), prior, pool, limit, a, c);
    PassSafeExactly(claims, prior, pool, limit, a, c);
    SpendsAreMembers(posted, a);
    var spends := Spends(posted, a);
    if |spends| == 1 {
      assert spends[0] in spends && Sum(spends[1..]) == 0;
    }
  }

  // ---------------------------------------------------------------------------------
  // Every pass over some transactions
  // ---------------------------------------------------------------------------------

  /** Whatever pool is made of these transactions, and wherever the pass stops. */
  ghost predicate AlwaysSafe(prior: State, keys: Keys, txs: set<Tx>, a: Address, c: Coin)
  {
    forall pool, limit :: PoolOf(pool, txs) ==> SafeInAnyOrder(prior, CollectTxs(prior, keys, pool, limit).posted, a, c)
  }

  ghost predicate PoolOf(pool: seq<Tx>, txs: set<Tx>)
  {
    forall tx :: tx in pool ==> tx in txs
  }

  /** The spend of a sender-first transaction, if it is a's, is covered by the prior balance. */
  predicate SpendCovered(prior: State, tx: Tx, a: Address, c: Coin)
  {
    tx.xfers != [] && tx.xfers[0].addr == a ==> Balance(prior, a, c) + tx.xfers[0].amount >= 0
  }

  lemma {:induction false} NoDrain(xs: seq<Transfer>, a: Address, c: Coin)
    requires forall i :: 0 <= i < |xs| ==> xs[i].amount >= 0
    ensures Drain(xs, a, c) == 0
  {
    if xs != [] { NoDrain(xs[1..], a, c); }
  }

  lemma CollectOne<T>(claims: T -> Claim, h: Haul<T>, prior: State, tx: T, limit: nat)
    ensures Collect(claims, h, prior, [tx], limit) == Consider(claims, h, prior, tx)
  {
  }

  /** A transaction whose spend passes is posted whole; otherwise nothing of it is. */
  lemma PostedExactly(h: Haul<Tx>, prior: State, keys: Keys, tx: Tx)
    requires IsSound(tx, keys) && SenderFirst(tx.xfers)
    ensures var passes := Passes(h.books, prior, tx.oper == Exchange, tx.xfers[0]);
      Consider(TxClaims(keys), h, prior, tx).posted == h.posted + if passes then tx.xfers else []
  {
    PassesExactly(h.books, prior, tx.oper == Exchange, tx.xfers);
    AllOrNothing(h.books, prior, TxClaim(tx, keys));
  }

  /** A lone transaction whose spend passes is posted, covered or not. */
  lemma LoneIsPosted(prior: State, keys: Keys, tx: Tx)
    requires IsSound(tx, keys) && SenderFirst(tx.xfers)
    requires Passes(Start<Tx>(prior).books, prior, tx.oper == Exchange, tx.xfers[0])
    ensures CollectTxs(prior, keys, [tx], 1).posted == tx.xfers
  {
    PostedExactly(Start(prior), prior, keys, tx);
    CollectOne(TxClaims(keys), Start(prior), prior, tx, 1);
    assert [] + tx.xfers == tx.xfers;
  }

  lemma UncoveredIsUnsafe(prior: State, keys: Keys, tx: Tx, a: Address, c: Coin)
    requires IsSound(tx, keys) && SenderFirst(tx.xfers) && SpendsOnly(tx.xfers, a, c)
    requires tx.oper == Exchange ==> GetAmount(prior, c, a).Some?
    requires Balance(prior, a, c) >= 0 && !SpendCovered(prior, tx, a, c)
    ensures !SafeInAnyOrder(prior, CollectTxs(prior, keys, [tx], 1).posted, a, c)
  {
    assert tx.xfers[0] in tx.xfers;
    GetAmountIsBalance(prior, c, a);
    LoneIsPosted(prior, keys, tx);
    NoDrain(tx.xfers[1..], a, c);
    SafeExactly(prior, tx.xfers, a, c);
  }

  // ---------------------------------------------------------------------------------
  // A known address without the coin
  // ---------------------------------------------------------------------------------

  /** The haul after all of these transactions were looked at, with no limit. */
  ghost function Through(prior: State, keys: Keys, pool: seq<Tx>): (h: Haul<Tx>)
    ensures |h.valid| <= |pool|
    decreases |pool|
  {
    if pool == [] then Start(prior)
    else Consider(TxClaims(keys), Through(prior, keys, pool[..|pool| - 1]), prior, pool[|pool| - 1])
  }

  lemma ThroughSnoc(prior: State, keys: Keys, pool: seq<Tx>, tx: Tx)
    ensures Through(prior, keys, pool + [tx]) == Consider(TxClaims(keys), Through(prior, keys, pool), prior, tx)
  {
    assert (pool + [tx])[..|pool|] == pool;
  }

  lemma TurnIs<T>(claims: T -> Claim, h: Haul<T>, prior: State, pool: seq<T>, limit: nat) returns (last: bool)
    requires pool != []
    ensures var h' := Consider(claims, h, prior, pool[0]);
      && (last ==> limit <= |h'.valid|)
      && Collect(claims, h, prior, pool, limit) == if last then h' else Collect(claims, h', prior, pool[1..], limit)
  {
    var h' := Consider(claims, h, prior, pool[0]);
    last := |h'.valid| > |h.valid| && |h'.valid| >= limit;
  }

  /** One turn of the pass, which may be its last. */
  lemma PassTurn(prior: State, keys: Keys, pool: seq<Tx>, k: nat, h: Haul<Tx>, limit: nat) returns (h': Haul<Tx>, last: bool)
    requires k < |pool| && h == Through(prior, keys, pool[..k])
    ensures h' == Through(prior, keys, pool[..k + 1]) && (last ==> limit <= k + 1)
    ensures Collect(TxClaims(keys), h, prior, pool[k..], limit)
         == if last then h' else Collect(TxClaims(keys), h', prior, pool[k + 1..], limit)
  {
    assert pool[k..][1..] == pool[k + 1..];
    last := TurnIs(TxClaims(keys), h, prior, pool[k..], limit);
    h' := ThroughNext(prior, keys, pool, k, h);
  }

  lemma ThroughNext(prior: State, keys: Keys, pool: seq<Tx>, k: nat, h: Haul<Tx>) returns (h': Haul<Tx>)
    requires k < |pool| && h == Through(prior, keys, pool[..k])
    ensures h' == Through(prior, keys, pool[..k + 1]) == Consider(TxClaims(keys), h, prior, pool[k]) && |h'.valid| <= k + 1
  {
    h' := Through(prior, keys, pool[..k + 1]);
    assert pool[..k + 1] == pool[..k] + [pool[k]];
    ThroughSnoc(prior, keys, pool[..k], pool[k]);
  }

  /** A pass looks at some first part of the pool, and at all of it if the limit is out of reach. */
  lemma {:induction false} PassIsThrough(prior: State, keys: Keys, pool: seq<Tx>, k: nat, h: Haul<Tx>, limit: nat)
    returns (n: nat)
    requires k <= |pool| && h == Through(prior, keys, pool[..k])
    ensures n <= |pool| && (limit > |pool| ==> n == |pool|)
    ensures Collect(TxClaims(keys), h, prior, pool[k..], limit) == Through(prior, keys, pool[..n])
    decreases |pool| - k
  {
    n := k;
    if k < |pool| {
      var h', last := PassTurn(prior, keys, pool, k, h, limit);
      n := k + 1;
      if !last { n := PassIsThrough(prior, keys, pool, k + 1, h', limit); }
    }
  }

  lemma WholePass(prior: State, keys: Keys, pool: seq<Tx>)
    ensures CollectTxs(prior, keys, pool, |pool| + 1) == Through(prior, keys, pool)
  {
    var n := PassIsThrough(prior, keys, pool, 0, Start(prior), |pool| + 1);
    assert pool[0..] == pool[..n] == pool;
  }

  lemma StoppedPass(prior: State, keys: Keys, pool: seq<Tx>, limit: nat) returns (part: seq<Tx>)
    ensures part <= pool && CollectTxs(prior, keys, pool, limit) == Through(prior, keys, part)
  {
    var n := PassIsThrough(prior, keys, pool, 0, Start(prior), limit);
    part := pool[..n];
    assert pool[0..] == pool;
  }

  /** Some pass over these transactions puts the coin of the address on record. */
  ghost predicate Opened(prior: State, keys: Keys, txs: set<Tx>, a: Address, c: Coin)
  {
    exists pool, limit :: PoolOf(pool, txs) && GetAmount(CollectTxs(prior, keys, pool, limit).books.state, c, a).Some?
  }

  /** The lookup of the available coins throws for every spend of a in tx, in every pass. */
  ghost predicate Blocked(prior: State, keys: Keys, txs: set<Tx>, tx: Tx, a: Address, c: Coin)
  {
    tx.oper == Exchange && !Opened(prior, keys, txs, a, c)
  }

  /** The transactions the theorems below speak of: sound, sender first, and on a's coin c only. */
  ghost predicate SingleSpends(keys: Keys, txs: set<Tx>, a: Address, c: Coin)
  {
    forall tx :: tx in txs ==> IsSound(tx, keys) && SenderFirst(tx.xfers) && SpendsOnly(tx.xfers, a, c)
  }

  lemma {:induction false} ThroughSpendsOnly(prior: State, keys: Keys, txs: set<Tx>, pool: seq<Tx>, a: Address, c: Coin)
    requires SingleSpends(keys, txs, a, c) && PoolOf(pool, txs)
    ensures SpendsOnly(Through(prior, keys, pool).posted, a, c)
    decreases |pool|
  {
    if pool != [] {
      var part, tx := pool[..|pool| - 1], pool[|pool| - 1];
      assert tx in txs;
      ThroughSpendsOnly(prior, keys, txs, part, a, c);
      PostedExactly(Through(prior, keys, part), prior, keys, tx);
    }
  }

  /** With nothing to start from, any spend is an overdraft. */
  lemma SpentFromNothing(prior: State, posted: seq<Transfer>, a: Address, c: Coin)
    requires Balance(prior, a, c) == 0 && SpendsOnly(posted, a, c) && Spends(posted, a) != []
    ensures !SafeInAnyOrder(prior, posted, a, c)
  {
    DrainIsSpends(posted, a, c);
    SafeExactly(prior, posted, a, c);
    SpendsAreMembers(posted, a);
    NegativeSum(Spends(posted, a));
  }

  lemma {:induction false} NegativeSum(xs: seq<Transfer>)
    requires xs != [] && forall i :: 0 <= i < |xs| ==> xs[i].amount < 0
    ensures Sum(xs) < 0
  {
    if |xs| > 1 { NegativeSum(xs[1..]); }
  }

  lemma {:induction false} NoSpendNoLoss(xs: seq<Transfer>, a: Address, c: Coin)
    requires Spends(xs, a) == []
    ensures Change(xs, a, c) >= 0
  {
    if xs != [] { NoSpendNoLoss(xs[1..], a, c); }
  }

  lemma ThroughExplains(prior: State, keys: Keys, pool: seq<Tx>)
    ensures var h := Through(prior, keys, pool); Explains(h.books, prior, h.posted)
  {
    WholePass(prior, keys, pool);
    PassExplains(TxClaims(keys), prior, pool, |pool| + 1);
  }

  /** Once the coin is on record, the next spend of a passes unless a has spent before. */
  lemma OpenPasses(prior: State, keys: Keys, pool: seq<Tx>, x: Transfer)
    requires var h := Through(prior, keys, pool);
      GetAmount(h.books.state, x.coin, x.addr).Some? && Spends(h.posted, x.addr) == []
    requires x.amount < 0 <= Balance(prior, x.addr, x.coin)
    ensures Passes(Through(prior, keys, pool).books, prior, true, x)
  {
    var h := Through(prior, keys, pool);
    ThroughExplains(prior, keys, pool);
    assert AggregateOk(h.books, prior, h.posted, x.addr);
    GetAmountIsBalance(h.books.state, x.coin, x.addr);
    PostAllBalance(prior, h.posted, x.addr, x.coin);
    NoSpendNoLoss(h.posted, x.addr, x.coin);
  }

  /** After a pass that put the coin on record, a spend from nothing goes through. */
  lemma OpenedIsUnsafe(prior: State, keys: Keys, txs: set<Tx>, tx: Tx, a: Address, c: Coin)
    requires SingleSpends(keys, txs, a, c) && tx in txs && tx.xfers[0].addr == a
    requires Balance(prior, a, c) == 0 && Opened(prior, keys, txs, a, c)
    ensures !AlwaysSafe(prior, keys, txs, a, c)
  {
    var pool, limit :| PoolOf(pool, txs) && GetAmount(CollectTxs(prior, keys, pool, limit).books.state, c, a).Some?;
    var part := StoppedPass(prior, keys, pool, limit);
    assert PoolOf(part, txs);
    var all := SpendingPool(prior, keys, txs, part, tx, a, c);
    ThroughSpendsOnly(prior, keys, txs, all, a, c);
    SpentFromNothing(prior, Through(prior, keys, all).posted, a, c);
    WholePass(prior, keys, all);
  }

  lemma SpendingPool(prior: State, keys: Keys, txs: set<Tx>, pool: seq<Tx>, tx: Tx, a: Address, c: Coin)
    returns (all: seq<Tx>)
    requires SingleSpends(keys, txs, a, c) && PoolOf(pool, txs) && tx in txs && tx.xfers[0].addr == a
    requires Balance(prior, a, c) == 0 && GetAmount(Through(prior, keys, pool).books.state, c, a).Some?
    ensures PoolOf(all, txs) && Spends(Through(prior, keys, all).posted, a) != []
  {
    var h, x := Through(prior, keys, pool), tx.xfers[0];
    all := pool;
    if Spends(h.posted, a) == [] {
      assert x in tx.xfers;
      OpenPasses(prior, keys, pool, x);
      PassedIsSpent(h, prior, keys, tx);
      ThroughSnoc(prior, keys, pool, tx);
      all := pool + [tx];
    }
  }

  lemma PassedIsSpent(h: Haul<Tx>, prior: State, keys: Keys, tx: Tx)
    requires IsSound(tx, keys) && SenderFirst(tx.xfers) && Passes(h.books, prior, true, tx.xfers[0])
    ensures Spends(Consider(TxClaims(keys), h, prior, tx).posted, tx.xfers[0].addr) != []
  {
    PostedExactly(h, prior, keys, tx);
    SpendsConcat(h.posted, tx.xfers, tx.xfers[0].addr);
  }

  lemma BlockedStep(h: Haul<Tx>, prior: State, keys: Keys, tx: Tx, a: Address)
    requires IsSound(tx, keys) && SenderFirst(tx.xfers) && Spends(h.posted, a) == []
    requires tx.xfers[0].addr == a ==> tx.oper == Exchange && GetAmount(h.books.state, tx.xfers[0].coin, a).None?
    ensures Spends(Consider(TxClaims(keys), h, prior, tx).posted, a) == []
  {
    PostedExactly(h, prior, keys, tx);
    if tx.xfers[0].addr == a {
      assert h.posted + [] == h.posted;
    } else {
      OthersSpend(tx.xfers, a);
      SpendsConcat(h.posted, tx.xfers, a);
      assert h.posted + [] == h.posted;
    }
  }

  /** Where every transaction of a is blocked, a never spends. */
  lemma {:induction false} BlockedNeverSpends(prior: State, keys: Keys, txs: set<Tx>, pool: seq<Tx>, a: Address, c: Coin)
    requires SingleSpends(keys, txs, a, c) && PoolOf(pool, txs)
    requires forall tx :: tx in txs && tx.xfers[0].addr == a ==> Blocked(prior, keys, txs, tx, a, c)
    ensures Spends(Through(prior, keys, pool).posted, a) == []
    decreases |pool|
  {
    if pool != [] {
      var part, tx := pool[..|pool| - 1], pool[|pool| - 1];
      assert tx in txs && PoolOf(part, txs);
      BlockedNeverSpends(prior, keys, txs, part, a, c);
      WholePass(prior, keys, part);
      assert tx.xfers[0] in tx.xfers;
      BlockedStep(Through(prior, keys, part), prior, keys, tx, a);
    }
  }

  lemma {:induction false} OthersSpend(xs: seq<Transfer>, a: Address)
    requires forall i :: 0 <= i < |xs| ==> xs[i].addr != a || xs[i].amount >= 0
    ensures Spends(xs, a) == []
  {
    if xs != [] { OthersSpend(xs[1..], a); }
  }

  lemma BlockedIsSafe(prior: State, keys: Keys, txs: set<Tx>, a: Address, c: Coin)
    requires SingleSpends(keys, txs, a, c) && Balance(prior, a, c) >= 0
    requires forall tx :: tx in txs && tx.xfers[0].addr == a ==> Blocked(prior, keys, txs, tx, a, c)
    ensures AlwaysSafe(prior, keys, txs, a, c)
  {
    forall pool, limit | PoolOf(pool, txs)
      ensures SafeInAnyOrder(prior, CollectTxs(prior, keys, pool, limit).posted, a, c)
    {
      var part := StoppedPass(prior, keys, pool, limit);
      var posted := Through(prior, keys, part).posted;
      BlockedNeverSpends(prior, keys, txs, part, a, c);
      ThroughSpendsOnly(prior, keys, txs, part, a, c);
      DrainIsSpends(posted, a, c);
      SafeExactly(prior, posted, a, c);
    }
  }

  // ---------------------------------------------------------------------------------
  // The exact condition
  // ---------------------------------------------------------------------------------

  lemma CoveredIsSafe(prior: State, keys: Keys, txs: set<Tx>, a: Address, c: Coin)
    requires SingleSpends(keys, txs, a, c) && Balance(prior, a, c) >= 0
    requires forall tx :: tx in txs ==> SpendCovered(prior, tx, a, c)
    ensures AlwaysSafe(prior, keys, txs, a, c)
  {
    forall pool, limit | PoolOf(pool, txs)
      ensures SafeInAnyOrder(prior, CollectTxs(prior, keys, pool, limit).posted, a, c)
    {
      forall tx | tx in pool ensures EachCovered(prior, TxClaims(keys)(tx).xfers, a, c) {
        CoveredSender(prior, tx, a, c);
      }
      PoolSafe(TxClaims(keys), prior, pool, limit, a, c);
    }
  }

  lemma CoveredSender(prior: State, tx: Tx, a: Address, c: Coin)
    requires SenderFirst(tx.xfers) && SpendsOnly(tx.xfers, a, c) && SpendCovered(prior, tx, a, c)
    ensures EachCovered(prior, tx.xfers, a, c)
  {
  }

  lemma NeitherIsUnsafe(prior: State, keys: Keys, txs: set<Tx>, tx: Tx, a: Address, c: Coin)
    requires SingleSpends(keys, txs, a, c) && tx in txs && Balance(prior, a, c) >= 0
    requires !SpendCovered(prior, tx, a, c) && !Blocked(prior, keys, txs, tx, a, c)
    ensures !AlwaysSafe(prior, keys, txs, a, c)
  {
    if tx.oper == Exchange && GetAmount(prior, c, a).None? {
      OpenedIsUnsafe(prior, keys, txs, tx, a, c);
    } else {
      UncoveredIsUnsafe(prior, keys, tx, a, c);
      assert PoolOf([tx], txs);
    }
  }

  /** The exact condition for sender-first transactions that spend a's coin c: no pool made of them
      can overdraw the prior balance, if and only if it is not negative and each single spend is
      either covered by it or blocked. A spend is blocked only for a known address without the
      coin, if no pass over these transactions ever puts the coin on record. */
  lemma AlwaysSafeExactly(prior: State, keys: Keys, txs: set<Tx>, a: Address, c: Coin)
    requires SingleSpends(keys, txs, a, c)
    ensures AlwaysSafe(prior, keys, txs, a, c)
       <==> Balance(prior, a, c) >= 0
            && forall tx :: tx in txs ==> SpendCovered(prior, tx, a, c) || Blocked(prior, keys, txs, tx, a, c)
    ensures GetAmount(prior, c, a).Some? ==> Opened(prior, keys, txs, a, c)
  {
    assert PoolOf([], txs) && CollectTxs(prior, keys, [], 1) == Start(prior);
    SafeExactly(prior, [], a, c);
    if AlwaysSafe(prior, keys, txs, a, c) {
      forall tx | tx in txs ensures SpendCovered(prior, tx, a, c) || Blocked(prior, keys, txs, tx, a, c) {
        if !SpendCovered(prior, tx, a, c) && !Blocked(prior, keys, txs, tx, a, c) {
          NeitherIsUnsafe(prior, keys, txs, tx, a, c);
        }
      }
    }
    if Balance(prior, a, c) >= 0
       && forall tx :: tx in txs ==> SpendCovered(prior, tx, a, c) || Blocked(prior, keys, txs, tx, a, c) {
      if tx :| tx in txs && Blocked(prior, keys, txs, tx, a, c) && !SpendCovered(prior, tx, a, c) {
        assert Balance(prior, a, c) == 0;
        BlockedIsSafe(prior, keys, txs, a, c);
      } else {
        CoveredIsSafe(prior, keys, txs, a, c);
      }
    }
  }

  // ---------------------------------------------------------------------------------
  // When the coin is put on record
  // ---------------------------------------------------------------------------------

  predicate Touches(xs: seq<Transfer>, a: Address, c: Coin)
  {
    exists i :: 0 <= i < |xs| && xs[i].addr == a && xs[i].coin == c
  }

  lemma {:induction false} PostAllCell(st: State, xs: seq<Transfer>, a: Address, c: Coin)
    ensures HasCell(PostAll(st, xs), a, c) <==> HasCell(st, a, c) || Touches(xs, a, c)
    ensures a in st ==> a in PostAll(st, xs)
    decreases |xs|
  {
    if xs != [] {
      PostAllCell(AddCoin(st, SmartCoin(xs[0].addr, xs[0].coin, xs[0].amount)), xs[1..], a, c);
      assert Touches(xs[1..], a, c) ==> Touches(xs, a, c) by {
        if i :| 0 <= i < |xs[1..]| && xs[1..][i].addr == a && xs[1..][i].coin == c { assert xs[i + 1].addr == a; }
      }
      if i :| 0 < i < |xs| && xs[i].addr == a && xs[i].coin == c { assert xs[1..][i - 1] == xs[i]; }
    }
  }

  lemma TouchesConcat(xs: seq<Transfer>, ys: seq<Transfer>, a: Address, c: Coin)
    ensures Touches(xs + ys, a, c) <==> Touches(xs, a, c) || Touches(ys, a, c)
  {
    if i :| 0 <= i < |xs| && xs[i].addr == a && xs[i].coin == c { assert (xs + ys)[i] == xs[i]; }
    if i :| 0 <= i < |ys| && ys[i].addr == a && ys[i].coin == c { assert (xs + ys)[|xs| + i] == ys[i]; }
  }

  lemma OnRecord(st: State, xs: seq<Transfer>, a: Address, c: Coin)
    requires GetAmount(st, c, a).None?
    ensures GetAmount(PostAll(st, xs), c, a).Some? <==> Touches(xs, a, c)
  {
    PostAllCell(st, xs, a, c);
  }

  lemma UntouchedStep(h: Haul<Tx>, prior: State, keys: Keys, tx: Tx, a: Address, c: Coin)
    requires IsSound(tx, keys) && SenderFirst(tx.xfers) && SpendsOnly(tx.xfers, a, c)
    requires !Touches(h.posted, a, c) && GetAmount(h.books.state, c, a).None?
    requires !Touches(tx.xfers[1..], a, c) && (tx.xfers[0].addr == a ==> tx.oper == Exchange)
    ensures !Touches(Consider(TxClaims(keys), h, prior, tx).posted, a, c)
  {
    assert tx.xfers[0] in tx.xfers;
    PostedExactly(h, prior, keys, tx);
    TouchesConcat(h.posted, tx.xfers, a, c);
    TouchesConcat([tx.xfers[0]], tx.xfers[1..], a, c);
    assert tx.xfers == [tx.xfers[0]] + tx.xfers[1..] && h.posted + [] == h.posted;
  }

  lemma {:induction false} ThroughUntouched(prior: State, keys: Keys, txs: set<Tx>, pool: seq<Tx>, a: Address, c: Coin)
    requires SingleSpends(keys, txs, a, c) && PoolOf(pool, txs) && GetAmount(prior, c, a).None?
    requires forall tx :: tx in txs ==> !Touches(tx.xfers[1..], a, c) && (tx.xfers[0].addr == a ==> tx.oper == Exchange)
    ensures var h := Through(prior, keys, pool); !Touches(h.posted, a, c) && GetAmount(h.books.state, c, a).None?
    decreases |pool|
  {
    if pool != [] {
      var part, tx := pool[..|pool| - 1], pool[|pool| - 1];
      assert tx in txs && PoolOf(part, txs);
      ThroughUntouched(prior, keys, txs, part, a, c);
      UntouchedStep(Through(prior, keys, part), prior, keys, tx, a, c);
    }
    ThroughExplains(prior, keys, pool);
    OnRecord(prior, Through(prior, keys, pool).posted, a, c);
  }

  /** Without a receipt of the coin in any of the transactions, no pass puts it on record: a guarded
      spend waits for a receipt. */
  lemma NeverOpened(prior: State, keys: Keys, txs: set<Tx>, a: Address, c: Coin)
    requires SingleSpends(keys, txs, a, c) && GetAmount(prior, c, a).None?
    requires forall tx :: tx in txs ==> !Touches(tx.xfers[1..], a, c) && (tx.xfers[0].addr == a ==> tx.oper == Exchange)
    ensures !Opened(prior, keys, txs, a, c)
  {
    forall pool, limit | PoolOf(pool, txs)
      ensures GetAmount(CollectTxs(prior, keys, pool, limit).books.state, c, a).None?
    {
      var part := StoppedPass(prior, keys, pool, limit);
      ThroughUntouched(prior, keys, txs, part, a, c);
    }
  }

  /** One transaction that passes by itself and names the coin of the address is enough. */
  lemma OpenedByOne(prior: State, keys: Keys, txs: set<Tx>, tx: Tx, a: Address, c: Coin)
    requires tx in txs && IsSound(tx, keys) && SenderFirst(tx.xfers) && Touches(tx.xfers, a, c)
    requires GetAmount(prior, c, a).None? && Passes(Start<Tx>(prior).books, prior, tx.oper == Exchange, tx.xfers[0])
    ensures Opened(prior, keys, txs, a, c)
  {
    LoneIsPosted(prior, keys, tx);
    OpenedBy(prior, keys, txs, [tx], 1, tx.xfers, a, c);
  }

  lemma OpenedBy(prior: State, keys: Keys, txs: set<Tx>, pool: seq<Tx>, limit: nat, posted: seq<Transfer>, a: Address,
      c: Coin)
    requires PoolOf(pool, txs) && CollectTxs(prior, keys, pool, limit).posted == posted
    requires GetAmount(prior, c, a).None? && Touches(posted, a, c)
    ensures Opened(prior, keys, txs, a, c)
  {
    PassExplains(TxClaims(keys), prior, pool, limit);
    OnRecord(prior, posted, a, c);
  }

  /** The lookup of the available coins throws exactly for a known address without the coin: alone, a
      guarded first spend is refused for it, and accepted for an address that is not known at all. */
  lemma KnownWithoutCoin(prior: State, keys: Keys, tx: Tx)
    requires IsSound(tx, keys) && SenderFirst(tx.xfers) && tx.oper == Exchange
    ensures var x, valid := tx.xfers[0], CollectTxs(prior, keys, [tx], 1).valid;
      && (x.addr in prior && x.coin !in prior[x.addr] ==> valid == [])
      && (x.addr !in prior ==> valid == [tx])
  {
    var b := Start<Tx>(prior).books;
    PassesExactly(b, prior, true, tx.xfers);
    CollectOne(TxClaims(keys), Start(prior), prior, tx, 1);
  }
}
