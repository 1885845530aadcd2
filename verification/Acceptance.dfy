/** Exactly when a pass accepts everything: a condition on the prior state and the transfers in the
    order of the pool, for transactions that do not go through the guard on available coins.
 */
module Acceptance {
  import opened Options
  import opened Permutations
  import opened Summaries
  import opened Ledger

  /** The check of a spend: the first of its address passes; a later one passes if the prior balance
      of its coin covers it together with all spends of the address before. */
  predicate CoveredAt(prior: State, before: seq<Transfer>, x: Transfer)
  {
    x.amount < 0 && Spends(before, x.addr) != [] ==>
      var historic := GetAmount(prior, x.coin, x.addr);
      historic.Some? && historic.value + Sum(Spends(before, x.addr)) + x.amount >= 0
  }

  ghost predicate AllCovered(prior: State, before: seq<Transfer>, xs: seq<Transfer>)
  {
    forall i :: 0 <= i < |xs| ==> CoveredAt(prior, before + xs[..i], xs[i])
  }

  lemma CoveredConcat(prior: State, before: seq<Transfer>, xs: seq<Transfer>, ys: seq<Transfer>)
    ensures AllCovered(prior, before, xs + ys) <==> AllCovered(prior, before, xs) && AllCovered(prior, before + xs, ys)
  {
    var all := xs + ys;
    forall i | 0 <= i < |xs|
      ensures all[..i] == xs[..i] && all[i] == xs[i]
    {
    }
    forall i | 0 <= i < |ys|
      ensures before + all[..|xs| + i] == before + xs + ys[..i] && all[|xs| + i] == ys[i]
    {
      assert all[..|xs| + i] == xs + ys[..i];
    }
    if AllCovered(prior, before, all) {
      forall i | 0 <= i < |xs| ensures CoveredAt(prior, before + xs[..i], xs[i]) {
        assert CoveredAt(prior, before + all[..i], all[i]);
      }
      forall i | 0 <= i < |ys| ensures CoveredAt(prior, before + xs + ys[..i], ys[i]) {
        assert CoveredAt(prior, before + all[..|xs| + i], all[|xs| + i]);
      }
    }
    if AllCovered(prior, before, xs) && AllCovered(prior, before + xs, ys) {
      forall i | 0 <= i < |all| ensures CoveredAt(prior, before + all[..i], all[i]) {
        if i >= |xs| { assert CoveredAt(prior, before + xs + ys[..i - |xs|], ys[i - |xs|]); }
      }
    }
  }

  lemma AdmitExactly(b: Books, prior: State, x: Transfer, posted: seq<Transfer>)
    requires Explains(b, prior, posted)
    ensures Admit(b, prior, false, x).Some? <==> CoveredAt(prior, posted, x)
  {
    assert AggregateOk(b, prior, posted, x.addr);
  }

  lemma CoveredOne(prior: State, before: seq<Transfer>, x: Transfer)
    ensures AllCovered(prior, before, [x]) <==> CoveredAt(prior, before, x)
  {
    assert before + [x][..0] == before;
  }

  lemma {:induction false} RunExactly(b: Books, prior: State, xs: seq<Transfer>, posted: seq<Transfer>)
    requires Explains(b, prior, posted)
    ensures RunTransfers(b, prior, false, xs).ok <==> AllCovered(prior, posted, xs)
    decreases |xs|
  {
    if xs != [] {
      assert xs == [xs[0]] + xs[1..];
      CoveredConcat(prior, posted, [xs[0]], xs[1..]);
      CoveredOne(prior, posted, xs[0]);
      AdmitExactly(b, prior, xs[0], posted);
      if Admit(b, prior, false, xs[0]).Some? {
        var next := Admit(b, prior, false, xs[0]).value;
        AdmitExplains(b, prior, false, xs[0], posted);
        RunTransfersStep(b, prior, false, xs, next);
        RunExactly(next, prior, xs[1..], posted + [xs[0]]);
      }
    }
  }

  function XfersBy<T>(claims: T -> Claim): T -> seq<Transfer>
  {
    tx => claims(tx).xfers
  }

  /** Sound, readable as a whole and without the guard on available coins. */
  predicate Plain(c: Claim)
  {
    c.sound && !c.guarded && c.complete
  }

  lemma {:induction false} CollectBound<T>(claims: T -> Claim, h: Haul<T>, prior: State, pool: seq<T>, limit: nat)
    ensures var r := Collect(claims, h, prior, pool, limit);
      |h.valid| <= |r.valid| <= |h.valid| + |pool| && (|h.valid| < Max(limit, 1) ==> |r.valid| <= Max(limit, 1))
    decreases |pool|
  {
    if pool != [] {
      var h' := Consider(claims, h, prior, pool[0]);
      ConsiderValid(claims, h, prior, pool[0]);
      CollectBound(claims, h', prior, pool[1..], limit);
    }
  }

  lemma ConsiderValid<T>(claims: T -> Claim, h: Haul<T>, prior: State, tx: T)
    ensures var valid := Consider(claims, h, prior, tx).valid; valid == h.valid || valid == h.valid + [tx]
  {
  }

  /** One plain transaction: accepted, with all its transfers, exactly if they are covered. */
  lemma ConsiderExactly<T>(claims: T -> Claim, h: Haul<T>, prior: State, tx: T)
    requires Explains(h.books, prior, h.posted) && Plain(claims(tx))
    ensures var h' := Consider(claims, h, prior, tx);
      if AllCovered(prior, h.posted, claims(tx).xfers)
      then h'.valid == h.valid + [tx] && h'.posted == h.posted + claims(tx).xfers
      else h'.valid == h.valid
  {
    RunExactly(h.books, prior, claims(tx).xfers, h.posted);
  }

  lemma CollectStep<T>(claims: T -> Claim, h: Haul<T>, prior: State, pool: seq<T>, limit: nat)
    requires pool != [] && |h.valid| + |pool| <= Max(limit, 1)
    ensures Collect(claims, h, prior, pool, limit)
         == Collect(claims, Consider(claims, h, prior, pool[0]), prior, pool[1..], limit)
  {
    ConsiderValid(claims, h, prior, pool[0]);
  }

  /** A pass that accepts as many transactions as there are accepts them in pool order. */
  lemma {:induction false} CollectWhole<T>(claims: T -> Claim, h: Haul<T>, prior: State, pool: seq<T>, limit: nat)
    requires |h.valid| + |pool| <= Max(limit, 1)
    requires |Collect(claims, h, prior, pool, limit).valid| == |h.valid| + |pool|
    ensures Collect(claims, h, prior, pool, limit).valid == h.valid + pool
    decreases |pool|
  {
    if pool == [] {
      assert h.valid + pool == h.valid;
    } else {
      var h' := Consider(claims, h, prior, pool[0]);
      ConsiderValid(claims, h, prior, pool[0]);
      CollectStep(claims, h, prior, pool, limit);
      CollectBound(claims, h', prior, pool[1..], limit);
      CollectWhole(claims, h', prior, pool[1..], limit);
      assert h.valid + pool == h.valid + [pool[0]] + pool[1..];
    }
  }

  /** A pass accepts the whole pool exactly if all its transfers are covered in pool order. */
  lemma {:induction false} CollectExactly<T>(claims: T -> Claim, h: Haul<T>, prior: State, pool: seq<T>, limit: nat)
    requires Explains(h.books, prior, h.posted) && |h.valid| + |pool| <= Max(limit, 1)
    requires forall tx :: tx in pool ==> Plain(claims(tx))
    ensures var r := Collect(claims, h, prior, pool, limit);
      var all := Gather(XfersBy(claims), pool);
      && (|r.valid| == |h.valid| + |pool| <==> AllCovered(prior, h.posted, all))
      && (|r.valid| == |h.valid| + |pool| ==> r.posted == h.posted + all)
    decreases |pool|
  {
    if pool != [] {
      var h' := Consider(claims, h, prior, pool[0]);
      var first, rest := claims(pool[0]).xfers, Gather(XfersBy(claims), pool[1..]);
      assert pool[0] in pool && forall tx :: tx in pool[1..] ==> tx in pool;
      ConsiderExactly(claims, h, prior, pool[0]);
      ConsiderExplains(claims, h, prior, pool[0]);
      CoveredConcat(prior, h.posted, first, rest);
      Assoc(h.posted, first, rest);
      CollectStep(claims, h, prior, pool, limit);
      CollectBound(claims, h', prior, pool[1..], limit);
      if h'.valid == h.valid + [pool[0]] {
        CollectExactly(claims, h', prior, pool[1..], limit);
      }
    } else {
      assert h.posted + [] == h.posted;
    }
  }

  // ---------------------------------------------------------------------------------
  // Whatever the order
  // ---------------------------------------------------------------------------------

  /** Every address spends from one coin only. */
  ghost predicate OneCoinEach(xs: seq<Transfer>, coinOf: Address -> Coin)
  {
    forall x :: x in xs && x.amount < 0 ==> x.coin == coinOf(x.addr)
  }

  /** An address that spends at least twice has a record of its coin that covers all its spends. */
  ghost predicate Affordable(prior: State, xs: seq<Transfer>, a: Address, c: Coin)
  {
    |Spends(xs, a)| >= 2 ==> GetAmount(prior, c, a).Some? && Balance(prior, a, c) + Sum(Spends(xs, a)) >= 0
  }

  lemma {:induction false} SumOfSpends(xs: seq<Transfer>, a: Address)
    ensures Sum(Spends(xs, a)) <= 0
  {
    if xs != [] {
      SumOfSpends(xs[1..], a);
      SumConcat(if xs[0].addr == a && xs[0].amount < 0 then [xs[0]] else [], Spends(xs[1..], a));
    }
  }

  lemma SpendsUpTo(xs: seq<Transfer>, i: nat, a: Address)
    requires i <= |xs|
    ensures Spends(xs, a) == Spends(xs[..i], a) + Spends(xs[i..], a)
    ensures Sum(Spends(xs[..i], a)) >= Sum(Spends(xs, a))
  {
    assert xs == xs[..i] + xs[i..];
    SpendsConcat(xs[..i], xs[i..], a);
    SumConcat(Spends(xs[..i], a), Spends(xs[i..], a));
    SumOfSpends(xs[i..], a);
  }

  /** The last spend of an address that spends at least twice. */
  lemma {:induction false} LastSpend(xs: seq<Transfer>, a: Address) returns (i: nat)
    requires Spends(xs, a) != []
    ensures i < |xs| && xs[i].addr == a && xs[i].amount < 0 && Spends(xs, a) == Spends(xs[..i], a) + [xs[i]]
    decreases |xs|
  {
    var n := |xs| - 1;
    assert xs == xs[..n] + [xs[n]];
    SpendsStep(xs[..n], xs[n], a);
    if xs[n].addr == a && xs[n].amount < 0 {
      i := n;
    } else {
      i := LastSpend(xs[..n], a);
      assert xs[..n][..i] == xs[..i];
    }
  }

  lemma CoveredIsAffordable(prior: State, xs: seq<Transfer>, a: Address, c: Coin)
    requires AllCovered(prior, [], xs) && forall x :: x in xs && x.addr == a && x.amount < 0 ==> x.coin == c
    ensures Affordable(prior, xs, a, c)
  {
    if |Spends(xs, a)| >= 2 {
      var i := LastSpend(xs, a);
      assert CoveredAt(prior, [] + xs[..i], xs[i]) && [] + xs[..i] == xs[..i];
      GetAmountIsBalance(prior, c, a);
      SumConcat(Spends(xs[..i], a), [xs[i]]);
    }
  }

  lemma AffordableIsCovered(prior: State, xs: seq<Transfer>, i: nat, c: Coin)
    requires i < |xs| && Affordable(prior, xs, xs[i].addr, c) && (xs[i].amount < 0 ==> xs[i].coin == c)
    ensures CoveredAt(prior, xs[..i], xs[i])
  {
    var x := xs[i];
    if x.amount < 0 && Spends(xs[..i], x.addr) != [] {
      assert xs[..i + 1] == xs[..i] + [x];
      SpendsStep(xs[..i], x, x.addr);
      SpendsUpTo(xs, i + 1, x.addr);
      GetAmountIsBalance(prior, c, x.addr);
    }
  }

  /** If every address spends from one coin only, the order of the pool does not matter: everything
      is accepted exactly if every address that spends twice can afford all its spends. */
  lemma CoveredExactly(prior: State, xs: seq<Transfer>, coinOf: Address -> Coin)
    requires OneCoinEach(xs, coinOf)
    ensures AllCovered(prior, [], xs) <==> forall a :: Affordable(prior, xs, a, coinOf(a))
  {
    if AllCovered(prior, [], xs) {
      forall a ensures Affordable(prior, xs, a, coinOf(a)) {
        CoveredIsAffordable(prior, xs, a, coinOf(a));
      }
    }
    if forall a :: Affordable(prior, xs, a, coinOf(a)) {
      forall i | 0 <= i < |xs| ensures CoveredAt(prior, [] + xs[..i], xs[i]) {
        assert [] + xs[..i] == xs[..i] && xs[i] in xs;
        AffordableIsCovered(prior, xs, i, coinOf(xs[i].addr));
      }
    }
  }
}
