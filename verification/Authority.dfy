/** Whose coins a pass lets move: what do_isSound lets through, said of the transfers that a pass over
    the pool posts and of the transactions that it accepts.
 */
module Authority {
  import opened Options
  import opened Summaries
  import opened Ledger
  import opened Assembly
  import opened Overdrafts

  /** The transfer stands in the transaction, its own address signed that, and unless the transaction
      is an exchange, that address is one of the INN. */
  predicate Authorised(tx: Tx, x: Transfer, keys: Keys)
  {
    x in tx.xfers && tx.signedBy == x.addr && (tx.oper != Exchange ==> x.addr in keys.inn)
  }

  /** The amounts of the transaction cancel out, and every spend is authorised. */
  ghost predicate Lawful(tx: Tx, keys: Keys)
  {
    Sum(tx.xfers) == 0 && forall x :: x in tx.xfers && x.amount < 0 ==> Authorised(tx, x, keys)
  }

  lemma {:induction false} SenderSpends(xs: seq<Transfer>)
    ensures (exists x :: x in xs && x.amount < 0) ==> exists x :: x in xs && x.amount < 0 && x.addr == Sender(xs)
    ensures (forall x :: x in xs ==> x.amount >= 0) ==> Sender(xs) == [0]
  {
    if xs != [] {
      var last := xs[|xs| - 1];
      assert last in xs;
      if last.amount >= 0 {
        assert forall x :: x in xs ==> x == last || x in xs[..|xs| - 1];
        SenderSpends(xs[..|xs| - 1]);
      }
    }
  }

  lemma OneSenderIs(xs: seq<Transfer>, x: Transfer)
    requires OneSender(xs) && x in xs && x.amount < 0
    ensures x.addr == Sender(xs)
  {
    SenderSpends(xs);
    var y :| y in xs && y.amount < 0 && y.addr == Sender(xs);
    var i :| 0 <= i < |xs| && xs[i] == x;
    var j :| 0 <= j < |xs| && xs[j] == y;
  }

  /** do_isSound lets exactly the lawful transactions through; one that spends nothing counts as sent
      by the null address. */
  lemma SoundExactly(tx: Tx, keys: Keys)
    ensures IsSound(tx, keys)
       <==> Lawful(tx, keys) && ((forall x :: x in tx.xfers ==> x.amount >= 0)
                                 ==> tx.signedBy == [0] && (tx.oper != Exchange ==> [0] in keys.inn))
  {
    SenderSpends(tx.xfers);
    if IsSound(tx, keys) {
      forall y | y in tx.xfers && y.amount < 0 ensures Authorised(tx, y, keys) { OneSenderIs(tx.xfers, y); }
    }
    if Lawful(tx, keys) {
      assert forall i :: 0 <= i < |tx.xfers| && tx.xfers[i].amount < 0 ==>
          tx.xfers[i] in tx.xfers && Authorised(tx, tx.xfers[i], keys);
    }
  }

  // ---------------------------------------------------------------------------------
  // A pass
  // ---------------------------------------------------------------------------------

  /** Every transfer of a list stands in a lawful transaction of the pool. */
  ghost predicate FromLawful(xs: seq<Transfer>, pool: seq<Tx>, keys: Keys)
  {
    forall x :: x in xs ==> exists tx :: tx in pool && Lawful(tx, keys) && x in tx.xfers
  }

  ghost predicate AllLawful(txs: seq<Tx>, keys: Keys)
  {
    forall tx :: tx in txs ==> Lawful(tx, keys)
  }

  lemma ConsiderLawful(h: Haul<Tx>, prior: State, keys: Keys, tx: Tx, all: seq<Tx>)
    requires FromLawful(h.posted, all, keys) && AllLawful(h.valid, keys) && tx in all
    ensures var h' := Consider(TxClaims(keys), h, prior, tx); FromLawful(h'.posted, all, keys) && AllLawful(h'.valid, keys)
  {
    var v := IsValidInAggregate(h.books, prior, TxClaim(tx, keys));
    if IsSound(tx, keys) {
      SoundExactly(tx, keys);
      assert v.posted <= tx.xfers;
    }
    forall x | x in h.posted + v.posted
      ensures exists tx :: tx in all && Lawful(tx, keys) && x in tx.xfers
    {
      if x in v.posted { assert x in tx.xfers; }
    }
  }

  lemma {:induction false} CollectLawful(h: Haul<Tx>, prior: State, keys: Keys, pool: seq<Tx>, limit: nat, all: seq<Tx>)
    requires FromLawful(h.posted, all, keys) && AllLawful(h.valid, keys) && forall tx :: tx in pool ==> tx in all
    ensures var r := Collect(TxClaims(keys), h, prior, pool, limit);
      FromLawful(r.posted, all, keys) && AllLawful(r.valid, keys)
    decreases |pool|
  {
    if pool != [] {
      assert pool[0] in pool && forall tx :: tx in pool[1..] ==> tx in pool;
      ConsiderLawful(h, prior, keys, pool[0], all);
      CollectLawful(Consider(TxClaims(keys), h, prior, pool[0]), prior, keys, pool[1..], limit, all);
    }
  }

  /** No coin leaves an address in a pass, not even by a transaction that is then rejected, unless
      that address signed a transaction of the pool that says so, and one of the INN if it is not an
      exchange. */
  lemma EverySpendAuthorised(prior: State, keys: Keys, pool: seq<Tx>, limit: nat, x: Transfer)
    requires x in CollectTxs(prior, keys, pool, limit).posted && x.amount < 0
    ensures exists tx :: tx in pool && Authorised(tx, x, keys)
  {
    CollectLawful(Start(prior), prior, keys, pool, limit, pool);
  }

  /** Every accepted transaction cancels out and has at most one spender, who signed it. */
  lemma AcceptedIsLawful(prior: State, keys: Keys, pool: seq<Tx>, limit: nat, tx: Tx)
    requires tx in CollectTxs(prior, keys, pool, limit).valid
    ensures Sum(tx.xfers) == 0
    ensures forall x :: x in tx.xfers && x.amount < 0 ==> Authorised(tx, x, keys)
    ensures forall x, y :: x in tx.xfers && y in tx.xfers && x.amount < 0 && y.amount < 0 ==> x.addr == y.addr
  {
    CollectLawful(Start(prior), prior, keys, pool, limit, pool);
  }

  /** The same of transactions that are still valid when they are verified again. */
  lemma {:induction false} ReverifiedIsLawful(b: Books, prior: State, keys: Keys, txs: seq<Tx>)
    requires Reverify(TxClaims(keys), b, prior, txs).Some?
    ensures AllLawful(txs, keys)
    decreases |txs|
  {
    if txs != [] {
      SoundExactly(txs[0], keys);
      ReverifiedIsLawful(IsValidInAggregate(b, prior, TxClaim(txs[0], keys)).books, prior, keys, txs[1..]);
    }
  }

  /** A sender-first transaction that comes after others is accepted exactly if its amounts cancel
      out, its spend is authorised, and the two checks against the books and the prior state pass. */
  lemma AcceptedNextExactly(prior: State, keys: Keys, pool: seq<Tx>, tx: Tx)
    requires SenderFirst(tx.xfers)
    ensures var h, h' := CollectTxs(prior, keys, pool, |pool| + 1), CollectTxs(prior, keys, pool + [tx], |pool| + 2);
      var x := tx.xfers[0];
      if Sum(tx.xfers) == 0 && Authorised(tx, x, keys) && Passes(h.books, prior, tx.oper == Exchange, x)
      then h'.valid == h.valid + [tx] else h'.valid == h.valid
  {
    var h, x := Through(prior, keys, pool), tx.xfers[0];
    WholePass(prior, keys, pool);
    WholePass(prior, keys, pool + [tx]);
    ThroughSnoc(prior, keys, pool, tx);
    assert x in tx.xfers;
    SoundExactly(tx, keys);
    OnlyFirstSpends(tx, keys);
    PassesExactly(h.books, prior, tx.oper == Exchange, tx.xfers);
  }

  lemma OnlyFirstSpends(tx: Tx, keys: Keys)
    requires SenderFirst(tx.xfers)
    ensures Lawful(tx, keys) <==> Sum(tx.xfers) == 0 && Authorised(tx, tx.xfers[0], keys)
  {
    assert tx.xfers[0] in tx.xfers;
    forall y | y in tx.xfers && y.amount < 0 ensures y == tx.xfers[0] { var i :| 0 <= i < |tx.xfers| && tx.xfers[i] == y; }
  }
}
