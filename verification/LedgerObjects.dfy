/** The objects of the ledger, updated in place as the code updates them: ChainState, Summary,
    the loop of do_isValidInAggregate, and the pool's passes over its transactions. Each is
    proved to do what the functions of Summaries, Ledger and Assembly say.
 */
module LedgerObjects {
  import opened Words
  import opened Ordering
  import opened Permutations
  import opened Options
  import opened Summaries
  import opened Ledger
  import opened Assembly
  import Totals

  class ChainStateObject {
    var stateMap: State

    constructor ()
      ensures stateMap == map[]
    {
      stateMap := map[];
    }

    constructor Copy(other: State)
      ensures stateMap == other
    {
      stateMap := other;
    }

    method AddCoin(sc: SmartCoin) returns (noError: bool)
      modifies this
      ensures stateMap == Ledger.AddCoin(old(stateMap), sc) && noError
    {
      noError := true;
      if sc.addr in stateMap {
        var inner: map<Coin, int> := stateMap[sc.addr];
        var before := if sc.coin in inner then inner[sc.coin] else 0;
        stateMap := stateMap[sc.addr := inner[sc.coin := before + sc.amount]];
      } else {
        var inner: map<Coin, int> := map[sc.coin := sc.amount];
        stateMap := stateMap[sc.addr := inner];
      }
    }
  }

  class SummaryObject {
    var summary: Summary

    constructor ()
      ensures summary == map[]
    {
      summary := map[];
    }

    method AddItem(addr: Address, coin: Coin, item: DelayedItem) returns (added: bool)
      requires item.delta < WORD
      modifies this
      ensures summary == Summaries.AddItem(old(summary), addr, coin, item) && added
    {
      if addr in summary {
        var existing := summary[addr];
        if item.delay > 0 {
          var delayed := AddToDelayedMap(coin, item, existing.delayed);
          summary := summary[addr := Entry(delayed, existing.coins)];
        } else {
          var coins := AddToCoinMap(coin, item, existing.coins);
          summary := summary[addr := Entry(existing.delayed, coins)];
        }
      } else {
        var newDelayed: map<Coin, DelayedItem> := map[];
        var newMap: map<Coin, int> := map[];
        if item.delay > 0 {
          newDelayed := newDelayed[coin := item];
        } else {
          newMap := newMap[coin := Signed(item.delta)];
        }
        summary := summary[addr := Entry(newDelayed, newMap)];
      }
      return true;
    }

    /** The nested loops of isSane, over a running uint64. */
    method IsSane() returns (sane: bool)
      ensures sane <==> Assembly.IsSane(summary)
    {
      if summary == map[] { return false; }
      var coinTotal := AddEntries(summary, EntryTotals(summary));
      sane := coinTotal == 0;
    }

    /** getTransfers: every address in order, its delayed coins in order, then its others. */
    method GetTransfers() returns (out: seq<Transfer>)
      ensures out == ReadBack(summary)
    {
      BytesStrict();
      var addrs := InOrder(summary.Keys, BytesLess);
      out := TransfersIn(addrs, summary);
    }
  }

  method TransfersIn(addrs: seq<Address>, summary: Summary) returns (out: seq<Transfer>)
    requires forall a :: a in addrs ==> a in summary
    ensures out == TransfersAt(addrs, summary)
  {
    out := [];
    assert addrs[0..] == addrs;
    for i := 0 to |addrs|
      invariant out + TransfersAt(addrs[i..], summary) == TransfersAt(addrs, summary)
    {
      var here := TransfersOf(addrs[i], summary[addrs[i]]);
      NextAddress(addrs, i, summary, out);
      out := out + here;
    }
  }

  lemma NextAddress(addrs: seq<Address>, i: nat, s: Summary, out: seq<Transfer>)
    requires i < |addrs| && forall a :: a in addrs ==> a in s
    ensures out + TransfersAt(addrs[i..], s) == out + EntryTransfers(addrs[i], s[addrs[i]]) + TransfersAt(addrs[i + 1..], s)
  {
    assert addrs[i..][0] == addrs[i] && addrs[i..][1..] == addrs[i + 1..];
    Assoc(out, EntryTransfers(addrs[i], s[addrs[i]]), TransfersAt(addrs[i + 1..], s));
  }

  method TransfersOf(a: Address, e: Entry) returns (out: seq<Transfer>)
    ensures out == EntryTransfers(a, e)
  {
    var delayed := InOrder(e.delayed.Keys, NatLess);
    out := DelayedOf(a, delayed, e.delayed);
    var coins := InOrder(e.coins.Keys, NatLess);
    var rest := CoinsOf(a, coins, e.coins);
    out := out + rest;
  }

  method DelayedOf(a: Address, coins: seq<Coin>, m: map<Coin, DelayedItem>) returns (out: seq<Transfer>)
    requires forall c :: c in coins ==> c in m
    ensures out == DelayedTransfers(a, coins, m)
  {
    out := [];
    assert coins[0..] == coins;
    for i := 0 to |coins|
      invariant out + DelayedTransfers(a, coins[i..], m) == DelayedTransfers(a, coins, m)
    {
      var x := DelayedTransfer(a, coins[i], m[coins[i]]);
      assert coins[i..][1..] == coins[i + 1..];
      Assoc(out, [x], DelayedTransfers(a, coins[i + 1..], m));
      out := out + [x];
    }
  }

  method CoinsOf(a: Address, coins: seq<Coin>, m: map<Coin, int>) returns (out: seq<Transfer>)
    requires forall c :: c in coins ==> c in m
    ensures out == CoinTransfers(a, coins, m)
  {
    out := [];
    assert coins[0..] == coins;
    for i := 0 to |coins|
      invariant out + CoinTransfers(a, coins[i..], m) == CoinTransfers(a, coins, m)
    {
      var x := Transfer(a, coins[i], m[coins[i]], 0);
      assert coins[i..][1..] == coins[i + 1..];
      Assoc(out, [x], CoinTransfers(a, coins[i + 1..], m));
      out := out + [x];
    }
  }

  /** The keys of a map, as its iterator visits them. */
  method Walk<K(!new)>(keys: set<K>, less: (K, K) -> bool) returns (ks: seq<K>)
    requires StrictOrder(less)
    ensures NoRepeats(ks) && forall k :: k in ks <==> k in keys
  {
    AscendingDistinct(keys, less);
    ks := InOrder(keys, less);
  }

  /** The outer loop of isSane, whose turns add the given totals. */
  method AddEntries(summary: Summary, ghost totals: map<Address, int>) returns (total: nat)
    requires totals.Keys == summary.Keys && forall a :: a in summary ==> totals[a] == EntryTotal(summary[a])
    ensures total == Wrap(Totals.Total(totals))
  {
    BytesStrict();
    var addrs := Walk(summary.Keys, BytesLess);
    total := AddEntriesAt(addrs, summary, totals);
    Totals.SumIsTotal(addrs, totals);
  }

  method AddEntriesAt(addrs: seq<Address>, summary: Summary, ghost totals: map<Address, int>) returns (total: nat)
    requires forall a :: a in addrs ==> a in summary && a in totals && totals[a] == EntryTotal(summary[a])
    ensures total == Wrap(Totals.SumAt(addrs, totals))
  {
    total := 0;
    ghost var sum := 0;
    assert addrs[0..] == addrs;
    for i := 0 to |addrs|
      invariant total == Wrap(sum) && sum + Totals.SumAt(addrs[i..], totals) == Totals.SumAt(addrs, totals)
    {
      Totals.SumStep(addrs, i, totals);
      total := AddEntry(total, sum, summary[addrs[i]], totals[addrs[i]]);
      sum := sum + totals[addrs[i]];
    }
  }

  /** The two inner loops of isSane, for one address. */
  method AddEntry(start: nat, ghost sum: int, e: Entry, ghost amount: int) returns (total: nat)
    requires start == Wrap(sum) && amount == EntryTotal(e)
    ensures total == Wrap(sum + amount)
  {
    total := AddDelayed(start, sum, e.delayed);
    total := AddCoins(total, sum + DeltaTotal(e.delayed), e.coins);
  }

  method AddDelayed(start: nat, ghost before: int, m: map<Coin, DelayedItem>) returns (total: nat)
    requires start == Wrap(before)
    ensures total == Wrap(before + DeltaTotal(m))
  {
    var coins := Walk(m.Keys, NatLess);
    total := AddDelayedAt(start, before, coins, m, Deltas(m));
    Totals.SumIsTotal(coins, Deltas(m));
  }

  method AddDelayedAt(start: nat, ghost before: int, coins: seq<Coin>, m: map<Coin, DelayedItem>, ghost deltas: map<Coin, int>)
    returns (total: nat)
    requires start == Wrap(before)
    requires forall c :: c in coins ==> c in m && c in deltas && deltas[c] == m[c].delta
    ensures total == Wrap(before + Totals.SumAt(coins, deltas))
  {
    total := start;
    ghost var sum := before;
    assert coins[0..] == coins;
    for i := 0 to |coins|
      invariant total == Wrap(sum) && sum + Totals.SumAt(coins[i..], deltas) == before + Totals.SumAt(coins, deltas)
    {
      Totals.SumStep(coins, i, deltas);
      WrapAdd(sum, m[coins[i]].delta);
      total := Wrap(total + m[coins[i]].delta);
      sum := sum + m[coins[i]].delta;
    }
  }

  method AddCoins(start: nat, ghost before: int, m: map<Coin, int>) returns (total: nat)
    requires start == Wrap(before)
    ensures total == Wrap(before + Totals.Total(m))
  {
    var coins := Walk(m.Keys, NatLess);
    total := start;
    ghost var sum := before;
    assert coins[0..] == coins;
    for i := 0 to |coins|
      invariant total == Wrap(sum) && sum + Totals.SumAt(coins[i..], m) == before + Totals.SumAt(coins, m)
    {
      Totals.SumStep(coins, i, m);
      WrapAdd(sum, m[coins[i]]);
      total := Wrap(total + m[coins[i]]);
      sum := sum + m[coins[i]];
    }
    Totals.SumIsTotal(coins, m);
  }

  /** std::map<Address, SmartCoin>, shared by all the transactions of one pass. */
  class Aggregate {
    var coins: map<Address, SmartCoin>

    constructor ()
      ensures coins == map[]
    {
      coins := map[];
    }
  }

  /** The books that a pass keeps in its three objects. */
  ghost function BooksOf(state: ChainStateObject, summary: SummaryObject, aggregate: Aggregate): Books
    reads state, summary, aggregate
  {
    Books(state.stateMap, summary.summary, aggregate.coins)
  }

  /** The body of the loop of do_isValidInAggregate for one transfer. */
  method CheckAndPost(x: Transfer, guarded: bool, state: ChainStateObject, summary: SummaryObject,
                      aggregate: Aggregate, prior: State) returns (ok: bool)
    modifies state, summary, aggregate
    ensures var next := Admit(old(BooksOf(state, summary, aggregate)), prior, guarded, x);
      && ok == next.Some?
      && BooksOf(state, summary, aggregate) == if ok then next.value else old(BooksOf(state, summary, aggregate))
  {
    if x.amount < 0 {
      if guarded {
        var available := GetAmount(state.stateMap, x.coin, x.addr);
        if available.None? || x.amount > available.value { return false; }
      }
      if x.addr in aggregate.coins {
        var historic := GetAmount(prior, x.coin, x.addr);
        if historic.None? { return false; }
        var committed := aggregate.coins[x.addr].amount;
        if historic.value + committed + x.amount < 0 { return false; }
        aggregate.coins := aggregate.coins[x.addr := SmartCoin(x.addr, x.coin, x.amount + committed)];
      } else {
        aggregate.coins := aggregate.coins[x.addr := SmartCoin(x.addr, x.coin, x.amount)];
      }
    }
    var added := state.AddCoin(SmartCoin(x.addr, x.coin, x.amount));
    var summed := summary.AddItem(x.addr, x.coin, ItemOf(x));
    return true;
  }

  /** do_isValidInAggregate, of either tier: the objects end up as the function says, also on a
      rejection. */
  method CheckInAggregate(c: Claim, state: ChainStateObject, summary: SummaryObject,
                          aggregate: Aggregate, prior: State) returns (ok: bool)
    modifies state, summary, aggregate
    ensures var v := Ledger.IsValidInAggregate(old(BooksOf(state, summary, aggregate)), prior, c);
      ok == v.ok && BooksOf(state, summary, aggregate) == v.books
  {
    if !c.sound { return false; }
    ghost var goal := RunTransfers(BooksOf(state, summary, aggregate), prior, c.guarded, c.xfers);
    assert c.xfers[0..] == c.xfers;
    for i := 0 to |c.xfers|
      invariant Leads(BooksOf(state, summary, aggregate), prior, c.guarded, c.xfers[i..], goal)
    {
      ghost var before := BooksOf(state, summary, aggregate);
      var admitted := CheckAndPost(c.xfers[i], c.guarded, state, summary, aggregate, prior);
      LeadsOn(before, prior, c.guarded, c.xfers[i..], goal);
      assert c.xfers[i..][1..] == c.xfers[i + 1..];
      if !admitted { return false; }
    }
    return c.complete;
  }

  /** Running the remaining transfers from here ends where the whole run ends. */
  ghost predicate Leads(b: Books, prior: State, guarded: bool, rest: seq<Transfer>, goal: Verdict)
  {
    var v := RunTransfers(b, prior, guarded, rest);
    v.ok == goal.ok && v.books == goal.books
  }

  lemma LeadsOn(b: Books, prior: State, guarded: bool, rest: seq<Transfer>, goal: Verdict)
    requires rest != [] && Leads(b, prior, guarded, rest, goal)
    ensures var next := Admit(b, prior, guarded, rest[0]);
      if next.Some? then Leads(next.value, prior, guarded, rest[1..], goal) else !goal.ok && goal.books == b
  {
  }

  /** A pool entry: the reference count is a uint8_t. */
  datatype SharedTransaction = SharedTransaction(refs: nat, tx: Tx)

  function TxsOf(entries: seq<SharedTransaction>): seq<Tx>
  {
    seq(|entries|, i requires 0 <= i < |entries| => entries[i].tx)
  }

  class UnrecordedTransactionPool {
    /** txs_, in the order of their signatures. */
    var txs: seq<SharedTransaction>
    var limit: nat

    /** CollectValidTransactions: greedy, in signature order, up to max_tx_per_block. Accepted
        entries gain a reference; the transactions themselves stay in the pool. */
    method CollectValidTransactions(state: ChainStateObject, keys: Keys, summary: SummaryObject) returns (valid: seq<Tx>)
      requires summary.summary == map[]
      modifies this`txs, state, summary
      ensures var h := CollectTxs(old(state.stateMap), keys, TxsOf(old(txs)), limit);
        valid == h.valid && state.stateMap == h.books.state && summary.summary == h.books.summary
      ensures TxsOf(txs) == TxsOf(old(txs))
    {
      valid := [];
      var aggregate := new Aggregate();
      var prior := state.stateMap;
      ghost var all := TxsOf(txs);
      ghost var posted := [];
      var i := 0;
      assert all[0..] == all;
      while i < |txs|
        invariant 0 <= i <= |txs| && TxsOf(txs) == all
        invariant Collect(TxClaims(keys), Haul(BooksOf(state, summary, aggregate), valid, posted), prior, all[i..], limit)
               == CollectTxs(prior, keys, all, limit)
      {
        ghost var before := Haul(BooksOf(state, summary, aggregate), valid, posted);
        ghost var v := Ledger.IsValidInAggregate(before.books, prior, TxClaim(all[i], keys));
        assert all[i..][1..] == all[i + 1..];
        posted := posted + v.posted;
        var ok := CheckInAggregate(TxClaim(txs[i].tx, keys), state, summary, aggregate, prior);
        if ok {
          valid := valid + [txs[i].tx];
          txs := txs[i := txs[i].(refs := (txs[i].refs + 1) % 256)];
          assert TxsOf(txs) == all;
          if |valid| >= limit { break; }
        }
        i := i + 1;
      }
    }

    /** ReverifyTransactions: the proposal's transactions against a new prior state, on copies. */
    method ReverifyTransactions(proposed: seq<Tx>, prior: State, keys: Keys) returns (ok: bool)
      ensures ok <==> Reverify(TxClaims(keys), Start<Tx>(prior).books, prior, proposed).Some?
    {
      var summary := new SummaryObject();
      var aggregate := new Aggregate();
      var state := new ChainStateObject.Copy(prior);
      assert proposed[0..] == proposed;
      for i := 0 to |proposed|
        invariant Reverify(TxClaims(keys), BooksOf(state, summary, aggregate), prior, proposed[i..])
               == Reverify(TxClaims(keys), Start<Tx>(prior).books, prior, proposed)
      {
        assert proposed[i..][1..] == proposed[i + 1..];
        var valid := CheckInAggregate(TxClaim(proposed[i], keys), state, summary, aggregate, prior);
        if !valid { return false; }
      }
      return true;
    }
  }
}
