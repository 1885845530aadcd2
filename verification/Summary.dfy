/** The Summary of a block: for every address, the delayed and the immediate change of every
    coin. Deltas are 64-bit words that wrap; delays combine by maximum.

    `AddItem` follows the nested maps of the code. `Tally` is the independent reading: for
    one address, coin and kind, the sum modulo 2^64 and the largest delay over a list of
    transfers. Everything else is derived from the connection between the two.
 */
module Summaries {
  import opened Words
  import opened Permutations
  import opened Ordering
  import opened Options

  type Address = seq<byte>
  type Coin = nat

  datatype Transfer = Transfer(addr: Address, coin: Coin, amount: int, delay: nat)

  /** delay and delta are uint64. */
  datatype DelayedItem = DelayedItem(delay: nat, delta: nat)

  /** SummaryPair: the delayed map and the coin map of one address. Coin deltas are int64. */
  datatype Entry = Entry(delayed: map<Coin, DelayedItem>, coins: map<Coin, int>)

  type Summary = map<Address, Entry>

  const NO_ENTRY := Entry(map[], map[])

  // ---------------------------------------------------------------------------------
  // The code's updates
  // ---------------------------------------------------------------------------------

  function Max(a: nat, b: nat): nat
  {
    if a < b then b else a
  }

  function AddToDelayedMap(coin: Coin, item: DelayedItem, existing: map<Coin, DelayedItem>): map<Coin, DelayedItem>
  {
    if coin in existing then
      existing[coin := DelayedItem(Max(existing[coin].delay, item.delay), Wrap(existing[coin].delta + item.delta))]
    else
      existing[coin := item]
  }

  function AddToCoinMap(coin: Coin, item: DelayedItem, existing: map<Coin, int>): map<Coin, int>
    requires item.delta < WORD
  {
    if coin in existing then existing[coin := Signed(Wrap(Wrap(existing[coin]) + item.delta))]
    else existing[coin := Signed(item.delta)]
  }

  function EntryOf(s: Summary, addr: Address): Entry
  {
    if addr in s then s[addr] else NO_ENTRY
  }

  function AddItem(s: Summary, addr: Address, coin: Coin, item: DelayedItem): Summary
    requires item.delta < WORD
  {
    var e := EntryOf(s, addr);
    s[addr := if item.delay > 0 then e.(delayed := AddToDelayedMap(coin, item, e.delayed))
              else e.(coins := AddToCoinMap(coin, item, e.coins))]
  }

  function ItemOf(x: Transfer): (r: DelayedItem)
    ensures r.delta < WORD
  {
    DelayedItem(x.delay, Wrap(x.amount))
  }

  function AddTransfer(s: Summary, x: Transfer): Summary
  {
    AddItem(s, x.addr, x.coin, ItemOf(x))
  }

  function AddAll(s: Summary, xs: seq<Transfer>): Summary
    decreases |xs|
  {
    if xs == [] then s else AddAll(AddTransfer(s, xs[0]), xs[1..])
  }

  // ---------------------------------------------------------------------------------
  // The meaning of a summary
  // ---------------------------------------------------------------------------------

  /** One cell of a summary: an address, a coin, and whether the change is delayed. */
  datatype Cell = Cell(addr: Address, coin: Coin, delayed: bool)

  function CellOf(x: Transfer): Cell
  {
    Cell(x.addr, x.coin, x.delay > 0)
  }

  /** What a summary records in a cell, immediate deltas as the same 64-bit patterns. */
  function Look(s: Summary, k: Cell): Option<DelayedItem>
  {
    var e := EntryOf(s, k.addr);
    if k.delayed then
      if k.coin in e.delayed then Some(e.delayed[k.coin]) else None
    else
      if k.coin in e.coins then Some(DelayedItem(0, Wrap(e.coins[k.coin]))) else None
  }

  function Join(a: Option<DelayedItem>, b: Option<DelayedItem>): Option<DelayedItem>
  {
    if a.None? then b
    else if b.None? then a
    else Some(DelayedItem(Max(a.value.delay, b.value.delay), Wrap(a.value.delta + b.value.delta)))
  }

  predicate Hits(x: Transfer, k: Cell)
  {
    CellOf(x) == k
  }

  /** The transfers of a list that fall into a cell... */
  function Within(xs: seq<Transfer>, k: Cell): seq<Transfer>
  {
    if xs == [] then [] else (if Hits(xs[0], k) then [xs[0]] else []) + Within(xs[1..], k)
  }

  function Sum(xs: seq<Transfer>): int
  {
    if xs == [] then 0 else xs[0].amount + Sum(xs[1..])
  }

  function Longest(xs: seq<Transfer>): nat
  {
    if xs == [] then 0 else Max(xs[0].delay, Longest(xs[1..]))
  }

  /** ... and what they amount to: nothing, or the wrapped sum with the longest delay. */
  function Tally(xs: seq<Transfer>, k: Cell): Option<DelayedItem>
  {
    var ys := Within(xs, k);
    if ys == [] then None else Some(DelayedItem(Longest(ys), Wrap(Sum(ys))))
  }

  lemma AddTransferLook(s: Summary, x: Transfer, k: Cell)
    ensures Look(AddTransfer(s, x), k) == Join(Look(s, k), if Hits(x, k) then Some(ItemOf(x)) else None)
  {
  }

  lemma JoinAssociates(a: Option<DelayedItem>, b: Option<DelayedItem>, c: Option<DelayedItem>)
    ensures Join(Join(a, b), c) == Join(a, Join(b, c))
  {
    if a.Some? && b.Some? && c.Some? {
      WrapAssociates(a.value.delta, b.value.delta, c.value.delta);
    }
  }

  lemma WrapAssociates(a: int, b: int, c: int)
    ensures Wrap(Wrap(a + b) + c) == Wrap(a + Wrap(b + c))
  {
    WrapAdd(a + b, c);
    WrapAdd(a, b + c);
  }

  /** A list splits into its first transfer and the rest. */
  lemma TallyCons(xs: seq<Transfer>, k: Cell)
    requires xs != []
    ensures Tally(xs, k) == Join(if Hits(xs[0], k) then Some(ItemOf(xs[0])) else None, Tally(xs[1..], k))
  {
    var ys := Within(xs[1..], k);
    if Hits(xs[0], k) {
      assert Within(xs, k)[1..] == ys;
      assert Sum(Within(xs, k)) == xs[0].amount + Sum(ys);
      assert Longest(Within(xs, k)) == Max(xs[0].delay, Longest(ys));
      WrapAdd(xs[0].amount, Sum(ys));
      WrapAdd(Wrap(xs[0].amount), Sum(ys));
    } else {
      assert Within(xs, k) == ys;
    }
  }

  /** Summarising a list adds its tally to every cell. */
  lemma {:induction false} AddAllLook(s: Summary, xs: seq<Transfer>, k: Cell)
    ensures Look(AddAll(s, xs), k) == Join(Look(s, k), Tally(xs, k))
    decreases |xs|
  {
    if xs != [] {
      var one := if Hits(xs[0], k) then Some(ItemOf(xs[0])) else None;
      AddAllLook(AddTransfer(s, xs[0]), xs[1..], k);
      AddTransferLook(s, xs[0], k);
      JoinAssociates(Look(s, k), one, Tally(xs[1..], k));
      TallyCons(xs, k);
    }
  }

  // ---------------------------------------------------------------------------------
  // Summaries are determined by their cells
  // ---------------------------------------------------------------------------------

  /** No empty entries, and deltas and delays in the ranges the code stores. */
  ghost predicate Normal(s: Summary)
  {
    forall a :: a in s ==> NormalEntry(s[a])
  }

  ghost predicate NormalEntry(e: Entry)
  {
    && (e.delayed != map[] || e.coins != map[])
    && (forall c :: c in e.delayed ==> e.delayed[c].delay > 0 && e.delayed[c].delta < WORD)
    && (forall c :: c in e.coins ==> -HALF <= e.coins[c] < HALF)
  }

  lemma {:induction false} AddAllNormal(s: Summary, xs: seq<Transfer>)
    requires Normal(s)
    ensures Normal(AddAll(s, xs))
    decreases |xs|
  {
    if xs != [] {
      AddTransferNormal(s, xs[0]);
      AddAllNormal(AddTransfer(s, xs[0]), xs[1..]);
    }
  }

  lemma AddTransferNormal(s: Summary, x: Transfer)
    requires Normal(s)
    ensures Normal(AddTransfer(s, x))
  {
    var e := AddTransfer(s, x)[x.addr];
    assert if x.delay > 0 then x.coin in e.delayed else x.coin in e.coins;
  }

  ghost predicate SameCells(s: Summary, t: Summary)
  {
    forall k :: Look(s, k) == Look(t, k)
  }

  lemma SameEntry(s: Summary, t: Summary, a: Address)
    requires Normal(s) && Normal(t) && SameCells(s, t) && a in s
    ensures a in t && s[a] == t[a]
  {
    var e, f := s[a], EntryOf(t, a);
    forall c ensures c in e.delayed <==> c in f.delayed
             ensures c in e.delayed ==> e.delayed[c] == f.delayed[c]
    {
      assert Look(s, Cell(a, c, true)) == Look(t, Cell(a, c, true));
    }
    forall c ensures c in e.coins <==> c in f.coins
             ensures c in e.coins ==> Wrap(e.coins[c]) == Wrap(f.coins[c])
    {
      assert Look(s, Cell(a, c, false)) == Look(t, Cell(a, c, false));
    }
    assert NormalEntry(e);
    assert e.delayed == f.delayed;
    assert e.coins.Keys == f.coins.Keys;
    assert a in t && NormalEntry(f);
    assert e.coins == f.coins;
  }

  lemma CellsDetermine(s: Summary, t: Summary)
    requires Normal(s) && Normal(t) && SameCells(s, t)
    ensures s == t
  {
    forall a | a in s ensures a in t && s[a] == t[a] { SameEntry(s, t, a); }
    forall a | a in t ensures a in s { SameEntry(t, s, a); }
  }

  // ---------------------------------------------------------------------------------
  // Order does not matter
  // ---------------------------------------------------------------------------------

  lemma {:induction false} TallyConcat(xs: seq<Transfer>, ys: seq<Transfer>, k: Cell)
    ensures Tally(xs + ys, k) == Join(Tally(xs, k), Tally(ys, k))
  {
    if xs == [] {
      assert xs + ys == ys;
    } else {
      assert (xs + ys)[1..] == xs[1..] + ys;
      TallyConcat(xs[1..], ys, k);
      TallyCons(xs + ys, k);
      TallyCons(xs, k);
      JoinAssociates(if Hits(xs[0], k) then Some(ItemOf(xs[0])) else None, Tally(xs[1..], k), Tally(ys, k));
    }
  }

  lemma JoinCommutes(a: Option<DelayedItem>, b: Option<DelayedItem>)
    ensures Join(a, b) == Join(b, a)
  {
  }

  lemma TallyPull(ys: seq<Transfer>, i: nat, k: Cell)
    requires i < |ys|
    ensures Tally(ys, k) == Join(Tally([ys[i]], k), Tally(ys[..i] + ys[i + 1..], k))
  {
    var before, one, after := ys[..i], [ys[i]], ys[i + 1..];
    assert ys == before + (one + after);
    TallyConcat(before, one + after, k);
    TallyConcat(one, after, k);
    TallyConcat(before, after, k);
    JoinAssociates(Tally(before, k), Tally(one, k), Tally(after, k));
    JoinCommutes(Tally(before, k), Tally(one, k));
    JoinAssociates(Tally(one, k), Tally(before, k), Tally(after, k));
  }

  lemma {:induction false} TallyPermuted(xs: seq<Transfer>, ys: seq<Transfer>, k: Cell)
    requires multiset(xs) == multiset(ys)
    ensures Tally(xs, k) == Tally(ys, k)
  {
    if xs == [] {
      assert |multiset(ys)| == 0;
    } else {
      var i := PullOut(xs, ys);
      TallyPermuted(xs[1..], ys[..i] + ys[i + 1..], k);
      TallyPull(ys, i, k);
      TallyHead(xs, k);
    }
  }

  lemma TallyHead(xs: seq<Transfer>, k: Cell)
    requires xs != []
    ensures Tally(xs, k) == Join(Tally([xs[0]], k), Tally(xs[1..], k))
  {
    TallyPull(xs, 0, k);
    assert xs[..0] + xs[1..] == xs[1..];
  }

  /** The summary does not depend on the order of the transfers. */
  lemma SummaryPermuted(s: Summary, xs: seq<Transfer>, ys: seq<Transfer>)
    requires Normal(s) && multiset(xs) == multiset(ys)
    ensures AddAll(s, xs) == AddAll(s, ys)
  {
    forall k ensures Look(AddAll(s, xs), k) == Look(AddAll(s, ys), k) {
      AddAllLook(s, xs, k);
      AddAllLook(s, ys, k);
      TallyPermuted(xs, ys, k);
    }
    AddAllNormal(s, xs);
    AddAllNormal(s, ys);
    CellsDetermine(AddAll(s, xs), AddAll(s, ys));
  }

  // ---------------------------------------------------------------------------------
  // Reading the transfers back
  // ---------------------------------------------------------------------------------

  /** The delta of a delayed item becomes an int64 again. */
  function DelayedTransfer(a: Address, c: Coin, item: DelayedItem): Transfer
  {
    Transfer(a, c, Signed(Wrap(item.delta)), item.delay)
  }

  function DelayedTransfers(a: Address, coins: seq<Coin>, m: map<Coin, DelayedItem>): seq<Transfer>
    requires forall c :: c in coins ==> c in m
  {
    if coins == [] then [] else [DelayedTransfer(a, coins[0], m[coins[0]])] + DelayedTransfers(a, coins[1..], m)
  }

  function CoinTransfers(a: Address, coins: seq<Coin>, m: map<Coin, int>): seq<Transfer>
    requires forall c :: c in coins ==> c in m
  {
    if coins == [] then []
    else [Transfer(a, coins[0], m[coins[0]], 0)] + CoinTransfers(a, coins[1..], m)
  }

  ghost function EntryTransfers(a: Address, e: Entry): seq<Transfer>
  {
    DelayedTransfers(a, Ascending(e.delayed.Keys, NatLess), e.delayed)
    + CoinTransfers(a, Ascending(e.coins.Keys, NatLess), e.coins)
  }

  ghost function TransfersAt(addrs: seq<Address>, s: Summary): seq<Transfer>
    requires forall a :: a in addrs ==> a in s
  {
    if addrs == [] then [] else EntryTransfers(addrs[0], s[addrs[0]]) + TransfersAt(addrs[1..], s)
  }

  /** Summary::getTransfers. */
  ghost function ReadBack(s: Summary): seq<Transfer>
  {
    BytesStrict();
    TransfersAt(Ascending(s.Keys, BytesLess), s)
  }

  /** What a parsed summary can hold: deltas are words, immediate ones read as int64. An entry may be
      empty, and a delayed item may have delay 0. */
  ghost predicate InRange(s: Summary)
  {
    forall a :: a in s ==> EntryInRange(s[a])
  }

  ghost predicate EntryInRange(e: Entry)
  {
    && (forall c :: c in e.delayed ==> e.delayed[c].delta < WORD)
    && (forall c :: c in e.coins ==> -HALF <= e.coins[c] < HALF)
  }

  /** What the transfers of an entry amount to in a cell: a delayed item of delay 0 is read back as
      an immediate transfer, which joins the immediate one. */
  function LookBack(e: Entry, k: Cell): Option<DelayedItem>
  {
    var late := if k.coin in e.delayed then Some(e.delayed[k.coin]) else None;
    var now := if k.coin in e.coins then Some(DelayedItem(0, Wrap(e.coins[k.coin]))) else None;
    if k.delayed then (if late.Some? && late.value.delay > 0 then late else None)
    else Join(if late.Some? && late.value.delay == 0 then late else None, now)
  }

  lemma {:induction false} TallyDelayed(a: Address, coins: seq<Coin>, m: map<Coin, DelayedItem>, k: Cell)
    requires forall c :: c in coins ==> c in m && m[c].delta < WORD
    requires forall i, j :: 0 <= i < j < |coins| ==> coins[i] != coins[j]
    ensures Tally(DelayedTransfers(a, coins, m), k)
         == if k.addr == a && k.coin in coins && (k.delayed <==> m[k.coin].delay > 0) then Some(m[k.coin]) else None
  {
    if coins != [] {
      var xs := DelayedTransfers(a, coins, m);
      TallyDelayed(a, coins[1..], m, k);
      assert xs[1..] == DelayedTransfers(a, coins[1..], m);
      TallyCons(xs, k);
      assert ItemOf(xs[0]) == m[coins[0]];
      assert coins[0] !in coins[1..];
    }
  }

  lemma {:induction false} TallyCoins(a: Address, coins: seq<Coin>, m: map<Coin, int>, k: Cell)
    requires forall c :: c in coins ==> c in m
    requires forall i, j :: 0 <= i < j < |coins| ==> coins[i] != coins[j]
    ensures Tally(CoinTransfers(a, coins, m), k)
         == if k.addr == a && !k.delayed && k.coin in coins then Some(DelayedItem(0, Wrap(m[k.coin]))) else None
  {
    if coins != [] {
      var xs := CoinTransfers(a, coins, m);
      TallyCoins(a, coins[1..], m, k);
      assert xs[1..] == CoinTransfers(a, coins[1..], m);
      TallyCons(xs, k);
      assert coins[0] !in coins[1..];
    }
  }

  lemma TallyEntry(a: Address, e: Entry, k: Cell)
    requires EntryInRange(e)
    ensures Tally(EntryTransfers(a, e), k) == if k.addr == a then LookBack(e, k) else None
  {
    var ds, cs := Ascending(e.delayed.Keys, NatLess), Ascending(e.coins.Keys, NatLess);
    AscendingDistinct(e.delayed.Keys, NatLess);
    AscendingDistinct(e.coins.Keys, NatLess);
    TallyDelayed(a, ds, e.delayed, k);
    TallyCoins(a, cs, e.coins, k);
    TallyConcat(DelayedTransfers(a, ds, e.delayed), CoinTransfers(a, cs, e.coins), k);
  }

  lemma {:induction false} TallyAt(addrs: seq<Address>, s: Summary, k: Cell)
    requires InRange(s) && forall a :: a in addrs ==> a in s
    requires forall i, j :: 0 <= i < j < |addrs| ==> addrs[i] != addrs[j]
    ensures Tally(TransfersAt(addrs, s), k) == if k.addr in addrs then LookBack(s[k.addr], k) else None
  {
    if addrs != [] {
      TallyAt(addrs[1..], s, k);
      TallyEntry(addrs[0], s[addrs[0]], k);
      TallyConcat(EntryTransfers(addrs[0], s[addrs[0]]), TransfersAt(addrs[1..], s), k);
      assert addrs[0] !in addrs[1..];
    }
  }

  /** What the transfers read back from any summary tally to, cell by cell. */
  lemma TallyReadBack(s: Summary, k: Cell)
    requires InRange(s)
    ensures Tally(ReadBack(s), k) == LookBack(EntryOf(s, k.addr), k)
    ensures Normal(s) ==> Tally(ReadBack(s), k) == Look(s, k)
  {
    BytesStrict();
    AscendingDistinct(s.Keys, BytesLess);
    TallyAt(Ascending(s.Keys, BytesLess), s, k);
  }

  /** Summarising what was read back gives the summary again exactly if it has no empty entry and
      no delayed item of delay 0, as every summary that was built from transfers. */
  lemma ReadBackRoundTrip(s: Summary)
    requires InRange(s)
    ensures AddAll(map[], ReadBack(s)) == s <==> Normal(s)
  {
    AddAllNormal(map[], ReadBack(s));
    if Normal(s) {
      NormalRoundTrip(s);
    }
  }

  lemma NormalRoundTrip(s: Summary)
    requires Normal(s)
    ensures AddAll(map[], ReadBack(s)) == s
  {
    forall k ensures Look(AddAll(map[], ReadBack(s)), k) == Look(s, k) {
      AddAllLook(map[], ReadBack(s), k);
      TallyReadBack(s, k);
    }
    AddAllNormal(map[], ReadBack(s));
    CellsDetermine(AddAll(map[], ReadBack(s)), s);
  }

  /** Two-tier summarisation: adding the transfers themselves, or summarising them first and
      adding what the summary reads back, is the same. */
  lemma SummariseTwice(s: Summary, xs: seq<Transfer>)
    requires Normal(s)
    ensures Normal(AddAll(map[], xs)) && AddAll(s, ReadBack(AddAll(map[], xs))) == AddAll(s, xs)
  {
    AddAllNormal(map[], xs);
    var ys := ReadBack(AddAll(map[], xs));
    forall k ensures Look(AddAll(s, ys), k) == Look(AddAll(s, xs), k) {
      AddAllLook(s, ys, k);
      AddAllLook(s, xs, k);
      TallyReadBack(AddAll(map[], xs), k);
      AddAllLook(map[], xs, k);
    }
    AddAllNormal(s, ys);
    AddAllNormal(s, xs);
    CellsDetermine(AddAll(s, ys), AddAll(s, xs));
  }

  lemma {:induction false} AddAllConcat(s: Summary, xs: seq<Transfer>, ys: seq<Transfer>)
    ensures AddAll(s, xs + ys) == AddAll(AddAll(s, xs), ys)
    decreases |xs|
  {
    if xs == [] {
      assert xs + ys == ys;
    } else {
      assert (xs + ys)[1..] == xs[1..] + ys;
      AddAllConcat(AddTransfer(s, xs[0]), xs[1..], ys);
    }
  }

  function Flatten(blocks: seq<seq<Transfer>>): seq<Transfer>
  {
    if blocks == [] then [] else blocks[0] + Flatten(blocks[1..])
  }

  /** The summary a Tier 1 shard builds when it adds one summary per Tier 2 block. */
  ghost function AddBlockSummaries(s: Summary, blocks: seq<seq<Transfer>>): Summary
    decreases |blocks|
  {
    if blocks == [] then s
    else AddBlockSummaries(AddAll(s, ReadBack(AddAll(map[], blocks[0]))), blocks[1..])
  }

  /** A chain of blocks summarised block by block carries exactly what all the transfers of
      all the blocks amount to, in whatever order they are taken. */
  lemma {:induction false} ChainOfSummaries(s: Summary, blocks: seq<seq<Transfer>>, all: seq<Transfer>)
    requires Normal(s) && multiset(all) == multiset(Flatten(blocks))
    ensures AddBlockSummaries(s, blocks) == AddAll(s, all)
    decreases |blocks|
  {
    SummaryPermuted(s, all, Flatten(blocks));
    if blocks != [] {
      SummariseTwice(s, blocks[0]);
      AddAllNormal(s, blocks[0]);
      AddAllConcat(s, blocks[0], Flatten(blocks[1..]));
      ChainOfSummaries(AddAll(s, blocks[0]), blocks[1..], Flatten(blocks[1..]));
    }
  }
}
