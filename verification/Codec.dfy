/** The canonical bytes of summaries, validations and final blocks, and the parsers that read
    them back. Parsers are given as functions of the whole buffer and an offset, which the
    methods of BlockObjects follow loop by loop; every parser is the left inverse of its encoder
    at any offset and whatever follows.
 */
module Codec {
  import opened Words
  import opened Permutations
  import opened Ordering
  import opened Bytes
  import opened Buffers
  import opened Summaries

  // ---------------------------------------------------------------------------------
  // Maps written key by key
  // ---------------------------------------------------------------------------------

  /** std::map::insert keeps the value that is already there. */
  function Insert<K, V>(m: map<K, V>, k: K, v: V): map<K, V>
  {
    if k in m then m else m[k := v]
  }

  predicate KeysOf<K, V>(ks: seq<K>, m: map<K, V>)
  {
    forall k :: k in ks ==> k in m
  }

  /** The entries of m for the keys ks, inserted in that order. */
  function InsertAll<K, V>(acc: map<K, V>, ks: seq<K>, m: map<K, V>): map<K, V>
    requires KeysOf(ks, m)
    decreases |ks|
  {
    if ks == [] then acc else InsertAll(Insert(acc, ks[0], m[ks[0]]), ks[1..], m)
  }

  /** Inserting the entries of m for all its keys, onto nothing, gives m. */
  lemma {:induction false} InsertAllKeys<K, V>(acc: map<K, V>, ks: seq<K>, m: map<K, V>)
    requires KeysOf(ks, m) && forall k :: k in acc ==> k in m && acc[k] == m[k]
    requires forall k :: k in m ==> k in acc || k in ks
    ensures InsertAll(acc, ks, m) == m
    decreases |ks|
  {
    if ks != [] {
      InsertAllKeys(Insert(acc, ks[0], m[ks[0]]), ks[1..], m);
    }
  }

  /** ks lists the keys of m, each once, in an order in which m can be built. */
  ghost predicate Lists<K, V>(ks: seq<K>, m: map<K, V>)
  {
    KeysOf(ks, m) && |ks| == |m| && InsertAll(map[], ks, m) == m
  }

  lemma AscendingLists<K(!new), V>(m: map<K, V>, less: (K, K) -> bool)
    requires StrictOrder(less)
    ensures Lists(Ascending(m.Keys, less), m)
  {
    AscendingDistinct(m.Keys, less);
    InsertAllKeys(map[], Ascending(m.Keys, less), m);
    assert |m.Keys| == |m|;
  }

  /** The iteration order of a map keyed by coins, or by addresses. */
  ghost function CoinOrder<V>(m: map<Coin, V>): (ks: seq<Coin>)
    ensures Lists(ks, m)
  {
    AscendingLists(m, NatLess);
    Ascending(m.Keys, NatLess)
  }

  ghost function AddressOrder<V>(m: map<Address, V>): (ks: seq<Address>)
    ensures Lists(ks, m)
  {
    BytesStrict();
    AscendingLists(m, BytesLess);
    Ascending(m.Keys, BytesLess)
  }

  /** Every entry encoded, in the order of ks. */
  ghost function Codes<K(!new), V(!new)>(encode: (K, V) -> seq<byte>, ks: seq<K>, m: map<K, V>): (r: seq<seq<byte>>)
    requires KeysOf(ks, m)
    ensures |r| == |ks| && forall i :: 0 <= i < |ks| ==> r[i] == encode(ks[i], m[ks[i]])
  {
    seq(|ks|, i requires 0 <= i < |ks| => encode(ks[i], m[ks[i]]))
  }

  /** n entries read one after the other and inserted. */
  function ReadMany<K, V>(read: (seq<byte>, nat) -> Result<(K, V)>, d: seq<byte>, o: nat, n: nat, acc: map<K, V>)
    : Result<map<K, V>>
    decreases n
  {
    if n == 0 then Ok(acc, o)
    else
      var one := read(d, o);
      if !one.Ok? then Failed else ReadMany(read, d, one.next, n - 1, Insert(acc, one.value.0, one.value.1))
  }

  /** Wherever the code stands, x is read from it and nothing else is consumed. */
  ghost predicate DecodesTo<T(!new)>(read: (seq<byte>, nat) -> Result<T>, code: seq<byte>, x: T)
  {
    forall d, o: nat {:trigger Has(d, o, code)} :: Has(d, o, code) ==> read(d, o) == Ok(x, o + |code|)
  }

  lemma {:induction false} ReadManyCodes<K(!new), V(!new)>(
    read: (seq<byte>, nat) -> Result<(K, V)>, d: seq<byte>, o: nat,
    codes: seq<seq<byte>>, ks: seq<K>, m: map<K, V>, acc: map<K, V>)
    requires KeysOf(ks, m) && |codes| == |ks| && Has(d, o, Chain(codes))
    requires forall i :: 0 <= i < |ks| ==> DecodesTo(read, codes[i], (ks[i], m[ks[i]]))
    ensures ReadMany(read, d, o, |ks|, acc) == Ok(InsertAll(acc, ks, m), o + |Chain(codes)|)
    decreases |ks|
  {
    if ks != [] {
      HasSplit(d, o, codes[0], Chain(codes[1..]));
      assert DecodesTo(read, codes[0], (ks[0], m[ks[0]]));
      ReadManyCodes(read, d, o + |codes[0]|, codes[1..], ks[1..], m, Insert(acc, ks[0], m[ks[0]]));
    }
  }

  /** Wherever the code stands, the |m| entries of m are read from it. */
  ghost predicate MapDecodes<K(!new), V(!new)>(read: (seq<byte>, nat) -> Result<(K, V)>, code: seq<byte>, m: map<K, V>)
  {
    forall d, o: nat {:trigger Has(d, o, code)} :: Has(d, o, code) ==>
      ReadMany(read, d, o, |m|, map[]) == Ok(m, o + |code|)
  }

  /** Of two entries with the same key, the one that is read first stays. */
  lemma {:induction false} FirstStays<K, V>(read: (seq<byte>, nat) -> Result<(K, V)>, d: seq<byte>, o: nat, n: nat,
      acc: map<K, V>)
    requires ReadMany(read, d, o, n, acc).Ok?
    ensures var r := ReadMany(read, d, o, n, acc).value;
      && (forall k :: k in acc ==> k in r && r[k] == acc[k])
      && (n > 0 ==>
            var one := read(d, o);
            one.Ok? && one.value.0 in r && (one.value.0 !in acc ==> r[one.value.0] == one.value.1))
    decreases n
  {
    if n > 0 {
      var one := read(d, o);
      FirstStays(read, d, one.next, n - 1, Insert(acc, one.value.0, one.value.1));
    }
  }

  /** If every entry can be read back, so can the whole map. */
  lemma ReadMap<K(!new), V(!new)>(
    read: (seq<byte>, nat) -> Result<(K, V)>, encode: (K, V) -> seq<byte>, ks: seq<K>, m: map<K, V>)
    requires Lists(ks, m)
    requires forall k :: k in m ==> DecodesTo(read, encode(k, m[k]), (k, m[k]))
    ensures MapDecodes(read, Chain(Codes(encode, ks, m)), m)
  {
    var codes := Codes(encode, ks, m);
    forall d, o: nat | Has(d, o, Chain(codes))
      ensures ReadMany(read, d, o, |m|, map[]) == Ok(m, o + |Chain(codes)|)
    {
      ReadManyCodes(read, d, o, codes, ks, m, map[]);
    }
  }

  // ---------------------------------------------------------------------------------
  // Summaries
  // ---------------------------------------------------------------------------------

  function DelayedBytes(c: Coin, item: DelayedItem): seq<byte>
  {
    LeBytes(c, U64) + (LeBytes(item.delay, U64) + LeBytes(item.delta, U64))
  }

  function CoinBytes(c: Coin, delta: int): seq<byte>
  {
    LeBytes(c, U64) + LeBytes(Wrap(delta), U64)
  }

  ghost function EntryBytes(a: Address, e: Entry): seq<byte>
  {
    a + (LeBytes(|e.delayed|, U64) + (LeBytes(|e.coins|, U64)
         + (Chain(Codes(DelayedBytes, CoinOrder(e.delayed), e.delayed))
            + Chain(Codes(CoinBytes, CoinOrder(e.coins), e.coins)))))
  }

  /** Summary::getCanonical. */
  ghost function SummaryBytes(s: Summary): seq<byte>
  {
    LeBytes(|s|, U32) + Chain(Codes(EntryBytes, AddressOrder(s), s))
  }

  /** What a Summary object can hold, with fewer than 2^32 addresses. */
  ghost predicate Storable(s: Summary)
  {
    && |s| < 0x1_0000_0000
    && (forall a :: a in s ==> IsAddress(a) && StorableEntry(s[a]))
  }

  ghost predicate StorableEntry(e: Entry)
  {
    && |e.delayed| < WORD && |e.coins| < WORD
    && (forall c :: c in e.delayed ==> c < WORD && e.delayed[c].delay < WORD && e.delayed[c].delta < WORD)
    && (forall c :: c in e.coins ==> c < WORD && -HALF <= e.coins[c] < HALF)
  }

  function ReadDelayed(d: seq<byte>, o: nat): Result<(Coin, DelayedItem)>
  {
    if o + 3 * U64 > |d| then Failed
    else
      var item := DelayedItem(LeValue(d[o + U64..o + 2 * U64]), LeValue(d[o + 2 * U64..o + 3 * U64]));
      Ok((LeValue(d[o..o + U64]), item), o + 3 * U64)
  }

  function ReadCoin(d: seq<byte>, o: nat): Result<(Coin, int)>
  {
    if o + 2 * U64 > |d| then Failed
    else
      LeWord(d[o + U64..o + 2 * U64]);
      Ok((LeValue(d[o..o + U64]), Signed(LeValue(d[o + U64..o + 2 * U64]))), o + 2 * U64)
  }

  /** The two maps of one address, once their sizes are known. */
  function ReadMaps(d: seq<byte>, o: nat, delayedCount: nat, coinCount: nat): Result<Entry>
  {
    var delayed := ReadMany(ReadDelayed, d, o, delayedCount, map[]);
    if !delayed.Ok? then Failed
    else
      var coins := ReadMany(ReadCoin, d, delayed.next, coinCount, map[]);
      if !coins.Ok? then Failed else Ok(Entry(delayed.value, coins.value), coins.next)
  }

  function ReadEntry(d: seq<byte>, o: nat): Result<(Address, Entry)>
  {
    var a := ReadAddress(d, o);
    if !a.Ok? then Failed
    else if a.next + 2 * U64 > |d| then Failed
    else
      var e := ReadMaps(d, a.next + 2 * U64, LeValue(d[a.next..a.next + U64]), LeValue(d[a.next + U64..a.next + 2 * U64]));
      if !e.Ok? then Failed else Ok((a.value, e.value), e.next)
  }

  /** Summary::Create(buffer). */
  function ReadSummary(d: seq<byte>, o: nat): Result<Summary>
  {
    if |d| < U32 + o then Failed
    else ReadMany(ReadEntry, d, o + U32, LeValue(d[o..o + U32]), map[])
  }

  lemma DelayedDecodes(c: Coin, item: DelayedItem)
    requires c < WORD && item.delay < WORD && item.delta < WORD
    ensures DecodesTo(ReadDelayed, DelayedBytes(c, item), (c, item))
  {
    forall d, o: nat | Has(d, o, DelayedBytes(c, item))
      ensures ReadDelayed(d, o) == Ok((c, item), o + |DelayedBytes(c, item)|)
    {
      Powers();
      HasSplit(d, o, LeBytes(c, U64), LeBytes(item.delay, U64) + LeBytes(item.delta, U64));
      HasSplit(d, o + U64, LeBytes(item.delay, U64), LeBytes(item.delta, U64));
      LeRoundTrip(c, U64);
      LeRoundTrip(item.delay, U64);
      LeRoundTrip(item.delta, U64);
    }
  }

  lemma CoinDecodes(c: Coin, delta: int)
    requires c < WORD && -HALF <= delta < HALF
    ensures DecodesTo(ReadCoin, CoinBytes(c, delta), (c, delta))
  {
    forall d, o: nat | Has(d, o, CoinBytes(c, delta))
      ensures ReadCoin(d, o) == Ok((c, delta), o + |CoinBytes(c, delta)|)
    {
      Powers();
      HasSplit(d, o, LeBytes(c, U64), LeBytes(Wrap(delta), U64));
      LeRoundTrip(c, U64);
      LeRoundTrip(Wrap(delta), U64);
    }
  }

  lemma DelayedMapDecodes(m: map<Coin, DelayedItem>)
    requires forall c :: c in m ==> c < WORD && m[c].delay < WORD && m[c].delta < WORD
    ensures MapDecodes(ReadDelayed, Chain(Codes(DelayedBytes, CoinOrder(m), m)), m)
  {
    forall c | c in m
      ensures DecodesTo(ReadDelayed, DelayedBytes(c, m[c]), (c, m[c]))
    {
      DelayedDecodes(c, m[c]);
    }
    ReadMap(ReadDelayed, DelayedBytes, CoinOrder(m), m);
  }

  lemma CoinMapDecodes(m: map<Coin, int>)
    requires forall c :: c in m ==> c < WORD && -HALF <= m[c] < HALF
    ensures MapDecodes(ReadCoin, Chain(Codes(CoinBytes, CoinOrder(m), m)), m)
  {
    forall c | c in m
      ensures DecodesTo(ReadCoin, CoinBytes(c, m[c]), (c, m[c]))
    {
      CoinDecodes(c, m[c]);
    }
    ReadMap(ReadCoin, CoinBytes, CoinOrder(m), m);
  }

  /** An address and two counts in front of the rest. */
  lemma CountsHas(d: seq<byte>, o: nat, a: Address, m: nat, n: nat, rest: seq<byte>)
    requires IsAddress(a) && m < WORD && n < WORD && Has(d, o, a + (LeBytes(m, U64) + (LeBytes(n, U64) + rest)))
    ensures ReadAddress(d, o) == Ok(a, o + |a|)
    ensures var p := o + |a|;
            p + 2 * U64 <= |d| && LeValue(d[p..p + U64]) == m && LeValue(d[p + U64..p + 2 * U64]) == n
            && Has(d, p + 2 * U64, rest)
  {
    HasSplit(d, o, a, LeBytes(m, U64) + (LeBytes(n, U64) + rest));
    HasSplit(d, o + |a|, LeBytes(m, U64), LeBytes(n, U64) + rest);
    HasSplit(d, o + |a| + U64, LeBytes(n, U64), rest);
    ReadAddressHas(d, o, a);
    Powers();
    LeRoundTrip(m, U64);
    LeRoundTrip(n, U64);
  }

  lemma ReadMapsHas(d: seq<byte>, o: nat, e: Entry, delayed: seq<byte>, coins: seq<byte>)
    requires MapDecodes(ReadDelayed, delayed, e.delayed) && MapDecodes(ReadCoin, coins, e.coins)
    requires Has(d, o, delayed + coins)
    ensures ReadMaps(d, o, |e.delayed|, |e.coins|) == Ok(e, o + |delayed| + |coins|)
  {
    HasSplit(d, o, delayed, coins);
  }

  /** An entry is read back if its two maps are. */
  lemma EntryFromMaps(a: Address, e: Entry, delayed: seq<byte>, coins: seq<byte>)
    requires IsAddress(a) && |e.delayed| < WORD && |e.coins| < WORD
    requires MapDecodes(ReadDelayed, delayed, e.delayed) && MapDecodes(ReadCoin, coins, e.coins)
    ensures DecodesTo(ReadEntry, a + (LeBytes(|e.delayed|, U64) + (LeBytes(|e.coins|, U64) + (delayed + coins))), (a, e))
  {
    var code := a + (LeBytes(|e.delayed|, U64) + (LeBytes(|e.coins|, U64) + (delayed + coins)));
    forall d, o: nat | Has(d, o, code)
      ensures ReadEntry(d, o) == Ok((a, e), o + |code|)
    {
      CountsHas(d, o, a, |e.delayed|, |e.coins|, delayed + coins);
      ReadMapsHas(d, o + |a| + 2 * U64, e, delayed, coins);
      assert |code| == |a| + 2 * U64 + |delayed| + |coins|;
    }
  }

  lemma EntryDecodes(a: Address, e: Entry)
    requires IsAddress(a) && StorableEntry(e)
    ensures DecodesTo(ReadEntry, EntryBytes(a, e), (a, e))
  {
    DelayedMapDecodes(e.delayed);
    CoinMapDecodes(e.coins);
    EntryFromMaps(a, e, Chain(Codes(DelayedBytes, CoinOrder(e.delayed), e.delayed)),
                  Chain(Codes(CoinBytes, CoinOrder(e.coins), e.coins)));
  }

  lemma EntriesDecode(s: Summary)
    requires Storable(s)
    ensures MapDecodes(ReadEntry, Chain(Codes(EntryBytes, AddressOrder(s), s)), s)
  {
    forall a | a in s
      ensures DecodesTo(ReadEntry, EntryBytes(a, s[a]), (a, s[a]))
    {
      EntryDecodes(a, s[a]);
    }
    ReadMap(ReadEntry, EntryBytes, AddressOrder(s), s);
  }

  lemma SummaryFromEntries(s: Summary, entries: seq<byte>)
    requires |s| < 0x1_0000_0000 && MapDecodes(ReadEntry, entries, s)
    ensures DecodesTo(ReadSummary, LeBytes(|s|, U32) + entries, s)
  {
    var code := LeBytes(|s|, U32) + entries;
    forall d, o: nat | Has(d, o, code)
      ensures ReadSummary(d, o) == Ok(s, o + |code|)
    {
      HasSplit(d, o, LeBytes(|s|, U32), entries);
      Powers();
      LeRoundTrip(|s|, U32);
    }
  }

  /** A summary is read back from its canonical bytes, wherever they stand. */
  lemma SummaryRoundTrip(s: Summary)
    requires Storable(s)
    ensures DecodesTo(ReadSummary, SummaryBytes(s), s)
  {
    EntriesDecode(s);
    SummaryFromEntries(s, Chain(Codes(EntryBytes, AddressOrder(s), s)));
  }

  /** Canonical bytes determine the summary. */
  lemma SummaryInjective(s: Summary, t: Summary)
    requires Storable(s) && Storable(t) && SummaryBytes(s) == SummaryBytes(t)
    ensures s == t
  {
    var d := SummaryBytes(s);
    HasSelf(d);
    SummaryRoundTrip(s);
    SummaryRoundTrip(t);
  }

  /** The order in which transfers are summarised leaves no trace in the canonical bytes. */
  lemma BytesPermuted(s: Summary, xs: seq<Transfer>, ys: seq<Transfer>)
    requires Normal(s) && multiset(xs) == multiset(ys)
    ensures SummaryBytes(AddAll(s, xs)) == SummaryBytes(AddAll(s, ys))
  {
    SummaryPermuted(s, xs, ys);
  }
}
