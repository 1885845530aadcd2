/** In which order the entries of summaries, validations and pools stand: addresses and signatures by
    the first byte in which they differ, coins by their number. The serialisers and getTransfers follow
    the iteration order of std::map; here it is said without reference to it.
 */
module CanonicalOrder {
  import opened Words
  import opened Ordering
  import opened Bytes
  import opened Summaries
  import opened Codec
  import opened Blocks
  import opened TierOne

  /** ks lists the keys of m, and of any two the one whose first differing byte is smaller, or that
      ends first, comes first. */
  ghost predicate ByBytes<V>(ks: seq<seq<byte>>, m: map<seq<byte>, V>)
  {
    (forall k :: k in ks <==> k in m) && forall i, j :: 0 <= i < j < |ks| ==> Precedes(ks[i], ks[j])
  }

  ghost predicate ByNumber<V>(ks: seq<Coin>, m: map<Coin, V>)
  {
    (forall k :: k in ks <==> k in m) && forall i, j :: 0 <= i < j < |ks| ==> ks[i] < ks[j]
  }

  lemma ByBytesIs<V>(ks: seq<seq<byte>>, m: map<seq<byte>, V>)
    ensures ByBytes(ks, m) <==> ks == AddressOrder(m)
  {
    BytesStrict();
    forall i, j | 0 <= i < j < |ks| ensures BytesLess(ks[i], ks[j]) <==> Precedes(ks[i], ks[j]) {
      BytesLessExactly(ks[i], ks[j]);
    }
    if ByBytes(ks, m) { SortedIsAscending(ks, m.Keys, BytesLess); }
    AscendingSorted(m.Keys, BytesLess);
  }

  lemma ByNumberIs<V>(ks: seq<Coin>, m: map<Coin, V>)
    ensures ByNumber(ks, m) <==> ks == CoinOrder(m)
  {
    if ByNumber(ks, m) { SortedIsAscending(ks, m.Keys, NatLess); }
    AscendingSorted(m.Keys, NatLess);
  }

  /** The entries of a summary are written, and their transfers read back, in the order of the
      addresses. */
  lemma SummaryByBytes(s: Summary, addrs: seq<Address>)
    requires ByBytes(addrs, s)
    ensures SummaryBytes(s) == LeBytes(|s|, U32) + Chain(Codes(EntryBytes, addrs, s))
    ensures ReadBack(s) == TransfersAt(addrs, s)
  {
    ByBytesIs(addrs, s);
  }

  /** Inside an entry, delayed items come first, and both kinds are in the order of the coins. */
  lemma EntryByNumber(a: Address, e: Entry, ds: seq<Coin>, cs: seq<Coin>)
    requires ByNumber(ds, e.delayed) && ByNumber(cs, e.coins)
    ensures EntryBytes(a, e) == a + (LeBytes(|e.delayed|, U64) + (LeBytes(|e.coins|, U64)
              + (Chain(Codes(DelayedBytes, ds, e.delayed)) + Chain(Codes(CoinBytes, cs, e.coins)))))
    ensures EntryTransfers(a, e) == DelayedTransfers(a, ds, e.delayed) + CoinTransfers(a, cs, e.coins)
  {
    ByNumberIs(ds, e.delayed);
    ByNumberIs(cs, e.coins);
  }

  /** Validations are written in the order of the addresses. */
  lemma ValidationByBytes(vals: map<Address, seq<byte>>, addrs: seq<Address>)
    requires ByBytes(addrs, vals)
    ensures ValsBytes(vals) == Chain(Codes(ValBytes, addrs, vals))
  {
    ByBytesIs(addrs, vals);
  }

  /** A pass takes the transactions of a pool in the order of their signatures. */
  lemma PoolByBytes(pool: Pool, sigs: seq<seq<byte>>)
    requires ByBytes(sigs, pool)
    ensures InPoolOrder(pool) == seq(|sigs|, i requires 0 <= i < |sigs| => pool[sigs[i]].tx)
  {
    ByBytesIs(sigs, pool);
  }

  // ---------------------------------------------------------------------------------
  // Two entries
  // ---------------------------------------------------------------------------------

  lemma {:induction false} ChainConcat(xs: seq<seq<byte>>, ys: seq<seq<byte>>)
    ensures Chain(xs + ys) == Chain(xs) + Chain(ys)
  {
    if xs == [] {
      assert xs + ys == ys;
    } else {
      assert (xs + ys)[1..] == xs[1..] + ys;
      ChainConcat(xs[1..], ys);
    }
  }

  lemma {:induction false} TransfersConcat(xs: seq<Address>, ys: seq<Address>, s: Summary)
    requires KeysOf(xs, s) && KeysOf(ys, s)
    ensures TransfersAt(xs + ys, s) == TransfersAt(xs, s) + TransfersAt(ys, s)
  {
    if xs == [] {
      assert xs + ys == ys;
    } else {
      assert (xs + ys)[1..] == xs[1..] + ys;
      TransfersConcat(xs[1..], ys, s);
    }
  }

  lemma Cut<T>(ks: seq<T>, i: nat, j: nat)
    requires i < j < |ks|
    ensures ks == ks[..i] + [ks[i]] + ks[i + 1..j] + [ks[j]] + ks[j + 1..]
  {
  }

  lemma Positions<V>(m: map<seq<byte>, V>, ks: seq<seq<byte>>, a: seq<byte>, b: seq<byte>) returns (i: nat, j: nat)
    requires a in m && b in m && Precedes(a, b) && ByBytes(ks, m)
    ensures i < j < |ks| && ks[i] == a && ks[j] == b
  {
    i, j :| i < |ks| && j < |ks| && ks[i] == a && ks[j] == b;
    OneWay(a, b);
  }

  lemma OneWay(a: seq<byte>, b: seq<byte>)
    requires Precedes(a, b)
    ensures a != b && !Precedes(b, a)
  {
    BytesLessExactly(a, b);
    BytesLessExactly(b, a);
    BytesIrreflexive(a);
    if BytesLess(b, a) { BytesTransitive(a, b, a); }
  }

  lemma Apart<V>(m: map<seq<byte>, V>, a: seq<byte>, b: seq<byte>)
    returns (before: seq<seq<byte>>, between: seq<seq<byte>>, after: seq<seq<byte>>)
    requires a in m && b in m && Precedes(a, b)
    ensures ByBytes(before + [a] + between + [b] + after, m)
  {
    var ks := AddressOrder(m);
    ByBytesIs(ks, m);
    var i, j := Positions(m, ks, a, b);
    Cut(ks, i, j);
    before, between, after := ks[..i], ks[i + 1..j], ks[j + 1..];
  }

  lemma KeysOfParts<V>(m: map<seq<byte>, V>, before: seq<seq<byte>>, a: seq<byte>, between: seq<seq<byte>>, b: seq<byte>,
                       after: seq<seq<byte>>)
    requires KeysOf(before + [a] + between + [b] + after, m)
    ensures KeysOf(before, m) && KeysOf(between, m) && KeysOf(after, m) && a in m && b in m
    ensures KeysOf(before + [a], m) && KeysOf(before + [a] + between, m) && KeysOf(before + [a] + between + [b], m)
  {
    var ks := before + [a] + between + [b] + after;
    assert forall k :: k in before || k == a || k in between || k == b || k in after ==> k in ks;
  }

  lemma ChainOfTwo<V(!new)>(encode: (seq<byte>, V) -> seq<byte>, m: map<seq<byte>, V>, before: seq<seq<byte>>,
                            a: seq<byte>, between: seq<seq<byte>>, b: seq<byte>, after: seq<seq<byte>>)
    requires KeysOf(before + [a] + between + [b] + after, m)
    ensures KeysOf(before, m) && KeysOf(between, m) && KeysOf(after, m) && a in m && b in m
    ensures Chain(Codes(encode, before + [a] + between + [b] + after, m))
         == Chain(Codes(encode, before, m)) + encode(a, m[a]) + Chain(Codes(encode, between, m)) + encode(b, m[b])
            + Chain(Codes(encode, after, m))
  {
    KeysOfParts(m, before, a, between, b, after);
    CodesConcat(encode, before + [a] + between + [b], after, m);
    CodesConcat(encode, before + [a] + between, [b], m);
    CodesConcat(encode, before + [a], between, m);
    CodesConcat(encode, before, [a], m);
    CodesOne(encode, a, m);
    CodesOne(encode, b, m);
  }

  lemma CodesOne<V(!new)>(encode: (seq<byte>, V) -> seq<byte>, a: seq<byte>, m: map<seq<byte>, V>)
    requires a in m
    ensures Chain(Codes(encode, [a], m)) == encode(a, m[a])
  {
    assert Codes(encode, [a], m) == [encode(a, m[a])];
    assert Chain([encode(a, m[a])]) == encode(a, m[a]) + [];
  }

  lemma CodesConcat<V(!new)>(encode: (seq<byte>, V) -> seq<byte>, xs: seq<seq<byte>>, ys: seq<seq<byte>>,
      m: map<seq<byte>, V>)
    requires KeysOf(xs + ys, m)
    ensures KeysOf(xs, m) && KeysOf(ys, m)
    ensures Chain(Codes(encode, xs + ys, m)) == Chain(Codes(encode, xs, m)) + Chain(Codes(encode, ys, m))
  {
    assert forall k :: k in xs || k in ys ==> k in xs + ys;
    assert Codes(encode, xs + ys, m) == Codes(encode, xs, m) + Codes(encode, ys, m);
    ChainConcat(Codes(encode, xs, m), Codes(encode, ys, m));
  }

  /** Of two addresses of a summary, the one with the smaller first differing byte has its entry
      earlier in the canonical bytes. */
  lemma EntryEarlier(s: Summary, a: Address, b: Address)
    returns (before: seq<Address>, between: seq<Address>, after: seq<Address>)
    requires a in s && b in s && Precedes(a, b)
    ensures KeysOf(before, s) && KeysOf(between, s) && KeysOf(after, s)
    ensures SummaryBytes(s)
         == LeBytes(|s|, U32) + (Chain(Codes(EntryBytes, before, s)) + EntryBytes(a, s[a])
             + Chain(Codes(EntryBytes, between, s))
            + EntryBytes(b, s[b]) + Chain(Codes(EntryBytes, after, s)))
  {
    before, between, after := Apart(s, a, b);
    SummaryByBytes(s, before + [a] + between + [b] + after);
    ChainOfTwo(EntryBytes, s, before, a, between, b, after);
  }

  /** And its transfers are read back earlier. */
  lemma TransfersEarlier(s: Summary, a: Address, b: Address)
    returns (before: seq<Address>, between: seq<Address>, after: seq<Address>)
    requires a in s && b in s && Precedes(a, b)
    ensures KeysOf(before, s) && KeysOf(between, s) && KeysOf(after, s)
    ensures ReadBack(s)
         == TransfersAt(before, s) + EntryTransfers(a, s[a]) + TransfersAt(between, s) + EntryTransfers(b, s[b])
             + TransfersAt(after, s)
  {
    before, between, after := Apart(s, a, b);
    SummaryByBytes(s, before + [a] + between + [b] + after);
    TransfersOfTwo(s, before, a, between, b, after);
  }

  lemma TransfersOfTwo(s: Summary, before: seq<Address>, a: Address, between: seq<Address>, b: Address, after: seq<Address>)
    requires KeysOf(before + [a] + between + [b] + after, s)
    ensures KeysOf(before, s) && KeysOf(between, s) && KeysOf(after, s) && a in s && b in s
    ensures TransfersAt(before + [a] + between + [b] + after, s)
         == TransfersAt(before, s) + EntryTransfers(a, s[a]) + TransfersAt(between, s) + EntryTransfers(b, s[b])
             + TransfersAt(after, s)
  {
    KeysOfParts(s, before, a, between, b, after);
    TransfersConcat(before + [a] + between + [b], after, s);
    TransfersConcat(before + [a] + between, [b], s);
    TransfersConcat(before + [a], between, s);
    TransfersConcat(before, [a], s);
    TransfersOne(a, s);
    TransfersOne(b, s);
  }

  lemma TransfersOne(a: Address, s: Summary)
    requires a in s
    ensures TransfersAt([a], s) == EntryTransfers(a, s[a])
  {
    assert TransfersAt([a], s) == EntryTransfers(a, s[a]) + TransfersAt([], s);
  }

  /** The same for two validations. */
  lemma ValidationEarlier(vals: map<Address, seq<byte>>, a: Address, b: Address)
    returns (before: seq<Address>, between: seq<Address>, after: seq<Address>)
    requires a in vals && b in vals && Precedes(a, b)
    ensures KeysOf(before, vals) && KeysOf(between, vals) && KeysOf(after, vals)
    ensures ValsBytes(vals) == Chain(Codes(ValBytes, before, vals)) + ValBytes(a, vals[a])
             + Chain(Codes(ValBytes, between, vals))
                               + ValBytes(b, vals[b]) + Chain(Codes(ValBytes, after, vals))
  {
    before, between, after := Apart(vals, a, b);
    ValidationByBytes(vals, before + [a] + between + [b] + after);
    ChainOfTwo(ValBytes, vals, before, a, between, b, after);
  }
}
