/** The iteration order of std::map: strictly increasing keys. */
module Ordering {
  import opened Words
  import opened Permutations

  /** Lexicographic order on byte strings, which is how addresses compare. */
  predicate BytesLess(a: seq<byte>, b: seq<byte>)
    decreases |b|
  {
    if b == [] then false
    else if a == [] then true
    else if a[0] != b[0] then a[0] < b[0]
    else BytesLess(a[1..], b[1..])
  }

  /** The first place where a and b differ is i, and a has the smaller byte there, or ends there. */
  predicate DifferAt(a: seq<byte>, b: seq<byte>, i: nat)
  {
    i <= |a| && i < |b| && a[..i] == b[..i] && (i < |a| ==> a[i] < b[i])
  }

  /** The order of the standard library on vectors of bytes. */
  ghost predicate Precedes(a: seq<byte>, b: seq<byte>)
  {
    exists i: nat :: DifferAt(a, b, i)
  }

  lemma {:induction false} LessAt(a: seq<byte>, b: seq<byte>, i: nat)
    requires DifferAt(a, b, i)
    ensures BytesLess(a, b)
    decreases i
  {
    if i > 0 {
      assert a[0] == a[..i][0] == b[..i][0] == b[0];
      assert a[1..][..i - 1] == a[..i][1..] == b[..i][1..] == b[1..][..i - 1];
      LessAt(a[1..], b[1..], i - 1);
    }
  }

  lemma {:induction false} FirstDifference(a: seq<byte>, b: seq<byte>) returns (i: nat)
    requires BytesLess(a, b)
    ensures DifferAt(a, b, i)
    decreases |a|
  {
    i := 0;
    if a != [] && a[0] == b[0] {
      var k := FirstDifference(a[1..], b[1..]);
      i := k + 1;
      assert a[..i] == [a[0]] + a[1..][..k] && b[..i] == [b[0]] + b[1..][..k];
    }
  }

  /** Byte strings compare by their first difference; a proper prefix is less. */
  lemma BytesLessExactly(a: seq<byte>, b: seq<byte>)
    ensures BytesLess(a, b) <==> Precedes(a, b)
  {
    if BytesLess(a, b) { var i := FirstDifference(a, b); }
    if i: nat :| DifferAt(a, b, i) { LessAt(a, b, i); }
  }

  predicate NatLess(a: nat, b: nat)
  {
    a < b
  }

  ghost predicate StrictOrder<K(!new)>(less: (K, K) -> bool)
  {
    && (forall a :: !less(a, a))
    && (forall a, b, c :: less(a, b) && less(b, c) ==> less(a, c))
    && (forall a, b :: a == b || less(a, b) || less(b, a))
  }

  lemma {:induction false} BytesIrreflexive(a: seq<byte>)
    ensures !BytesLess(a, a)
    decreases |a|
  {
    if a != [] { BytesIrreflexive(a[1..]); }
  }

  lemma {:induction false} BytesTransitive(a: seq<byte>, b: seq<byte>, c: seq<byte>)
    requires BytesLess(a, b) && BytesLess(b, c)
    ensures BytesLess(a, c)
    decreases |c|
  {
    if a != [] && a[0] == b[0] == c[0] { BytesTransitive(a[1..], b[1..], c[1..]); }
  }

  lemma {:induction false} BytesConnected(a: seq<byte>, b: seq<byte>)
    ensures a == b || BytesLess(a, b) || BytesLess(b, a)
    decreases |a|
  {
    if a != [] && b != [] && a[0] == b[0] {
      BytesConnected(a[1..], b[1..]);
      assert a == [a[0]] + a[1..] && b == [b[0]] + b[1..];
    }
  }

  lemma BytesStrict()
    ensures StrictOrder(BytesLess)
  {
    forall a ensures !BytesLess(a, a) { BytesIrreflexive(a); }
    forall a, b, c | BytesLess(a, b) && BytesLess(b, c) ensures BytesLess(a, c) { BytesTransitive(a, b, c); }
    forall a, b ensures a == b || BytesLess(a, b) || BytesLess(b, a) { BytesConnected(a, b); }
  }

  predicate Least<K>(m: K, s: set<K>, less: (K, K) -> bool)
  {
    m in s && forall x :: x in s ==> x == m || less(m, x)
  }

  lemma {:induction false} LeastExists<K(!new)>(s: set<K>, less: (K, K) -> bool) returns (m: K)
    requires StrictOrder(less) && s != {}
    ensures Least(m, s, less)
    decreases |s|
  {
    m :| m in s;
    assert forall x :: x in s ==> x == m || x in s - {m};
    if s - {m} != {} {
      var n := LeastExists(s - {m}, less);
      if less(n, m) { m := n; }
    }
  }

  /** The keys in iteration order. */
  ghost function Ascending<K(!new)>(s: set<K>, less: (K, K) -> bool): (r: seq<K>)
    requires StrictOrder(less)
    ensures forall k :: k in r <==> k in s
    decreases |s|
  {
    if s == {} then []
    else
      var m := First(s, less);
      [m] + Ascending(s - {m}, less)
  }

  ghost function First<K(!new)>(s: set<K>, less: (K, K) -> bool): (m: K)
    requires StrictOrder(less) && s != {}
    ensures Least(m, s, less)
  {
    assert exists m :: Least(m, s, less) by { var m := LeastExists(s, less); }
    var m :| Least(m, s, less);
    m
  }

  /** An iteration that always takes the least remaining key follows Ascending. */
  lemma AscendingStep<K(!new)>(s: set<K>, less: (K, K) -> bool, m: K)
    requires StrictOrder(less) && Least(m, s, less)
    ensures Ascending(s, less) == [m] + Ascending(s - {m}, less)
  {
    assert First(s, less) == m;
  }

  lemma {:induction false} AscendingDistinct<K(!new)>(s: set<K>, less: (K, K) -> bool)
    requires StrictOrder(less)
    ensures var r := Ascending(s, less);
      |r| == |s| && forall i, j :: 0 <= i < j < |r| ==> r[i] != r[j]
    decreases |s|
  {
    if s != {} {
      AscendingDistinct(s - {First(s, less)}, less);
    }
  }

  /** ks lists the keys of s, each before those that it is less than. */
  ghost predicate Sorted<K(!new)>(ks: seq<K>, s: set<K>, less: (K, K) -> bool)
  {
    (forall k :: k in ks <==> k in s) && forall i, j :: 0 <= i < j < |ks| ==> less(ks[i], ks[j])
  }

  lemma {:induction false} AscendingSorted<K(!new)>(s: set<K>, less: (K, K) -> bool)
    requires StrictOrder(less)
    ensures Sorted(Ascending(s, less), s, less)
    decreases |s|
  {
    if s != {} {
      var m := First(s, less);
      AscendingSorted(s - {m}, less);
      var rest := Ascending(s - {m}, less);
      forall j | 0 <= j < |rest| ensures less(m, rest[j]) { assert rest[j] in s - {m}; }
    }
  }

  /** There is only one such list. */
  lemma {:induction false} SortedIsAscending<K(!new)>(ks: seq<K>, s: set<K>, less: (K, K) -> bool)
    requires StrictOrder(less) && Sorted(ks, s, less)
    ensures ks == Ascending(s, less)
    decreases |ks|
  {
    if ks == [] {
      assert forall k :: k in s ==> k in ks;
    } else {
      var m := ks[0];
      assert m in ks;
      forall x | x in s ensures x == m || less(m, x) { var i :| 0 <= i < |ks| && ks[i] == x; }
      AscendingStep(s, less, m);
      forall k ensures k in ks[1..] <==> k in s - {m} {
        if k in ks[1..] { var i :| 0 < i < |ks| && ks[i] == k; }
        if k in s - {m} { var i :| 0 <= i < |ks| && ks[i] == k; assert ks[1..][i - 1] == k; }
      }
      SortedIsAscending(ks[1..], s - {m}, less);
    }
  }

  /** A std::map is walked from its least key upwards. */
  method InOrder<K(!new)>(keys: set<K>, less: (K, K) -> bool) returns (r: seq<K>)
    requires StrictOrder(less)
    ensures r == Ascending(keys, less)
  {
    r := [];
    var todo := keys;
    ghost var rest := Ascending(todo, less);
    while todo != {}
      invariant rest == Ascending(todo, less)
      invariant r + rest == Ascending(keys, less)
      decreases |todo|
    {
      ghost var least := LeastExists(todo, less);
      var k :| Least(k, todo, less);
      AscendingStep(todo, less, k);
      rest := Ascending(todo - {k}, less);
      Assoc(r, [k], rest);
      r := r + [k];
      todo := todo - {k};
    }
  }
}
