/** The sum of the values of a finite map, and how it moves when one key is set. */
module Totals {
  import opened Permutations

  ghost function Total<K>(m: map<K, int>): int
    decreases |m|
  {
    if m == map[] then 0
    else
      var k :| k in m;
      m[k] + Total(m - {k})
  }

  /** Any key may be taken out first. */
  lemma {:induction false} TotalRemove<K>(m: map<K, int>, k: K)
    requires k in m
    ensures Total(m) == m[k] + Total(m - {k})
    decreases |m|
  {
    var j :| j in m && Total(m) == m[j] + Total(m - {j});
    if j != k {
      TotalRemove(m - {j}, k);
      TotalRemove(m - {k}, j);
      assert m - {j} - {k} == m - {k} - {j};
    }
  }

  lemma TotalSet<K>(m: map<K, int>, k: K, v: int)
    ensures Total(m[k := v]) == Total(m) + v - (if k in m then m[k] else 0)
  {
    TotalRemove(m[k := v], k);
    if k in m {
      TotalRemove(m, k);
      assert m[k := v] - {k} == m - {k};
    } else {
      assert m[k := v] - {k} == m;
    }
  }

  /** The same sum along a list of keys. */
  ghost function SumAt<K>(ks: seq<K>, m: map<K, int>): int
    requires forall k :: k in ks ==> k in m
  {
    if ks == [] then 0 else m[ks[0]] + SumAt(ks[1..], m)
  }

  lemma SumStep<K>(ks: seq<K>, i: nat, m: map<K, int>)
    requires i < |ks| && forall k :: k in ks ==> k in m
    ensures SumAt(ks[i..], m) == m[ks[i]] + SumAt(ks[i + 1..], m)
  {
    assert ks[i..][1..] == ks[i + 1..];
  }

  lemma {:induction false} SumAgrees<K>(ks: seq<K>, m: map<K, int>, n: map<K, int>)
    requires forall k :: k in ks ==> k in m && k in n && m[k] == n[k]
    ensures SumAt(ks, m) == SumAt(ks, n)
  {
    if ks != [] { SumAgrees(ks[1..], m, n); }
  }

  /** Along a list of all keys, each once, it is the total. */
  lemma {:induction false} SumIsTotal<K>(ks: seq<K>, m: map<K, int>)
    requires NoRepeats(ks) && forall k :: k in ks <==> k in m
    ensures SumAt(ks, m) == Total(m)
    decreases |ks|
  {
    if ks == [] {
      assert m == map[];
    } else {
      var rest := m - {ks[0]};
      assert ks[0] in ks && forall k :: k in ks[1..] <==> k in rest;
      TotalRemove(m, ks[0]);
      SumAgrees(ks[1..], m, rest);
      SumIsTotal(ks[1..], rest);
    }
  }
}
