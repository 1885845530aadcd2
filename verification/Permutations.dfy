/** Reordering of lists, as equality of multisets. */
module Permutations {

  /** The first element of xs somewhere in a reordering ys, and the rest reordered likewise. */
  lemma PullOut<T>(xs: seq<T>, ys: seq<T>) returns (i: nat)
    requires xs != [] && multiset(xs) == multiset(ys)
    ensures i < |ys| && ys[i] == xs[0]
    ensures multiset(xs[1..]) == multiset(ys[..i] + ys[i + 1..])
  {
    assert xs[0] in multiset(ys);
    i :| 0 <= i < |ys| && ys[i] == xs[0];
    assert ys == ys[..i] + [ys[i]] + ys[i + 1..];
    assert multiset(ys) == multiset(ys[..i] + ys[i + 1..]) + multiset{xs[0]};
    assert xs == [xs[0]] + xs[1..];
    assert multiset(xs) == multiset(xs[1..]) + multiset{xs[0]};
    assert multiset(xs[1..]) == multiset(xs) - multiset{xs[0]};
  }

  lemma Regroup<T>(a: seq<T>, x: T, c: seq<T>)
    ensures a + ([x] + c) == a + [x] + c
  {
  }

  lemma Assoc<T>(a: seq<T>, b: seq<T>, c: seq<T>)
    ensures a + (b + c) == a + b + c
  {
  }

  lemma EmptyPrefix<T>(a: seq<T>)
    ensures [] + a == a
  {
  }

  lemma MultisetCons<T>(x: T, xs: seq<T>)
    ensures multiset([x] + xs) == multiset{x} + multiset(xs)
  {
  }

  /** What f makes of every element, one after the other. */
  function Gather<A, B>(f: A -> seq<B>, xs: seq<A>): seq<B>
  {
    if xs == [] then [] else f(xs[0]) + Gather(f, xs[1..])
  }

  lemma {:induction false} GatherConcat<A, B>(f: A -> seq<B>, xs: seq<A>, ys: seq<A>)
    ensures Gather(f, xs + ys) == Gather(f, xs) + Gather(f, ys)
  {
    if xs == [] {
      assert xs + ys == ys;
    } else {
      assert (xs + ys)[1..] == xs[1..] + ys;
      GatherConcat(f, xs[1..], ys);
    }
  }

  lemma GatherPull<A, B>(f: A -> seq<B>, ys: seq<A>, i: nat)
    requires i < |ys|
    ensures multiset(Gather(f, ys)) == multiset(f(ys[i])) + multiset(Gather(f, ys[..i] + ys[i + 1..]))
  {
    assert ys == ys[..i] + ([ys[i]] + ys[i + 1..]);
    GatherConcat(f, ys[..i], [ys[i]] + ys[i + 1..]);
    GatherConcat(f, [ys[i]], ys[i + 1..]);
    GatherConcat(f, ys[..i], ys[i + 1..]);
    assert Gather(f, [ys[i]]) == f(ys[i]);
  }

  /** A reordering gathers a reordering. */
  lemma {:induction false} GatherPermuted<A, B>(f: A -> seq<B>, xs: seq<A>, ys: seq<A>)
    requires multiset(xs) == multiset(ys)
    ensures multiset(Gather(f, xs)) == multiset(Gather(f, ys))
  {
    if xs == [] {
      assert |multiset(ys)| == 0;
    } else {
      var i := PullOut(xs, ys);
      GatherPermuted(f, xs[1..], ys[..i] + ys[i + 1..]);
      GatherPull(f, ys, i);
    }
  }

  ghost predicate NoRepeats<T>(xs: seq<T>)
  {
    forall i, j :: 0 <= i < j < |xs| ==> xs[i] != xs[j]
  }

  lemma {:induction false} NoRepeatsMultiset<T>(xs: seq<T>)
    requires NoRepeats(xs)
    ensures multiset(xs) == multiset(set x | x in xs)
  {
    if xs != [] {
      NoRepeatsMultiset(xs[1..]);
      assert xs == [xs[0]] + xs[1..];
      assert (set x | x in xs) == {xs[0]} + (set x | x in xs[1..]);
      var rest := set x | x in xs[1..];
      AddOne(rest, xs[0]);
    }
  }

  lemma AddOne<T>(s: set<T>, x: T)
    requires x !in s
    ensures multiset({x} + s) == multiset{x} + multiset(s)
  {
  }

  /** Two lists of the same elements, each once, are reorderings of each other. */
  lemma SameElements<T>(xs: seq<T>, ys: seq<T>)
    requires NoRepeats(xs) && NoRepeats(ys) && forall x :: x in xs <==> x in ys
    ensures multiset(xs) == multiset(ys)
  {
    NoRepeatsMultiset(xs);
    NoRepeatsMultiset(ys);
    assert (set x | x in xs) == (set y | y in ys);
  }
}
