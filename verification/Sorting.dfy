/**
 Stand-in for the library sorts. Callers may rely on no more than the contract: a permutation
 in key order, with ties in any order.
 */
module Sorting {

  ghost predicate SortedBy<T>(xs: seq<T>, key: T -> int) {
    forall i, j | 0 <= i < j < |xs| :: key(xs[i]) <= key(xs[j])
  }

  function Insert<T>(ys: seq<T>, x: T, key: T -> int): (zs: seq<T>)
    ensures multiset(zs) == multiset(ys) + multiset{x}
  {
    if ys == [] || key(x) < key(ys[0]) then [x] + ys
    else
      assert ys == [ys[0]] + ys[1..];
      [ys[0]] + Insert(ys[1..], x, key)
  }

  lemma {:induction false} InsertSorts<T>(ys: seq<T>, x: T, key: T -> int)
    requires SortedBy(ys, key)
    ensures SortedBy(Insert(ys, x, key), key)
  {
    if ys != [] && key(ys[0]) <= key(x) {
      InsertSorts(ys[1..], x, key);
      var rest := Insert(ys[1..], x, key);
      forall i | 0 <= i < |rest| ensures key(ys[0]) <= key(rest[i]) {
        assert rest[i] in multiset(rest);
        assert rest[i] in ys[1..] || rest[i] == x;
      }
    }
  }

  method SortByKey<T(==)>(xs: seq<T>, key: T -> int) returns (ys: seq<T>)
    ensures SortedBy(ys, key)
    ensures multiset(ys) == multiset(xs)
    ensures |ys| == |xs|
  {
    ys := [];
    for n := 0 to |xs|
      invariant SortedBy(ys, key)
      invariant multiset(ys) == multiset(xs[..n])
    {
      assert xs[..n + 1] == xs[..n] + [xs[n]];
      InsertSorts(ys, xs[n], key);
      ys := Insert(ys, xs[n], key);
    }
    assert xs[..|xs|] == xs;
    assert |multiset(ys)| == |multiset(xs)|;
  }

  lemma PermutationKeepsMembers<T>(xs: seq<T>, ys: seq<T>)
    requires multiset(xs) == multiset(ys)
    ensures forall x :: x in xs <==> x in ys
  {
    forall x ensures x in xs <==> x in ys {
      assert x in xs <==> x in multiset(xs);
      assert x in ys <==> x in multiset(ys);
    }
  }

  lemma DistinctMultiset<T>(xs: seq<T>)
    requires forall i, j | 0 <= i < j < |xs| :: xs[i] != xs[j]
    ensures forall x :: multiset(xs)[x] <= 1
  {
    if xs != [] {
      var n := |xs| - 1;
      assert xs == xs[..n] + [xs[n]];
      DistinctMultiset(xs[..n]);
      assert xs[n] !in xs[..n];
    }
  }

  /** A sorted copy of a list without repetitions has none either. */
  lemma PermutationKeepsDistinct<T>(xs: seq<T>, ys: seq<T>)
    requires multiset(xs) == multiset(ys)
    requires forall i, j | 0 <= i < j < |xs| :: xs[i] != xs[j]
    ensures forall i, j | 0 <= i < j < |ys| :: ys[i] != ys[j]
  {
    DistinctMultiset(xs);
    forall i, j | 0 <= i < j < |ys| ensures ys[i] != ys[j] {
      assert ys == ys[..j] + ys[j..];
      assert ys[..j][i] == ys[i] && ys[j..][0] == ys[j];
      assert multiset(ys[..j])[ys[i]] >= 1 && multiset(ys[j..])[ys[j]] >= 1;
      assert multiset(ys) == multiset(ys[..j]) + multiset(ys[j..]);
      assert multiset(ys)[ys[i]] <= 1;
    }
  }
}
