/** Counting in maps, in lists and over vCPUs: the arithmetic every conservation law rests on. */
module Counting {

  /** The count stored under a key; an absent key counts zero. */
  function Get<K(==)>(m: map<K, nat>, k: K): nat {
    if k in m then m[k] else 0
  }

  /** The hash-map idiom `*m.entry(k).or_insert(0) += n`. */
  function Bump<K(==)>(m: map<K, nat>, k: K, n: nat): map<K, nat> {
    m[k := Get(m, k) + n]
  }

  ghost function Sum<K>(m: map<K, nat>): nat {
    if m == map[] then 0 else
      var k :| k in m;
      m[k] + Sum(m - {k})
  }

  lemma {:induction false} SumRemove<K>(m: map<K, nat>, k: K)
    requires k in m
    ensures Sum(m) == m[k] + Sum(m - {k})
    decreases |m|
  {
    var j :| j in m && Sum(m) == m[j] + Sum(m - {j});
    if j != k {
      SumRemove(m - {j}, k);
      SumRemove(m - {k}, j);
      assert m - {j} - {k} == m - {k} - {j};
    }
  }

  lemma {:induction false} NonePositive<K>(m: map<K, nat>)
    requires forall k | k in m :: m[k] == 0
    ensures Sum(m) == 0
    decreases |m|
  {
    if m != map[] {
      var k :| k in m;
      NonePositive(m - {k});
      SumRemove(m, k);
    }
  }

  lemma BumpSize<K>(m: map<K, nat>, k: K, n: nat)
    ensures |Bump(m, k, n)| == |m| + (if k in m then 0 else 1)
  {
    assert Bump(m, k, n).Keys == m.Keys + {k};
    if k in m {
      assert Bump(m, k, n).Keys == m.Keys;
    }
  }

  lemma SumPut<K>(m: map<K, nat>, k: K, n: nat)
    ensures Sum(m[k := n]) + Get(m, k) == Sum(m) + n
  {
    SumRemove(m[k := n], k);
    assert m[k := n] - {k} == m - {k};
    if k in m {
      SumRemove(m, k);
    } else {
      assert m - {k} == m;
    }
  }

  /** The part of `m` whose keys satisfy `p`. */
  ghost function Where<K>(m: map<K, nat>, p: K -> bool): map<K, nat> {
    map k | k in m && p(k) :: m[k]
  }

  ghost function SumIf<K>(m: map<K, nat>, p: K -> bool): nat {
    Sum(Where(m, p))
  }

  lemma SumIfPut<K>(m: map<K, nat>, k: K, n: nat, p: K -> bool)
    ensures SumIf(m[k := n], p) + (if p(k) then Get(m, k) else 0) == SumIf(m, p) + (if p(k) then n else 0)
  {
    if p(k) {
      assert Where(m[k := n], p) == Where(m, p)[k := n];
      SumPut(Where(m, p), k, n);
    } else {
      assert Where(m[k := n], p) == Where(m, p);
    }
  }

  lemma SumIfBump<K>(m: map<K, nat>, k: K, n: nat, p: K -> bool)
    ensures SumIf(Bump(m, k, n), p) == SumIf(m, p) + (if p(k) then n else 0)
  {
    SumIfPut(m, k, Get(m, k) + n, p);
  }

  lemma SumIfEmpty<K>(p: K -> bool)
    ensures SumIf(map[], p) == 0
  {
    assert Where(map[], p) == map[];
  }

  lemma SumIfRemove<K>(m: map<K, nat>, k: K, p: K -> bool)
    requires k in m
    ensures SumIf(m, p) == SumIf(m - {k}, p) + (if p(k) then m[k] else 0)
  {
    if p(k) {
      SumRemove(Where(m, p), k);
      assert Where(m, p) - {k} == Where(m - {k}, p);
    } else {
      assert Where(m, p) == Where(m - {k}, p);
    }
  }

  /** A map that keeps some keys, each with a count no larger, sums to no more. */
  lemma {:induction false} SumIfMono<K>(small: map<K, nat>, big: map<K, nat>, p: K -> bool)
    requires forall k | k in small :: k in big && small[k] <= big[k]
    ensures SumIf(small, p) <= SumIf(big, p)
    decreases |big|
  {
    if big == map[] {
      assert small == map[];
    } else {
      var k :| k in big;
      SumIfMono(small - {k}, big - {k}, p);
      SumIfRemove(big, k, p);
      if k in small {
        SumIfRemove(small, k, p);
      } else {
        assert small - {k} == small;
      }
    }
  }

  /** `q` holds where `p` or `r` does, and these never both hold. */
  ghost predicate Splits<K(!new)>(q: K -> bool, p: K -> bool, r: K -> bool) {
    forall k :: (q(k) <==> p(k) || r(k)) && !(p(k) && r(k))
  }

  lemma {:induction false} SumIfSplit<K(!new)>(m: map<K, nat>, q: K -> bool, p: K -> bool, r: K -> bool)
    requires Splits(q, p, r)
    ensures SumIf(m, q) == SumIf(m, p) + SumIf(m, r)
    decreases |m|
  {
    if m == map[] {
      SumIfEmpty(p);
      SumIfEmpty(r);
      SumIfEmpty(q);
    } else {
      var k :| k in m;
      SumIfSplit(m - {k}, q, p, r);
      SumIfRemove(m, k, p);
      SumIfRemove(m, k, r);
      SumIfRemove(m, k, q);
    }
  }

  /** a * b by repeated addition, which keeps inductions linear. */
  ghost function Times(a: nat, b: nat): nat {
    if b == 0 then 0 else a + Times(a, b - 1)
  }

  lemma {:induction false} TimesIsProduct(a: nat, b: nat)
    ensures Times(a, b) == a * b
  {
    if b > 0 {
      TimesIsProduct(a, b - 1);
      assert a * b == a * (b - 1) + a;
    }
  }

  /** |m| keys, each counted at least `c`, sum to at least c * |m|. */
  lemma {:induction false} SumAtLeast<K>(m: map<K, nat>, c: nat)
    requires forall k | k in m :: c <= m[k]
    ensures Times(c, |m|) <= Sum(m)
    decreases |m|
  {
    if m != map[] {
      var k :| k in m;
      SumAtLeast(m - {k}, c);
      SumRemove(m, k);
      assert (m - {k}).Keys == m.Keys - {k};
    }
  }

  /** The sum of `f` over a sequence, here always over the vCPUs. */
  ghost function SumBy<T>(s: seq<T>, f: T -> nat): nat {
    if s == [] then 0 else f(s[0]) + SumBy(s[1..], f)
  }

  lemma {:induction false} SumByUpdate<T>(s: seq<T>, i: nat, x: T, f: T -> nat)
    requires i < |s|
    ensures SumBy(s[i := x], f) + f(s[i]) == SumBy(s, f) + f(x)
  {
    if i == 0 {
      assert s[i := x][1..] == s[1..];
    } else {
      assert s[i := x][1..] == s[1..][i - 1 := x];
      SumByUpdate(s[1..], i - 1, x, f);
    }
  }

  lemma {:induction false} SumByZero<T>(s: seq<T>, f: T -> nat)
    requires forall i | 0 <= i < |s| :: f(s[i]) == 0
    ensures SumBy(s, f) == 0
  {
    if s != [] {
      SumByZero(s[1..], f);
    }
  }

  lemma {:induction false} SumByEqual<T>(s: seq<T>, f: T -> nat, g: T -> nat)
    requires forall i | 0 <= i < |s| :: f(s[i]) == g(s[i])
    ensures SumBy(s, f) == SumBy(s, g)
  {
    if s != [] {
      SumByEqual(s[1..], f, g);
    }
  }

  lemma {:induction false} SumByAppend<T>(s: seq<T>, x: T, f: T -> nat)
    ensures SumBy(s + [x], f) == SumBy(s, f) + f(x)
  {
    if s == [] {
      assert s + [x] == [x];
    } else {
      assert (s + [x])[1..] == s[1..] + [x];
      SumByAppend(s[1..], x, f);
    }
  }

  lemma {:induction false} SumByMember<T>(s: seq<T>, i: nat, f: T -> nat)
    requires i < |s|
    ensures f(s[i]) <= SumBy(s, f)
  {
    if i > 0 {
      SumByMember(s[1..], i - 1, f);
    }
  }
}
