/**
 What lazy pruning costs. A run is any sequence of records into one Top-N table, with any
 tie-breaking at each prune; the laws below hold of every run.
 */
module TopNBound {
  import opened Counting
  import opened EdgeStorage

  datatype Run = Start | Then(prev: Run, edge: Edge, table: EdgeCounts)

  ghost function Table(run: Run): EdgeCounts {
    if run.Start? then map[] else run.table
  }

  ghost predicate ValidRun(run: Run, n: nat) {
    run.Then? ==> ValidRun(run.prev, n) && TopNRecorded(Table(run.prev), run.edge, run.table, n)
  }

  /** How many records the run made in all, and how many of them of the edge `e`. */
  ghost function Records(run: Run): nat {
    if run.Start? then 0 else 1 + Records(run.prev)
  }

  ghost function TrueCount(run: Run, e: Edge): nat {
    if run.Start? then 0 else TrueCount(run.prev, e) + (if run.edge == e then 1 else 0)
  }

  /** The undercount of `e`: records made of it that the table no longer shows. */
  ghost function Undercount(run: Run, e: Edge): int {
    TrueCount(run, e) - Get(Table(run), e)
  }

  /** The table just before the last step's prune. */
  ghost function Bumped(run: Run): EdgeCounts
    requires run.Then?
  {
    Bump(Table(run.prev), run.edge, 1)
  }

  /** Whether the last step dropped `e`, and how often and at what largest count the run did. */
  ghost predicate DropsNow(run: Run, e: Edge) {
    run.Then? && e in Bumped(run) && e !in run.table
  }

  ghost function Drops(run: Run, e: Edge): nat {
    if run.Start? then 0 else Drops(run.prev, e) + (if DropsNow(run, e) then 1 else 0)
  }

  ghost function LargestDrop(run: Run, e: Edge): nat {
    if run.Start? then 0
    else if DropsNow(run, e) && LargestDrop(run.prev, e) < Bumped(run)[e] then Bumped(run)[e]
    else LargestDrop(run.prev, e)
  }

  /** Everything prunes have thrown away, over all edges. */
  ghost function Discarded(run: Run): nat {
    if run.Start? then 0 else Discarded(run.prev) + Sum(DroppedNow(run))
  }

  /** The entries the last step dropped, with their counts. */
  ghost function DroppedNow(run: Run): EdgeCounts
    requires run.Then?
  {
    Bumped(run) - run.table.Keys
  }

  lemma {:induction false} TimesMono(a: nat, b: nat, c: nat)
    requires b <= c
    ensures Times(a, b) <= Times(a, c)
  {
    if b < c {
      TimesMono(a, b, c - 1);
    }
  }

  // ---- Size and conservation ----

  /** Between records the table never holds more than twice its capacity, and every count is positive. */
  lemma {:induction false} TableInvariant(run: Run, n: nat)
    requires ValidRun(run, n)
    ensures |Table(run)| <= 2 * n
    ensures forall e | e in Table(run) :: 1 <= Table(run)[e]
  {
    if run.Then? {
      TableInvariant(run.prev, n);
      BumpSize(Table(run.prev), run.edge, 1);
    }
  }

  /** A prune meets exactly 2N+1 entries: it drops N+1 of them and keeps N. */
  lemma PruneSizes(run: Run, n: nat)
    requires ValidRun(run, n) && run.Then? && run.table != Bumped(run)
    ensures |Bumped(run)| == 2 * n + 1 && |run.table| == n && |DroppedNow(run)| == n + 1
    ensures forall e | e in Bumped(run) :: 1 <= Bumped(run)[e]
  {
    TableInvariant(run.prev, n);
    BumpSize(Table(run.prev), run.edge, 1);
    assert run.table.Keys <= Bumped(run).Keys;
    assert DroppedNow(run).Keys == Bumped(run).Keys - run.table.Keys;
  }

  /** Stored plus discarded is everything recorded. */
  lemma {:induction false} RecordsAreConserved(run: Run, n: nat)
    requires ValidRun(run, n)
    ensures Sum(Table(run)) + Discarded(run) == Records(run)
  {
    if run.Then? {
      RecordsAreConserved(run.prev, n);
      SumPut(Table(run.prev), run.edge, Get(Table(run.prev), run.edge) + 1);
      SplitSum(Bumped(run), run.table);
    }
  }

  lemma {:induction false} SplitSum(whole: EdgeCounts, part: EdgeCounts)
    requires forall e | e in part :: e in whole && part[e] == whole[e]
    ensures Sum(whole) == Sum(part) + Sum(whole - part.Keys)
    decreases |part|
  {
    if part == map[] {
      assert whole - part.Keys == whole;
    } else {
      var k :| k in part;
      assert (part - {k}).Keys == part.Keys - {k};
      assert whole - {k} - (part - {k}).Keys == whole - part.Keys;
      SplitSum(whole - {k}, part - {k});
      SumRemove(whole, k);
      SumRemove(part, k);
    }
  }

  lemma AnotherDrop(u0: int, c0: nat, k0: nat, amount: nat, u: int, c: nat, k: nat)
    requires 0 <= u0 <= Times(c0, k0) && u == u0 + amount && k == k0 + 1
    requires c0 <= c && amount <= c
    ensures 0 <= u <= Times(c, k)
  {
    TimesMonoLeft(c0, c, k0);
  }

  lemma UndercountStep(run: Run, n: nat, e: Edge)
    requires ValidRun(run, n) && run.Then?
    ensures Undercount(run, e) == Undercount(run.prev, e) + (if DropsNow(run, e) then Bumped(run)[e] else 0)
  {
    assert Get(Bumped(run), e) == Get(Table(run.prev), e) + (if run.edge == e then 1 else 0);
    if e in run.table {
      assert run.table[e] == Bumped(run)[e];
    }
  }

  /** No stored count exceeds the true one, and an edge that was never dropped is exact. */
  lemma {:induction false} StoredNeverExceedsTrue(run: Run, n: nat, e: Edge)
    requires ValidRun(run, n)
    ensures 0 <= Undercount(run, e) <= Times(LargestDrop(run, e), Drops(run, e))
    ensures Drops(run, e) == 0 ==> Get(Table(run), e) == TrueCount(run, e)
  {
    if run.Then? {
      StoredNeverExceedsTrue(run.prev, n, e);
      UndercountStep(run, n, e);
      var u, c, k := Undercount(run, e), LargestDrop(run, e), Drops(run, e);
      var u0, c0, k0 := Undercount(run.prev, e), LargestDrop(run.prev, e), Drops(run.prev, e);
      if DropsNow(run, e) {
        AnotherDrop(u0, c0, k0, Bumped(run)[e], u, c, k);
      } else {
        assert u == u0 && c == c0 && k == k0;
      }
    }
  }

  lemma {:induction false} TimesMonoLeft(a: nat, b: nat, k: nat)
    requires a <= b
    ensures Times(a, k) <= Times(b, k)
  {
    if k > 0 {
      TimesMonoLeft(a, b, k - 1);
    }
  }

  lemma MulMono(k: nat, a: nat, b: nat)
    requires a <= b
    ensures k * a <= k * b
  {
  }

  // ---- The error bound ----

  /** Records of edges other than `e`. */
  ghost function OtherRecords(run: Run, e: Edge): int {
    Records(run) - TrueCount(run, e)
  }

  /** Entries of other edges above the N that a prune leaves. */
  ghost function Growth(run: Run, n: nat, e: Edge): nat {
    var others := |Table(run).Keys - {e}|;
    if n < others then others - n else 0
  }

  /** Each drop of `e` throws away, besides what is stored of `e`, at least N records of other edges. */
  lemma {:induction false} EachDropCostsOthers(run: Run, n: nat, e: Edge)
    requires ValidRun(run, n)
    ensures Times(n, Drops(run, e)) + Undercount(run, e) <= Discarded(run)
  {
    if run.Then? {
      EachDropCostsOthers(run.prev, n, e);
      UndercountStep(run, n, e);
      var k, u, d := Drops(run, e), Undercount(run, e), Discarded(run);
      var k0, u0, d0 := Drops(run.prev, e), Undercount(run.prev, e), Discarded(run.prev);
      assert d0 <= d;
      if DropsNow(run, e) {
        OthersLostNow(run, n, e);
        DropIsPaid(n, k0, u0, Bumped(run)[e], d0, d);
      } else {
        assert k == k0 && u == u0;
      }
      assert Times(n, k) + u <= d;
    }
  }

  lemma DropIsPaid(n: nat, k: nat, u: int, amount: nat, before: nat, after: nat)
    requires Times(n, k) + u <= before && before + n + amount <= after
    ensures Times(n, k + 1) + u + amount <= after
  {
  }

  lemma OthersLostNow(run: Run, n: nat, e: Edge)
    requires ValidRun(run, n) && DropsNow(run, e)
    ensures n + Bumped(run)[e] <= Sum(DroppedNow(run))
  {
    PruneSizes(run, n);
    var dropped := DroppedNow(run);
    assert forall k | k in dropped :: 1 <= dropped[k];
    OthersBesides(dropped, e);
  }

  /** Besides an entry of a table of positive counts, the others count at least one each. */
  lemma OthersBesides(m: EdgeCounts, e: Edge)
    requires e in m && forall k | k in m :: 1 <= m[k]
    ensures |m| - 1 + m[e] <= Sum(m)
  {
    var others := m - {e};
    assert others.Keys == m.Keys - {e};
    SumAtLeast(others, 1);
    TimesIsProduct(1, |others|);
    SumRemove(m, e);
  }

  /** At a drop of `e` at count `c`, the N kept entries hold at least `c` records each. */
  lemma KeptAreHot(run: Run, n: nat, e: Edge)
    requires ValidRun(run, n) && DropsNow(run, e)
    ensures Times(n, Bumped(run)[e]) <= Sum(run.table)
  {
    PruneSizes(run, n);
    TimesIsProduct(n, Bumped(run)[e]);
    TimesIsProduct(Bumped(run)[e], n);
    SumAtLeast(run.table, Bumped(run)[e]);
  }

  /** A prune never drops an edge whose stored count, times N+1, exceeds the records so far. */
  lemma HotEdgeSurvives(run: Run, n: nat, e: Edge, count: nat)
    requires ValidRun(run, n) && DropsNow(run, e) && count == Bumped(run)[e]
    ensures count * (n + 1) <= Records(run)
  {
    HotEdgeCost(run, n, e);
    TimesIsProduct(n, count);
    assert count * (n + 1) == n * count + count;
  }

  lemma HotEdgeCost(run: Run, n: nat, e: Edge)
    requires ValidRun(run, n) && DropsNow(run, e)
    ensures Times(n, Bumped(run)[e]) + Bumped(run)[e] <= Records(run)
  {
    RecordsAreConserved(run, n);
    KeptAreHot(run, n, e);
    OthersLostNow(run, n, e);
    DiscardedGrows(run, Sum(DroppedNow(run)));
  }

  lemma DiscardedGrows(run: Run, dropped: nat)
    requires run.Then? && dropped == Sum(DroppedNow(run))
    ensures Discarded(run) == Discarded(run.prev) + dropped
  {
  }

  /** The potential behind the bound: k drops, the largest at count c, cost N*(k + c) other records. */
  lemma {:induction false} DropsArePaidFor(run: Run, n: nat, e: Edge)
    requires ValidRun(run, n)
    ensures Drops(run, e) > 0 ==> PaidFor(run, n, e)
  {
    if run.Then? {
      DropsArePaidFor(run.prev, n, e);
      if DropsNow(run, e) {
        DropStep(run, n, e);
      } else {
        QuietStep(run, n, e);
      }
    }
  }

  ghost predicate PaidFor(run: Run, n: nat, e: Edge) {
    Times(n, Drops(run, e)) + Times(n, LargestDrop(run, e)) + Growth(run, n, e) <= OtherRecords(run, e)
  }

  lemma DropStep(run: Run, n: nat, e: Edge)
    requires ValidRun(run, n) && DropsNow(run, e)
    requires Drops(run.prev, e) > 0 ==> PaidFor(run.prev, n, e)
    ensures PaidFor(run, n, e)
  {
    DropResetsGrowth(run, n, e);
    if LargestDrop(run.prev, e) < Bumped(run)[e] {
      RecordsAreConserved(run, n);
      EachDropCostsOthers(run, n, e);
      KeptAreHot(run, n, e);
    } else {
      FirstDropIsLargest(run.prev, n, e);
      PrunePaysAgain(run, n, e);
      RepeatedDrop(n, Drops(run.prev, e), LargestDrop(run.prev, e), Growth(run.prev, n, e),
                   OtherRecords(run.prev, e), OtherRecords(run, e));
    }
  }

  lemma RepeatedDrop(n: nat, k: nat, c: nat, growth: nat, before: int, after: int)
    requires Times(n, k) + Times(n, c) + growth <= before
    requires before + n <= after + growth
    ensures Times(n, k + 1) + Times(n, c) <= after
  {
  }

  lemma DropResetsGrowth(run: Run, n: nat, e: Edge)
    requires ValidRun(run, n) && DropsNow(run, e)
    ensures Growth(run, n, e) == 0 && Get(run.table, e) == 0
  {
    PruneSizes(run, n);
    assert run.table.Keys - {e} == run.table.Keys;
  }

  /** Since the last prune, N other entries have come in. */
  lemma PrunePaysAgain(run: Run, n: nat, e: Edge)
    requires ValidRun(run, n) && DropsNow(run, e)
    ensures OtherRecords(run.prev, e) + n <= OtherRecords(run, e) + Growth(run.prev, n, e)
    ensures Bumped(run)[e] > 0
  {
    PruneSizes(run, n);
    // The prune meets 2N entries besides e, N more than the last prune left.
    assert |Bumped(run).Keys - {e}| == 2 * n;
    BumpedOthers(run, e);
  }

  lemma BumpedOthers(run: Run, e: Edge)
    requires run.Then?
    ensures |Bumped(run).Keys - {e}| <= |Table(run.prev).Keys - {e}| + (if run.edge == e then 0 else 1)
  {
    var before := Table(run.prev).Keys - {e};
    assert Bumped(run).Keys - {e} == before + ({run.edge} - {e});
    if run.edge == e {
      assert Bumped(run).Keys - {e} == before;
    } else if run.edge in before {
      assert Bumped(run).Keys - {e} == before;
    } else {
      assert Bumped(run).Keys - {e} == before + {run.edge};
    }
  }

  lemma QuietStep(run: Run, n: nat, e: Edge)
    requires ValidRun(run, n) && run.Then? && !DropsNow(run, e)
    ensures Growth(run, n, e) + OtherRecords(run.prev, e) <= Growth(run.prev, n, e) + OtherRecords(run, e)
  {
    BumpedOthers(run, e);
    if run.table != Bumped(run) {
      PruneSizes(run, n);
      assert |run.table.Keys| == n;
      SubsetSize(run.table.Keys - {e}, run.table.Keys);
    }
  }

  lemma {:induction false} SubsetSize<T>(a: set<T>, b: set<T>)
    requires a <= b
    ensures |a| <= |b|
  {
    if a != {} {
      var x :| x in a;
      SubsetSize(a - {x}, b - {x});
    }
  }

  lemma {:induction false} FirstDropIsLargest(run: Run, n: nat, e: Edge)
    requires ValidRun(run, n)
    ensures LargestDrop(run, e) > 0 ==> Drops(run, e) > 0
  {
    if run.Then? {
      FirstDropIsLargest(run.prev, n, e);
    }
  }

  lemma RecordsCover(run: Run, n: nat, e: Edge)
    requires ValidRun(run, n)
    ensures 0 <= OtherRecords(run, e)
  {
    RecordsAreConserved(run, n);
    EachDropCostsOthers(run, n, e);
    if e in Table(run) {
      SumRemove(Table(run), e);
    }
  }

  /**
   The Top-N error bound. With capacity `n` and `t` records in all, an edge's undercount `l` satisfies
   2*n*sqrt(l) <= t - l, so in particular 4*n*n*l <= (t + n)^2.
   */
  lemma UndercountBound(run: Run, n: nat, e: Edge, l: int, t: nat)
    requires ValidRun(run, n) && l == Undercount(run, e) && t == Records(run)
    ensures 0 <= l <= t
    ensures 4 * n * n * l <= (t - l) * (t - l)
  {
    StoredNeverExceedsTrue(run, n, e);
    DropsArePaidFor(run, n, e);
    RecordsCover(run, n, e);
    BoundFromCosts(n, Drops(run, e), LargestDrop(run, e), l, t);
  }

  lemma BoundFromCosts(n: nat, k: nat, c: nat, l: nat, t: nat)
    requires l <= t && l <= Times(c, k)
    requires k > 0 ==> Times(n, k) + Times(n, c) <= t - l
    ensures 4 * n * n * l <= (t - l) * (t - l)
  {
    if k == 0 {
      assert l == 0;
    } else {
      TimesIsProduct(n, k);
      TimesIsProduct(n, c);
      TimesIsProduct(c, k);
      ProductBound(n, k, c, l, t - l);
    }
  }

  lemma ProductBound(n: nat, k: nat, c: nat, l: nat, d: nat)
    requires l <= c * k && n * k + n * c <= d
    ensures 4 * n * n * l <= d * d
  {
    LossBelowProduct(n, k, c, l);
    FourfoldBelowSquare((n * n) * l, n * k, n * c, d);
    LeftToRight(n, l);
  }

  lemma LossBelowProduct(n: nat, k: nat, c: nat, l: nat)
    requires l <= c * k
    ensures (n * n) * l <= (n * k) * (n * c)
  {
    MulMono(n * n, l, c * k);
    Regroup(n, k, c);
  }

  lemma FourfoldBelowSquare(p: nat, a: nat, b: nat, d: nat)
    requires p <= a * b && a + b <= d
    ensures 4 * p <= d * d
  {
    FourProducts(a, b);
    SquareMono(a + b, d);
  }

  /** (a + b)^2 is at least 4*a*b. */
  lemma FourProducts(a: nat, b: nat)
    ensures 4 * (a * b) <= (a + b) * (a + b)
  {
    assert (a + b) * (a + b) == a * a + 2 * (a * b) + b * b;
    assert (a - b) * (a - b) == a * a - 2 * (a * b) + b * b;
    assert 0 <= (a - b) * (a - b);
  }

  lemma Regroup(n: nat, k: nat, c: nat)
    ensures (n * k) * (n * c) == (n * n) * (c * k)
  {
    assert (n * k) * (n * c) == n * (k * (n * c));
    assert k * (n * c) == n * (c * k);
  }

  lemma LeftToRight(n: nat, l: nat)
    ensures 4 * n * n * l == 4 * ((n * n) * l)
  {
  }

  lemma SquareMono(a: nat, b: nat)
    requires a <= b
    ensures a * a <= b * b
  {
    MulMono(a, a, b);
    MulMono(b, a, b);
  }

  /** A run of at most twice the capacity is exact for every edge. */
  lemma ShortRunsAreExact(run: Run, n: nat, e: Edge)
    requires ValidRun(run, n) && Records(run) <= 2 * n
    ensures Get(Table(run), e) == TrueCount(run, e)
  {
    StoredNeverExceedsTrue(run, n, e);
    DropsArePaidFor(run, n, e);
    RecordsCover(run, n, e);
    if Undercount(run, e) > 0 {
      TimesMono(n, 1, Drops(run, e));
      TimesMono(n, 1, LargestDrop(run, e));
      assert false;
    }
  }

  /** An edge with `c` of the `t` records is in the table whenever c > t*t/(4*n*n). */
  lemma HeavyEdgeIsStored(run: Run, n: nat, e: Edge, t: nat, c: nat)
    requires ValidRun(run, n) && t == Records(run) && c == TrueCount(run, e)
    requires t * t < 4 * n * n * c
    ensures e in Table(run)
  {
    if e !in Table(run) {
      UndercountBound(run, n, e, c, t);
      SquareMono(t - c, t);
      assert false;
    }
  }
}
