/** How the looked-up counts of direct calls relate to the true ones, whatever blocks overlap. */
module DirectCallLaws {
  import opened Words
  import opened Counting
  import opened GuestTrace
  import opened Profiler
  import opened ExecLaws
  import opened DirectCallIndex

  /** The address lies between the block's first and last instruction. */
  predicate Over(tb: Tb, a: u64) {
    Start(tb) <= a <= End(tb)
  }

  ghost function OverAddr(a: u64): Tb -> bool {
    (tb: Tb) => Over(tb, a)
  }

  ghost function Exec(s: State, k: TbKey): nat {
    Get(ExecTotals(s), k)
  }

  /** The index has one entry for each known block. */
  ghost predicate Indexes(index: seq<Entry>, s: State) {
    forall e :: e in index <==> exists k | k in s.tbs :: EntryOf(s.tbs, ExecTotals(s), k) == e
  }

  /** An executed block over the callsite. */
  ghost predicate ExecutedOver(s: State, cs: u64, k: TbKey) {
    k in s.tbs && Over(s.tbs[k], cs) && Exec(s, k) > 0
  }

  /** No block starts later and still at or before the callsite. */
  ghost predicate StartsLast(s: State, cs: u64, k: TbKey) {
    && k in s.tbs && Start(s.tbs[k]) <= cs
    && forall j | j in s.tbs && Start(s.tbs[j]) <= cs :: Start(s.tbs[j]) <= Start(s.tbs[k])
  }

  ghost predicate DifferentStarts(tbs: map<TbKey, Tb>) {
    forall j, k | j in tbs && k in tbs && Start(tbs[j]) == Start(tbs[k]) :: j == k
  }

  ghost predicate OnlyLastExecuted(s: State, cs: u64) {
    forall k | ExecutedOver(s, cs, k) :: StartsLast(s, cs, k)
  }

  /** No executed block lies over the callsite, or one does that starts last and shares its start with no other. */
  ghost predicate Unshadowed(s: State, cs: u64) {
    (forall k :: !ExecutedOver(s, cs, k)) || exists k :: OnlyAnswer(s, cs, k)
  }

  ghost predicate OnlyAnswer(s: State, cs: u64, k: TbKey) {
    && ExecutedOver(s, cs, k) && StartsLast(s, cs, k)
    && (forall j | ExecutedOver(s, cs, j) :: j == k)
    && (forall j | j in s.tbs && Start(s.tbs[j]) == Start(s.tbs[k]) :: j == k)
  }

  // ---- Sums over the blocks at a callsite ----

  lemma OneOver(s: State, cs: u64, k: TbKey)
    requires ExecutedOver(s, cs, k)
    ensures Exec(s, k) <= ExecWhere(s, OverAddr(cs))
  {
    SumIfRemove(ExecTotals(s), k, Keyed(s.tbs, OverAddr(cs)));
    assert Keyed(s.tbs, OverAddr(cs))(k);
  }

  lemma TwoOver(s: State, cs: u64, j: TbKey, k: TbKey)
    requires ExecutedOver(s, cs, j) && ExecutedOver(s, cs, k) && j != k
    ensures Exec(s, j) + Exec(s, k) <= ExecWhere(s, OverAddr(cs))
  {
    var totals, p := ExecTotals(s), Keyed(s.tbs, OverAddr(cs));
    assert p(j) && p(k);
    SumIfRemove(totals, j, p);
    SumIfRemove(totals - {j}, k, p);
  }

  lemma NoneOver(s: State, cs: u64)
    requires forall k :: !ExecutedOver(s, cs, k)
    ensures ExecWhere(s, OverAddr(cs)) == 0
  {
    var over := Where(ExecTotals(s), Keyed(s.tbs, OverAddr(cs)));
    forall k | k in over ensures over[k] == 0 {
      assert !ExecutedOver(s, cs, k);
    }
    NonePositive(over);
  }

  lemma OnlyOver(s: State, cs: u64, k: TbKey)
    requires ExecutedOver(s, cs, k) && forall j | ExecutedOver(s, cs, j) :: j == k
    ensures ExecWhere(s, OverAddr(cs)) == Exec(s, k)
  {
    var totals, p := ExecTotals(s), Keyed(s.tbs, OverAddr(cs));
    assert p(k);
    SumIfRemove(totals, k, p);
    var others := Where(totals - {k}, p);
    forall j | j in others ensures others[j] == 0 {
      assert !ExecutedOver(s, cs, j);
    }
    NonePositive(others);
  }

  // ---- Answers ----

  /** What the lookup answers if it picks block `k`. */
  ghost function AnswerOf(s: State, cs: u64, k: TbKey): nat
    requires k in s.tbs
  {
    if cs <= End(s.tbs[k]) then Exec(s, k) else 0
  }

  lemma PicksLast(s: State, index: seq<Entry>, cs: u64, n: nat) returns (k: TbKey)
    requires Indexes(index, s) && Answers(index, cs, n) && exists j :: j in s.tbs && Start(s.tbs[j]) <= cs
    ensures StartsLast(s, cs, k) && n == AnswerOf(s, cs, k)
  {
    SomeStarts(s, index, cs);
    var e :| e in index && e.start <= cs && (forall f | f in index && f.start <= cs :: f.start <= e.start)
             && n == if cs <= e.end then e.exec else 0;
    k :| k in s.tbs && EntryOf(s.tbs, ExecTotals(s), k) == e;
    LastEntryStartsLast(s, index, cs, k);
  }

  lemma SomeStarts(s: State, index: seq<Entry>, cs: u64)
    requires Indexes(index, s) && exists j :: j in s.tbs && Start(s.tbs[j]) <= cs
    ensures !forall e | e in index :: cs < e.start
  {
    var j :| j in s.tbs && Start(s.tbs[j]) <= cs;
    assert EntryOf(s.tbs, ExecTotals(s), j) in index;
  }

  lemma LastEntryStartsLast(s: State, index: seq<Entry>, cs: u64, k: TbKey)
    requires Indexes(index, s) && k in s.tbs && Start(s.tbs[k]) <= cs
    requires forall f | f in index && f.start <= cs :: f.start <= Start(s.tbs[k])
    ensures StartsLast(s, cs, k)
  {
    forall i | i in s.tbs && Start(s.tbs[i]) <= cs ensures Start(s.tbs[i]) <= Start(s.tbs[k]) {
      assert EntryOf(s.tbs, ExecTotals(s), i) in index;
    }
  }

  lemma MayPick(s: State, index: seq<Entry>, cs: u64, k: TbKey)
    requires Indexes(index, s) && StartsLast(s, cs, k)
    ensures Answers(index, cs, AnswerOf(s, cs, k))
  {
    var e := EntryOf(s.tbs, ExecTotals(s), k);
    assert e in index;
    forall f | f in index && f.start <= cs ensures f.start <= e.start {
      var j :| j in s.tbs && EntryOf(s.tbs, ExecTotals(s), j) == f;
    }
  }

  /** An answer is never too large. */
  lemma AnswerAtMostTruth(s: State, index: seq<Entry>, cs: u64, n: nat)
    requires Indexes(index, s) && Answers(index, cs, n)
    ensures n <= ExecWhere(s, OverAddr(cs))
  {
    if n != 0 {
      NonzeroAnswerIsCovering(index, cs, n);
      var e :| e in index && Covers(e, cs) && e.exec == n;
      var k :| k in s.tbs && EntryOf(s.tbs, ExecTotals(s), k) == e;
      OneOver(s, cs, k);
    }
  }

  lemma LastStarts(s: State, cs: u64, k: TbKey) returns (j: TbKey)
    requires k in s.tbs && Start(s.tbs[k]) <= cs
    ensures StartsLast(s, cs, j)
    decreases cs - Start(s.tbs[k])
  {
    if StartsLast(s, cs, k) {
      j := k;
    } else {
      var i :| i in s.tbs && Start(s.tbs[k]) < Start(s.tbs[i]) <= cs;
      j := LastStarts(s, cs, i);
    }
  }

  /** If every answer is right, the callsite is not shadowed. */
  lemma RightAnswersUnshadowed(s: State, index: seq<Entry>, cs: u64, k: TbKey)
    requires Indexes(index, s) && ExecutedOver(s, cs, k)
    requires forall n | Answers(index, cs, n) :: n == ExecWhere(s, OverAddr(cs))
    ensures Unshadowed(s, cs)
  {
    OneOver(s, cs, k);
    var j := LastStarts(s, cs, k);
    MayPick(s, index, cs, j);
    assert ExecutedOver(s, cs, j);
    forall i | ExecutedOver(s, cs, i) ensures i == j {
      if i != j {
        TwoOver(s, cs, i, j);
      }
    }
    forall i | i in s.tbs && Start(s.tbs[i]) == Start(s.tbs[j]) ensures i == j {
      MayPick(s, index, cs, i);
      assert ExecutedOver(s, cs, i);
    }
    assert OnlyAnswer(s, cs, j);
  }

  lemma UnshadowedAnswer(s: State, index: seq<Entry>, cs: u64, n: nat)
    requires Indexes(index, s) && Answers(index, cs, n) && Unshadowed(s, cs)
    ensures n == ExecWhere(s, OverAddr(cs))
  {
    if forall k :: !ExecutedOver(s, cs, k) {
      NoneOver(s, cs);
      AnswerAtMostTruth(s, index, cs, n);
    } else {
      var k :| OnlyAnswer(s, cs, k);
      OnlyOver(s, cs, k);
      var j := PicksLast(s, index, cs, n);
    }
  }

  /**
     Whatever order the sort leaves equal starts in, the answer is right if and only if the callsite is not
     shadowed.
   */
  lemma AnswersExact(s: State, index: seq<Entry>, cs: u64)
    requires Indexes(index, s)
    ensures (forall n | Answers(index, cs, n) :: n == ExecWhere(s, OverAddr(cs))) <==> Unshadowed(s, cs)
  {
    if Unshadowed(s, cs) {
      forall n | Answers(index, cs, n) ensures n == ExecWhere(s, OverAddr(cs)) {
        UnshadowedAnswer(s, index, cs, n);
      }
    } else {
      var k :| ExecutedOver(s, cs, k);
      if forall n | Answers(index, cs, n) :: n == ExecWhere(s, OverAddr(cs)) {
        RightAnswersUnshadowed(s, index, cs, k);
      }
    }
  }

  /**
     With different starts, an answer is right if and only if no executed block over the callsite is hidden by a
     later one.
   */
  lemma ExactForDifferentStarts(s: State, index: seq<Entry>, cs: u64, n: nat)
    requires Indexes(index, s) && Answers(index, cs, n) && DifferentStarts(s.tbs)
    ensures n == ExecWhere(s, OverAddr(cs)) <==> OnlyLastExecuted(s, cs)
  {
    if k :| ExecutedOver(s, cs, k) {
      var j := PicksLast(s, index, cs, n);
      OneOver(s, cs, k);
      if OnlyLastExecuted(s, cs) {
        OnlyOver(s, cs, k);
      } else {
        var i :| ExecutedOver(s, cs, i) && !StartsLast(s, cs, i);
        OneOver(s, cs, i);
        if ExecutedOver(s, cs, j) {
          TwoOver(s, cs, i, j);
        }
      }
    } else {
      NoneOver(s, cs);
      AnswerAtMostTruth(s, index, cs, n);
    }
  }
}
