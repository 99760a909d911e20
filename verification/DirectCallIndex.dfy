/** Execution counts for direct calls: a sorted index of blocks, searched by callsite. */
module DirectCallIndex {
  import opened Words
  import opened GuestTrace
  import opened Counting
  import Sorting

  datatype Entry = Entry(start: u64, end: u64, exec: nat)

  ghost function EntryOf(tbs: map<TbKey, Tb>, totals: map<TbKey, nat>, k: TbKey): Entry
    requires k in tbs
  {
    Entry(Start(tbs[k]), End(tbs[k]), Get(totals, k))
  }

  function ByStart(): Entry -> int {
    (e: Entry) => e.start
  }

  ghost predicate SortedIndex(index: seq<Entry>) {
    forall i, j | 0 <= i < j < |index| :: index[i].start <= index[j].start
  }

  /** The entry lies over the callsite, both ends included. */
  predicate Covers(e: Entry, cs: u64) {
    e.start <= cs <= e.end
  }

  ghost predicate Disjoint(index: seq<Entry>) {
    forall e, f, cs | e in index && f in index && Covers(e, cs) && Covers(f, cs) :: e == f
  }

  /**
     What one lookup may answer: the count of a block with the last start at or before the callsite, if it covers
     it.
   */
  ghost predicate Answers(index: seq<Entry>, cs: u64, n: nat) {
    if forall e | e in index :: cs < e.start then n == 0
    else
      exists e | e in index ::
        && e.start <= cs && (forall f | f in index && f.start <= cs :: f.start <= e.start)
        && n == if cs <= e.end then e.exec else 0
  }

  method BuildIndex(tbs: map<TbKey, Tb>, totals: map<TbKey, nat>) returns (index: seq<Entry>)
    ensures SortedIndex(index)
    ensures forall e :: e in index <==> exists k | k in tbs :: EntryOf(tbs, totals, k) == e
  {
    var entries: seq<Entry> := [];
    var rest := tbs.Keys;
    while rest != {}
      invariant rest <= tbs.Keys
      invariant forall e :: e in entries <==> exists k | k in tbs && k !in rest :: EntryOf(tbs, totals, k) == e
      decreases |rest|
    {
      var k :| k in rest;
      entries := entries + [Entry(Start(tbs[k]), End(tbs[k]), Get(totals, k))];
      rest := rest - {k};
    }
    index := Sorting.SortByKey(entries, ByStart());
    Sorting.PermutationKeepsMembers(entries, index);
    forall i, j | 0 <= i < j < |index| ensures index[i].start <= index[j].start {
      assert ByStart()(index[i]) <= ByStart()(index[j]);
    }
  }

  /** Binary search for the first block that starts after the callsite. */
  method PartitionPoint(index: seq<Entry>, cs: u64) returns (idx: nat)
    requires SortedIndex(index)
    ensures idx <= |index|
    ensures forall i | 0 <= i < idx :: index[i].start <= cs
    ensures forall i | idx <= i < |index| :: cs < index[i].start
  {
    var lo, hi := 0, |index|;
    while lo < hi
      invariant 0 <= lo <= hi <= |index|
      invariant forall i | 0 <= i < lo :: index[i].start <= cs
      invariant forall i | hi <= i < |index| :: cs < index[i].start
    {
      var mid := (lo + hi) / 2;
      if index[mid].start <= cs {
        lo := mid + 1;
      } else {
        hi := mid;
      }
    }
    idx := lo;
  }

  method CallCount(index: seq<Entry>, cs: u64) returns (n: nat)
    requires SortedIndex(index)
    ensures Answers(index, cs, n)
  {
    var idx := PartitionPoint(index, cs);
    if idx > 0 {
      LastBeforeAnswers(index, cs, idx);
      var e := index[idx - 1];
      if cs <= e.end {
        n := e.exec;
      } else {
        n := 0;
      }
    } else {
      n := 0;
    }
  }

  lemma LastBeforeAnswers(index: seq<Entry>, cs: u64, idx: nat)
    requires SortedIndex(index) && 0 < idx <= |index|
    requires index[idx - 1].start <= cs && forall i | idx <= i < |index| :: cs < index[i].start
    ensures Answers(index, cs, if cs <= index[idx - 1].end then index[idx - 1].exec else 0)
  {
    var e := index[idx - 1];
    assert e in index;
    forall f | f in index && f.start <= cs ensures f.start <= e.start {
      var i :| 0 <= i < |index| && index[i] == f;
    }
  }

  /** With disjoint blocks the answer is the count of the one block over the callsite, or 0 if there is none. */
  lemma LookupRefinesScan(index: seq<Entry>, cs: u64, n: nat)
    requires Disjoint(index) && Answers(index, cs, n)
    requires forall e | e in index :: e.start <= e.end
    ensures forall e | e in index && Covers(e, cs) :: n == e.exec
    ensures (forall e | e in index :: !Covers(e, cs)) ==> n == 0
  {
    forall e | e in index && Covers(e, cs) ensures n == e.exec {
      var f :| f in index && f.start <= cs && (forall g | g in index && g.start <= cs :: g.start <= f.start)
               && n == if cs <= f.end then f.exec else 0;
      assert Covers(e, f.start) && Covers(f, f.start);
    }
  }

  /** In any case a nonzero answer is the count of some block over the callsite. */
  lemma NonzeroAnswerIsCovering(index: seq<Entry>, cs: u64, n: nat)
    requires Answers(index, cs, n) && n != 0
    ensures exists e | e in index :: Covers(e, cs) && e.exec == n
  {
  }
}
