/**
 Per-vCPU edge accumulators: the bounded Top-N table and the streaming map.
 The source wraps each storage in a one-field struct below an enum; here the accumulator
 holds the map itself and dispatches on `streaming`.
 */
module EdgeStorage {
  import opened Counting
  import opened Words
  import Sorting

  /** A branch edge between two addresses. */
  datatype Edge = Edge(from: u64, to: u64)

  type EdgeCounts = map<Edge, nat>

  /** An edge with its count, as drained, logged and parsed. */
  datatype EdgeRecord = EdgeRecord(from: u64, to: u64, count: nat) {
    function Key(): Edge {
      Edge(from, to)
    }
  }

  ghost function Is(e: Edge): Edge -> bool {
    (x: Edge) => x == e
  }

  ghost function EntersAt(a: u64): Edge -> bool {
    (x: Edge) => x.to == a
  }

  ghost function LeavesFrom(a: u64): Edge -> bool {
    (x: Edge) => x.from == a
  }

  /** The summed counts of the records whose edge satisfies `q`. */
  ghost function TotalIf(batch: seq<EdgeRecord>, q: Edge -> bool): nat {
    if batch == [] then 0
    else (if q(batch[0].Key()) then batch[0].count else 0) + TotalIf(batch[1..], q)
  }

  lemma {:induction false} TotalIfAppend(a: seq<EdgeRecord>, b: seq<EdgeRecord>, q: Edge -> bool)
    ensures TotalIf(a + b, q) == TotalIf(a, q) + TotalIf(b, q)
  {
    if a == [] {
      assert a + b == b;
    } else {
      assert (a + b)[1..] == a[1..] + b;
      TotalIfAppend(a[1..], b, q);
    }
  }

  ghost predicate DistinctEdges(batch: seq<EdgeRecord>) {
    forall i, j | 0 <= i < j < |batch| :: batch[i].Key() != batch[j].Key()
  }

  /** `batch` lists the entries of `m`, once each, in some order. */
  ghost predicate Enumerates(batch: seq<EdgeRecord>, m: EdgeCounts) {
    && |batch| == |m|
    && (forall i | 0 <= i < |batch| :: batch[i].Key() in m && m[batch[i].Key()] == batch[i].count)
    && DistinctEdges(batch)
  }

  lemma {:induction false} EnumerationTotals(batch: seq<EdgeRecord>, m: EdgeCounts, q: Edge -> bool)
    requires Enumerates(batch, m)
    ensures TotalIf(batch, q) == SumIf(m, q)
    decreases |batch|
  {
    if batch == [] {
      assert m == map[];
      SumIfEmpty(q);
    } else {
      var k := batch[0].Key();
      assert (m - {k}).Keys == m.Keys - {k};
      assert Enumerates(batch[1..], m - {k});
      EnumerationTotals(batch[1..], m - {k}, q);
      SumIfRemove(m, k, q);
    }
  }

  lemma {:induction false} EnumerationCovers(batch: seq<EdgeRecord>, m: EdgeCounts, e: Edge)
    requires Enumerates(batch, m) && e in m
    ensures EdgeRecord(e.from, e.to, m[e]) in batch
    decreases |batch|
  {
    var k := batch[0].Key();
    if k != e {
      assert (m - {k}).Keys == m.Keys - {k};
      assert Enumerates(batch[1..], m - {k});
      EnumerationCovers(batch[1..], m - {k}, e);
    }
  }

  lemma SumIfOneEdge(m: EdgeCounts, e: Edge)
    ensures SumIf(m, Is(e)) == Get(m, e)
  {
    if e in m {
      assert Where(m, Is(e)) == map[e := m[e]];
      SumRemove(Where(m, Is(e)), e);
      assert Where(m, Is(e)) - {e} == map[];
    } else {
      assert Where(m, Is(e)) == map[];
    }
  }

  lemma {:induction false} TotalIfMember(batch: seq<EdgeRecord>, r: EdgeRecord, q: Edge -> bool)
    requires r in batch && q(r.Key())
    ensures r.count <= TotalIf(batch, q)
  {
    if batch[0] != r {
      TotalIfMember(batch[1..], r, q);
    }
  }

  /** The edge map built by adding a list's records one by one. */
  function Tally(batch: seq<EdgeRecord>): EdgeCounts {
    if batch == [] then map[]
    else Bump(Tally(batch[..|batch| - 1]), batch[|batch| - 1].Key(), batch[|batch| - 1].count)
  }

  lemma {:induction false} TallyTotals(batch: seq<EdgeRecord>, q: Edge -> bool)
    ensures SumIf(Tally(batch), q) == TotalIf(batch, q)
  {
    if batch == [] {
      SumIfEmpty(q);
    } else {
      var front, r := batch[..|batch| - 1], batch[|batch| - 1];
      assert batch == front + [r];
      TallyTotals(front, q);
      TotalIfAppend(front, [r], q);
      SumIfBump(Tally(front), r.Key(), r.count, q);
    }
  }

  /** Merges duplicate edges; the result lists each edge once, in hash order. */
  method MergeEntries(batch: seq<EdgeRecord>) returns (merged: seq<EdgeRecord>)
    ensures Enumerates(merged, Tally(batch))
  {
    var m: EdgeCounts := map[];
    for i := 0 to |batch|
      invariant m == Tally(batch[..i])
    {
      assert batch[..i + 1][..i] == batch[..i];
      m := Bump(m, batch[i].Key(), batch[i].count);
    }
    assert batch[..|batch|] == batch;
    merged := ListEntries(m);
  }

  /** What pruning may do: keep the `capacity` hottest entries, breaking ties either way. */
  ghost predicate Pruned(before: EdgeCounts, after: EdgeCounts, capacity: nat) {
    if |before| <= capacity then
      after == before
    else
      && |after| == capacity
      && (forall e | e in after :: e in before && after[e] == before[e])
      && (forall kept, lost | kept in after && lost in before && lost !in after :: before[lost] <= before[kept])
  }

  /** One Top-N record: count the edge, then prune when the table exceeds twice its capacity. */
  ghost predicate TopNRecorded(before: EdgeCounts, e: Edge, after: EdgeCounts, capacity: nat) {
    var bumped := Bump(before, e, 1);
    if |bumped| > capacity * 2 then Pruned(bumped, after, capacity) else after == bumped
  }

  /** One record in either mode. */
  ghost predicate Recorded(streaming: bool, before: EdgeCounts, e: Edge, after: EdgeCounts, capacity: nat) {
    if streaming then after == Bump(before, e, 1) else TopNRecorded(before, e, after, capacity)
  }

  /** Lists a table's entries in the order the hash map yields them, that is, in any order. */
  method ListEntries(m: EdgeCounts) returns (entries: seq<EdgeRecord>)
    ensures Enumerates(entries, m)
  {
    entries := [];
    var rest := m;
    while rest != map[]
      invariant rest.Keys <= m.Keys && forall e | e in rest :: rest[e] == m[e]
      invariant |entries| + |rest| == |m|
      invariant forall i | 0 <= i < |entries| ::
          entries[i].Key() in m && m[entries[i].Key()] == entries[i].count && entries[i].Key() !in rest
      invariant DistinctEdges(entries)
      decreases |rest|
    {
      var e :| e in rest;
      assert (rest - {e}).Keys == rest.Keys - {e};
      entries := entries + [EdgeRecord(e.from, e.to, rest[e])];
      rest := rest - {e};
    }
  }

  /** The inverse of a drain: collects distinct entries into a map. */
  method CollectEntries(entries: seq<EdgeRecord>) returns (m: EdgeCounts)
    requires DistinctEdges(entries)
    ensures Enumerates(entries, m)
  {
    m := map[];
    for i := 0 to |entries|
      invariant Enumerates(entries[..i], m)
    {
      var e := entries[i].Key();
      assert e !in m by {
        if e in m {
          EnumerationCovers(entries[..i], m, e);
        }
      }
      assert m[e := entries[i].count].Keys == m.Keys + {e};
      assert entries[..i + 1] == entries[..i] + [entries[i]];
      m := m[e := entries[i].count];
    }
    assert entries[..|entries|] == entries;
  }

  /** The sort key of a prune: counts in descending order. */
  function HottestFirst(): EdgeRecord -> int {
    (r: EdgeRecord) => 0 - r.count
  }

  class EdgeAccumulator {
    const capacity: nat
    const streaming: bool
    var edges: EdgeCounts

    constructor (capacity: nat, streaming: bool)
      ensures this.capacity == capacity && this.streaming == streaming && edges == map[]
    {
      this.capacity := capacity;
      this.streaming := streaming;
      edges := map[];
    }

    /** Records one taken branch, in whichever storage was configured. */
    method Record(from: u64, to: u64)
      modifies this
      ensures Recorded(streaming, old(edges), Edge(from, to), edges, capacity)
    {
      edges := Bump(edges, Edge(from, to), 1);
      if !streaming && |edges| > capacity * 2 {
        Prune();
      }
    }

    /** Sorts by count, hottest first, and keeps the first `capacity` entries. */
    method Prune()
      modifies this
      ensures Pruned(old(edges), edges, capacity)
    {
      if |edges| <= capacity {
        return;
      }
      var entries := ListEntries(edges);
      var sorted := Sorting.SortByKey(entries, HottestFirst());
      Sorting.PermutationKeepsMembers(entries, sorted);
      assert forall i, j | 0 <= i < j < |entries| :: entries[i] != entries[j] by {
        forall i, j | 0 <= i < j < |entries| ensures entries[i] != entries[j] {
          assert entries[i].Key() != entries[j].Key();
        }
      }
      Sorting.PermutationKeepsDistinct(entries, sorted);
      SortedEnumeration(entries, sorted, edges);
      edges := CollectEntries(sorted[..capacity]);
      KeepsHottest(old(edges), sorted, edges, capacity);
    }

    method Drain() returns (batch: seq<EdgeRecord>)
      modifies this
      ensures Enumerates(batch, old(edges)) && edges == map[]
    {
      batch := ListEntries(edges);
      edges := map[];
    }

    predicate ShouldFlush(threshold: nat)
      reads this
    {
      streaming && |edges| >= threshold
    }
  }

  lemma SortedEnumeration(entries: seq<EdgeRecord>, sorted: seq<EdgeRecord>, m: EdgeCounts)
    requires Enumerates(entries, m) && |sorted| == |entries|
    requires forall r :: r in entries <==> r in sorted
    requires forall i, j | 0 <= i < j < |sorted| :: sorted[i] != sorted[j]
    ensures Enumerates(sorted, m)
  {
    forall i | 0 <= i < |sorted| ensures sorted[i].Key() in m && m[sorted[i].Key()] == sorted[i].count {
      assert sorted[i] in entries;
    }
    forall i, j | 0 <= i < j < |sorted| ensures sorted[i].Key() != sorted[j].Key() {
      assert sorted[i] != sorted[j];
    }
  }

  lemma KeepsHottest(before: EdgeCounts, sorted: seq<EdgeRecord>, after: EdgeCounts, capacity: nat)
    requires capacity < |before|
    requires Enumerates(sorted, before)
    requires Sorting.SortedBy(sorted, HottestFirst())
    requires Enumerates(sorted[..capacity], after)
    ensures Pruned(before, after, capacity)
  {
    forall e | e in after ensures e in before && after[e] == before[e] {
      EnumerationCovers(sorted[..capacity], after, e);
      var i :| 0 <= i < capacity && sorted[..capacity][i] == EdgeRecord(e.from, e.to, after[e]);
      assert sorted[i].Key() == e;
    }
    forall kept, lost | kept in after && lost in before && lost !in after ensures before[lost] <= before[kept] {
      EnumerationCovers(sorted[..capacity], after, kept);
      var i :| 0 <= i < capacity && sorted[..capacity][i] == EdgeRecord(kept.from, kept.to, after[kept]);
      EnumerationCovers(sorted, before, lost);
      var j :| 0 <= j < |sorted| && sorted[j] == EdgeRecord(lost.from, lost.to, before[lost]);
      assert forall i | 0 <= i < capacity :: sorted[..capacity][i].Key() in after;
      assert capacity <= j;
      assert HottestFirst()(sorted[i]) <= HottestFirst()(sorted[j]);
    }
  }
}
