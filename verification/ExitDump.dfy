/** The exit handler's computations, on the values it reads. */
module ExitDump {
  import opened Words
  import opened Counting
  import opened EdgeStorage
  import opened GuestTrace
  import opened Profiler
  import opened EdgeLaws
  import opened ExecLaws
  import opened FirstSeenLaws
  import opened FallThroughLaws
  import opened LogFormat
  import opened EndToEnd
  import DirectCallIndex

  // ---- Edges: drained lists, merged ----

  /** `batches[v]` lists what vCPU `v` has accumulated. */
  ghost predicate DrainsAll(batches: seq<seq<EdgeRecord>>, vcpus: seq<Vcpu>) {
    && |batches| == |vcpus|
    && forall v | 0 <= v < |vcpus| :: vcpus[v].flight.None? && Enumerates(batches[v], vcpus[v].edges)
  }

  lemma {:induction false} DrainedTotals(batches: seq<seq<EdgeRecord>>, vcpus: seq<Vcpu>, q: Edge -> bool)
    requires DrainsAll(batches, vcpus)
    ensures TotalIf(Flatten(batches), q) == SumBy(vcpus, Holds(q))
    decreases |vcpus|
  {
    if vcpus != [] {
      var n := |vcpus| - 1;
      assert vcpus == vcpus[..n] + [vcpus[n]];
      DrainedTotals(batches[..n], vcpus[..n], q);
      SumByAppend(vcpus[..n], vcpus[n], Holds(q));
      TotalIfAppend(Flatten(batches[..n]), batches[n], q);
      EnumerationTotals(batches[n], vcpus[n].edges, q);
    }
  }

  lemma MergedTotals(all: seq<EdgeRecord>, merged: seq<EdgeRecord>, q: Edge -> bool)
    requires Enumerates(merged, Tally(all))
    ensures TotalIf(merged, q) == TotalIf(all, q)
  {
    EnumerationTotals(merged, Tally(all), q);
    TallyTotals(all, q);
  }

  lemma FitsByTotals(batch: seq<EdgeRecord>)
    requires forall e :: TotalIf(batch, Is(e)) < TWO_64
    ensures AllFit(batch)
  {
    forall i | 0 <= i < |batch| ensures Fits(batch[i]) {
      TotalIfMember(batch, batch[i], Is(batch[i].Key()));
    }
  }

  lemma MergesDrained(s: State, batches: seq<seq<EdgeRecord>>, edges: seq<EdgeRecord>)
    requires DrainsAll(batches, s.vcpus) && Enumerates(edges, Tally(Flatten(batches)))
    ensures MergesAccumulators(s, edges)
  {
    forall a: u64 ensures TotalIf(edges, EntersAt(a)) == SumBy(s.vcpus, Holds(EntersAt(a))) {
      DrainedTotals(batches, s.vcpus, EntersAt(a));
      MergedTotals(Flatten(batches), edges, EntersAt(a));
    }
    forall e: Edge ensures TotalIf(edges, Is(e)) == SumBy(s.vcpus, Holds(Is(e))) {
      DrainedTotals(batches, s.vcpus, Is(e));
      MergedTotals(Flatten(batches), edges, Is(e));
    }
  }

  lemma EdgesFit(c: Config, t: Trace, states: seq<State>, edges: seq<EdgeRecord>)
    requires c.tier >= 1 && Execution(c, t, states) && |t| < TWO_64 && MergesAccumulators(states[|t|], edges)
    ensures AllFit(edges)
  {
    forall e: Edge ensures TotalIf(edges, Is(e)) < TWO_64 {
      TakenBranchesConserved(c, t, states, Is(e));
      CountAtMostLength(t, Taken(Is(e)));
    }
    FitsByTotals(edges);
  }

  lemma FallsFit(c: Config, t: Trace, states: seq<State>, edges: seq<EdgeRecord>, falls: seq<EdgeRecord>)
    requires Execution(c, t, states) && |t| < TWO_64 && ExitFallThroughs(states[|t|], edges, falls)
    ensures AllFit(falls)
  {
    FallsFitTotals(c, t, states, edges, falls);
    FitsByTotals(falls);
  }

  // ---- Blocks ----

  lemma TotalsAreSmall(c: Config, t: Trace, states: seq<State>, k: TbKey)
    requires Execution(c, t, states) && k in states[|t|].tbs
    ensures TotalExec(states[|t|], k) <= |t| && Get(states[|t|].firstSeen, k) <= |t|
  {
    TotalExecIsEntries(c, t, states, k);
    CountAtMostLength(t, Entered(HasKey(k)));
    NumbersAreFirstRuns(c, t, states);
    DrawnShort(t);
  }

  lemma {:induction false} DrawnShort(t: Trace)
    ensures |Drawn(t)| <= |t|
  {
    if t != [] {
      DrawnShort(t[..|t| - 1]);
    }
  }

  /** Sums every block's counter over the vCPUs. */
  method SumAllCounters(tbs: map<TbKey, Tb>, execs: seq<map<TbKey, nat>>) returns (totals: map<TbKey, nat>)
    ensures totals.Keys == tbs.Keys
    ensures forall k | k in tbs :: totals[k] == SumBy(execs, CountOf(k))
  {
    totals := map[];
    var rest := tbs.Keys;
    while rest != {}
      invariant rest <= tbs.Keys && totals.Keys == tbs.Keys - rest
      invariant forall k | k in totals :: totals[k] == SumBy(execs, CountOf(k))
      decreases |rest|
    {
      var k :| k in rest;
      var n := SumCounter(execs, k);
      totals := totals[k := n];
      rest := rest - {k};
    }
  }

  ghost function CountOf(k: TbKey): map<TbKey, nat> -> nat {
    (m: map<TbKey, nat>) => Get(m, k)
  }

  method SumCounter(execs: seq<map<TbKey, nat>>, k: TbKey) returns (n: nat)
    ensures n == SumBy(execs, CountOf(k))
  {
    n := 0;
    for v := 0 to |execs|
      invariant n == SumBy(execs[..v], CountOf(k))
    {
      assert execs[..v + 1] == execs[..v] + [execs[v]];
      SumByAppend(execs[..v], execs[v], CountOf(k));
      n := n + Get(execs[v], k);
    }
    assert execs[..|execs|] == execs;
  }

  lemma {:induction false} SlicesSum(execs: seq<map<TbKey, nat>>, vcpus: seq<Vcpu>, k: TbKey)
    requires |execs| == |vcpus| && forall v | 0 <= v < |vcpus| :: execs[v] == vcpus[v].exec
    ensures SumBy(execs, CountOf(k)) == SumBy(vcpus, ExecOf(k))
  {
    if execs != [] {
      assert execs[0] == vcpus[0].exec;
      SlicesSum(execs[1..], vcpus[1..], k);
    }
  }

  /** One record per known block, in hash order. */
  method ListBlocks(tbs: map<TbKey, Tb>, totals: map<TbKey, nat>, firstSeen: map<TbKey, nat>)
      returns (keys: seq<TbKey>, records: seq<TbExec>)
    requires totals.Keys == tbs.Keys
    requires forall k | k in tbs :: totals[k] < TWO_64 && Get(firstSeen, k) < TWO_64
    ensures |keys| == |records| && Distinct(keys)
    ensures forall k :: k in tbs <==> k in keys
    ensures forall i | 0 <= i < |keys| :: keys[i] in tbs && records[i] == RecordOf(tbs, totals, firstSeen, keys[i])
  {
    keys, records := [], [];
    var rest := tbs.Keys;
    while rest != {}
      invariant rest <= tbs.Keys && |keys| == |records| && Distinct(keys)
      invariant forall k :: k in tbs && k !in rest <==> k in keys
      invariant forall i | 0 <= i < |keys| :: keys[i] in tbs && records[i] == RecordOf(tbs, totals, firstSeen, keys[i])
      decreases |rest|
    {
      var k :| k in rest;
      keys := keys + [k];
      records := records + [RecordOf(tbs, totals, firstSeen, k)];
      rest := rest - {k};
    }
  }

  function RecordOf(tbs: map<TbKey, Tb>, totals: map<TbKey, nat>, firstSeen: map<TbKey, nat>, k: TbKey): TbExec
    requires k in tbs && k in totals && totals[k] < TWO_64 && Get(firstSeen, k) < TWO_64
  {
    TbExec(Start(tbs[k]), End(tbs[k]), k.nInsns, totals[k], Get(firstSeen, k))
  }

  // ---- Calls ----

  /** One record per direct call, counted by its callsite's block. */
  method ListDirects(tbs: map<TbKey, Tb>, totals: map<TbKey, nat>, calls: set<Edge>)
      returns (directs: seq<CallRecord>, ghost index: seq<DirectCallIndex.Entry>)
    ensures |directs| == |calls| && DistinctEdges(directs)
    ensures forall i | 0 <= i < |directs| :: directs[i].Key() in calls
    ensures DirectCallIndex.SortedIndex(index)
    ensures forall e :: e in index <==> exists k | k in tbs :: DirectCallIndex.EntryOf(tbs, totals, k) == e
    ensures forall i | 0 <= i < |directs| :: DirectCallIndex.Answers(index, directs[i].from, directs[i].count)
  {
    var ix := DirectCallIndex.BuildIndex(tbs, totals);
    index := ix;
    directs := [];
    var rest := calls;
    while rest != {}
      invariant rest <= calls && |directs| + |rest| == |calls| && DistinctEdges(directs)
      invariant forall i | 0 <= i < |directs| :: directs[i].Key() in calls && directs[i].Key() !in rest
      invariant forall i | 0 <= i < |directs| :: DirectCallIndex.Answers(ix, directs[i].from, directs[i].count)
      decreases |rest|
    {
      var call :| call in rest;
      var n := DirectCallIndex.CallCount(ix, call.from);
      directs := directs + [EdgeRecord(call.from, call.to, n)];
      rest := rest - {call};
    }
  }

  lemma DirectsFit(index: seq<DirectCallIndex.Entry>, directs: seq<CallRecord>)
    requires forall e | e in index :: e.exec < TWO_64
    requires forall i | 0 <= i < |directs| :: DirectCallIndex.Answers(index, directs[i].from, directs[i].count)
    ensures AllFit(directs)
  {
    forall i | 0 <= i < |directs| ensures Fits(directs[i]) {
      if directs[i].count != 0 {
        DirectCallIndex.NonzeroAnswerIsCovering(index, directs[i].from, directs[i].count);
      }
    }
  }

  /** The vCPUs' indirect-call maps, merged. */
  method MergeIndirects(maps: seq<EdgeCounts>) returns (merged: seq<CallRecord>)
    ensures DistinctEdges(merged)
    ensures forall e :: TotalIf(merged, Is(e)) == SumBy(maps, TotalOf(Is(e)))
  {
    var all: seq<CallRecord> := [];
    for v := 0 to |maps|
      invariant forall e :: TotalIf(all, Is(e)) == SumBy(maps[..v], TotalOf(Is(e)))
    {
      var entries := ListEntries(maps[v]);
      forall e: Edge ensures TotalIf(all + entries, Is(e)) == SumBy(maps[..v + 1], TotalOf(Is(e))) {
        assert maps[..v + 1] == maps[..v] + [maps[v]];
        SumByAppend(maps[..v], maps[v], TotalOf(Is(e)));
        TotalIfAppend(all, entries, Is(e));
        EnumerationTotals(entries, maps[v], Is(e));
      }
      all := all + entries;
    }
    assert maps[..|maps|] == maps;
    merged := MergeEntries(all);
    forall e: Edge ensures TotalIf(merged, Is(e)) == SumBy(maps, TotalOf(Is(e))) {
      MergedTotals(all, merged, Is(e));
    }
  }

  ghost function TotalOf(q: Edge -> bool): EdgeCounts -> nat {
    (m: EdgeCounts) => SumIf(m, q)
  }

  lemma {:induction false} IndirectSlices(maps: seq<EdgeCounts>, vcpus: seq<Vcpu>, q: Edge -> bool)
    requires |maps| == |vcpus| && forall v | 0 <= v < |vcpus| :: maps[v] == vcpus[v].indirect
    ensures SumBy(maps, TotalOf(q)) == SumBy(vcpus, IndirectOf(q))
  {
    if maps != [] {
      assert maps[0] == vcpus[0].indirect;
      IndirectSlices(maps[1..], vcpus[1..], q);
    }
  }

  lemma IndirectsFit(c: Config, t: Trace, states: seq<State>, indirects: seq<CallRecord>)
    requires c.tier >= 2 && Execution(c, t, states) && |t| < TWO_64 && ListsIndirects(states[|t|], indirects)
    ensures AllFit(indirects)
  {
    forall e: Edge ensures TotalIf(indirects, Is(e)) < TWO_64 {
      IndirectRelayIsExact(c, t, states, Is(e));
      CountAtMostLength(t, IndirectTaken(Is(e)));
    }
    FitsByTotals(indirects);
  }
}
