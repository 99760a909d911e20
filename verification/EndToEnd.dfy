/** From executed blocks to the parsed profile: the run, the exit dump, the log and the parser together. */
module EndToEnd {
  import opened Words
  import opened Counting
  import opened EdgeStorage
  import opened GuestTrace
  import opened Profiler
  import opened ControlLaws
  import opened EdgeLaws
  import opened ExecLaws
  import opened FirstSeenLaws
  import opened FallThroughs
  import opened FallThroughLaws
  import opened LogFormat
  import opened NativeParser
  import opened LogRoundTrip
  import opened LogLaws
  import DirectCallIndex
  import opened DirectCallLaws

  /** What the exit handler writes; `keys` says which block each TB record is for. */
  datatype Dump = Dump(
    keys: seq<TbKey>, tbs: seq<TbExec>,
    edges: seq<EdgeRecord>, falls: seq<EdgeRecord>,
    directs: seq<CallRecord>, indirects: seq<CallRecord>)

  ghost predicate ListsBlocks(s: State, keys: seq<TbKey>, tbs: seq<TbExec>) {
    && |keys| == |tbs| && Distinct(keys)
    && (forall k :: k in s.tbs <==> k in keys)
    && forall i | 0 <= i < |keys| ::
         && tbs[i].start == Start(s.tbs[keys[i]]) && tbs[i].end == End(s.tbs[keys[i]])
         && tbs[i].nInsns == keys[i].nInsns
         && tbs[i].execCount == TotalExec(s, keys[i]) && tbs[i].firstSeen == Get(s.firstSeen, keys[i])
  }

  /** One record per direct call, with the count its callsite's block gives. */
  ghost predicate ListsDirects(s: State, calls: set<Edge>, directs: seq<CallRecord>) {
    && |directs| == |calls| && DistinctEdges(directs)
    && (forall i | 0 <= i < |directs| :: directs[i].Key() in calls)
    && exists index | DirectCallIndex.SortedIndex(index) && Indexes(index, s) ::
         forall i | 0 <= i < |directs| :: DirectCallIndex.Answers(index, directs[i].from, directs[i].count)
  }

  ghost predicate ListsIndirects(s: State, indirects: seq<CallRecord>) {
    DistinctEdges(indirects) && forall e :: TotalIf(indirects, Is(e)) == IndirectCalls(s, Is(e))
  }

  ghost predicate IsDump(c: Config, s: State, calls: set<Edge>, d: Dump) {
    && Quiet(s)
    && ListsBlocks(s, d.keys, d.tbs)
    && AllFit(d.edges) && AllFit(d.falls) && AllFit(d.directs) && AllFit(d.indirects)
    && (c.tier >= 1 ==>
      && DistinctEdges(d.edges) && MergesAccumulators(s, d.edges)
      && IsFallThroughDump(s.tbs, Derived(s.tbs, ExecTotals(s), d.edges, s.flushed), d.falls))
    && (c.tier >= 2 ==> ListsDirects(s, calls, d.directs) && ListsIndirects(s, d.indirects))
  }

  function EdgeCalls(c: Config, d: Dump): seq<Call> {
    if c.tier >= 1 then [BranchBatch(d.edges), FallThroughBatch(d.falls)] else []
  }

  function CallCalls(c: Config, d: Dump): seq<Call> {
    if c.tier >= 2 then [DirectCallBatch(d.directs), IndirectCallBatch(d.indirects)] else []
  }

  function ExitCalls(c: Config, d: Dump): seq<Call> {
    [TbExecBatch(d.tbs)] + EdgeCalls(c, d) + CallCalls(c, d)
  }

  /** The calls of a whole run: those made while it ran, the dump, and the footer. */
  function RunCalls(c: Config, during: seq<Call>, d: Dump, wallTime: u64): seq<Call> {
    var calls := during + ExitCalls(c, d);
    calls + [ClosingCall(calls, wallTime)]
  }

  function Flatten(batches: seq<seq<EdgeRecord>>): seq<EdgeRecord> {
    if batches == [] then [] else Flatten(batches[..|batches| - 1]) + batches[|batches| - 1]
  }

  /** The flushed batches among the calls made while the program runs. */
  function FlushedBatches(during: seq<Call>): seq<seq<EdgeRecord>> {
    if during == [] then []
    else
      var front, call := during[..|during| - 1], during[|during| - 1];
      if call.BranchBatch? then FlushedBatches(front) + [call.edges] else FlushedBatches(front)
  }

  /** While the program runs, only metadata and flushes are logged. */
  ghost predicate OnlyFlushes(during: seq<Call>, log: seq<seq<EdgeRecord>>) {
    && (forall i | 0 <= i < |during| :: during[i].StringMeta? || during[i].BranchBatch? || during[i].FlushMarker?)
    && FlushedBatches(during) == log
  }

  lemma {:induction false} FlushesMean(h: FileHeader, during: seq<Call>, log: seq<seq<EdgeRecord>>)
    requires OnlyFlushes(during, log)
    ensures var p := WithCalls(EmptyProfile(h), during);
            && p.branchEdges == Flatten(log) && p.tbExecs == [] && p.fallThroughs == []
            && p.directCalls == [] && p.indirectCalls == [] && p.footer.None?
  {
    if during != [] {
      var front, call := during[..|during| - 1], during[|during| - 1];
      assert OnlyFlushes(front, FlushedBatches(front)) by {
        assert forall i | 0 <= i < |front| :: front[i] == during[i];
      }
      FlushesMean(h, front, FlushedBatches(front));
      if call.BranchBatch? {
        assert log[..|log| - 1] == FlushedBatches(front);
      }
    }
  }

  lemma {:induction false} FlattenTotals(log: seq<seq<EdgeRecord>>, q: Edge -> bool)
    ensures TotalIf(Flatten(log), q) == LogTotal(log, q)
  {
    if log != [] {
      FlattenTotals(log[..|log| - 1], q);
      TotalIfAppend(Flatten(log[..|log| - 1]), log[|log| - 1], q);
    }
  }

  lemma WithCallsStep(p: ProfileData, calls: seq<Call>, call: Call)
    ensures WithCalls(p, calls + [call]) == WithCall(WithCalls(p, calls), call)
  {
    assert (calls + [call])[..|calls|] == calls;
  }

  /** The edge lists and call lists of a dump that its tier writes. */
  function DumpedEdges(c: Config, d: Dump): seq<EdgeRecord> {
    if c.tier >= 1 then d.edges else []
  }

  function DumpedFalls(c: Config, d: Dump): seq<EdgeRecord> {
    if c.tier >= 1 then d.falls else []
  }

  function DumpedDirects(c: Config, d: Dump): seq<CallRecord> {
    if c.tier >= 2 then d.directs else []
  }

  function DumpedIndirects(c: Config, d: Dump): seq<CallRecord> {
    if c.tier >= 2 then d.indirects else []
  }

  /** What the dump adds to a profile. */
  function WithDump(c: Config, p: ProfileData, d: Dump): ProfileData {
    p.(tbExecs := p.tbExecs + d.tbs,
       branchEdges := p.branchEdges + DumpedEdges(c, d),
       fallThroughs := p.fallThroughs + DumpedFalls(c, d),
       directCalls := p.directCalls + DumpedDirects(c, d),
       indirectCalls := p.indirectCalls + DumpedIndirects(c, d))
  }

  lemma {:induction false} WithCallsAppend(p: ProfileData, a: seq<Call>, b: seq<Call>)
    ensures WithCalls(p, a + b) == WithCalls(WithCalls(p, a), b)
    decreases |b|
  {
    if b == [] {
      assert a + b == a;
    } else {
      var n := |b| - 1;
      assert (a + b)[..|a + b| - 1] == a + b[..n];
      WithCallsAppend(p, a, b[..n]);
    }
  }

  lemma TwoCalls(p: ProfileData, x: Call, y: Call)
    ensures WithCalls(p, [x, y]) == WithCall(WithCall(p, x), y)
  {
    WithCallsStep(p, [], x);
    WithCallsStep(p, [x], y);
    assert [] + [x] == [x] && [x] + [y] == [x, y];
  }

  lemma EdgeCallsAdd(c: Config, p: ProfileData, d: Dump)
    ensures WithCalls(p, EdgeCalls(c, d)) ==
            p.(branchEdges := p.branchEdges + DumpedEdges(c, d), fallThroughs := p.fallThroughs + DumpedFalls(c, d))
  {
    if c.tier >= 1 {
      TwoCalls(p, BranchBatch(d.edges), FallThroughBatch(d.falls));
    } else {
      assert p.branchEdges + [] == p.branchEdges && p.fallThroughs + [] == p.fallThroughs;
    }
  }

  lemma CallCallsAdd(c: Config, p: ProfileData, d: Dump)
    ensures WithCalls(p, CallCalls(c, d)) ==
            p.(directCalls := p.directCalls + DumpedDirects(c, d),
                indirectCalls := p.indirectCalls + DumpedIndirects(c, d))
  {
    if c.tier >= 2 {
      TwoCalls(p, DirectCallBatch(d.directs), IndirectCallBatch(d.indirects));
    } else {
      assert p.directCalls + [] == p.directCalls && p.indirectCalls + [] == p.indirectCalls;
    }
  }

  lemma ExitCallsAdd(c: Config, p: ProfileData, during: seq<Call>, d: Dump)
    ensures WithCalls(p, during + ExitCalls(c, d)) == WithDump(c, WithCalls(p, during), d)
  {
    var q := WithCalls(p, during);
    var q1 := q.(tbExecs := q.tbExecs + d.tbs);
    WithCallsStep(p, during, TbExecBatch(d.tbs));
    var calls := during + [TbExecBatch(d.tbs)];
    WithCallsAppend(p, calls, EdgeCalls(c, d));
    EdgeCallsAdd(c, q1, d);
    var q2 := q1.(branchEdges := q1.branchEdges + DumpedEdges(c, d),
        fallThroughs := q1.fallThroughs + DumpedFalls(c, d));
    WithCallsAppend(p, calls + EdgeCalls(c, d), CallCalls(c, d));
    CallCallsAdd(c, q2, d);
    assert during + ExitCalls(c, d) == calls + EdgeCalls(c, d) + CallCalls(c, d);
  }

  /**
   A whole run at any tier: a profiler execution of fewer than 2^64 events, ended with no callback under
   way, dumped, logged, and parsed back as `p`. The writer exists from the start, and no I/O fails.
   */
  ghost predicate CompleteRun(c: Config, t: Trace, states: seq<State>, h: FileHeader, during: seq<Call>,
                              d: Dump, wallTime: u64, p: ProfileData)
  {
    && Execution(c, t, states) && |t| < TWO_64
    && ValidHeader(h) && ValidCalls(during) && OnlyFlushes(during, states[|t|].log)
    && IsDump(c, states[|t|], DirectCalls(t), d)
    && IsProfileOf(Log(h, RunCalls(c, during, d, wallTime)), p)
  }

  lemma RunCallsValid(c: Config, during: seq<Call>, d: Dump, wallTime: u64)
    requires ValidCalls(during)
    requires AllFit(d.edges) && AllFit(d.falls) && AllFit(d.directs) && AllFit(d.indirects)
    ensures ValidCalls(during + ExitCalls(c, d)) && ValidCalls(RunCalls(c, during, d, wallTime))
  {
    assert forall i | 0 <= i < |ExitCalls(c, d)| :: ValidCall(ExitCalls(c, d)[i]);
  }

  /** What parsing finds of the dump: lists as dumped, edge lists merged with the flushed batches. */
  lemma ParsedDump(c: Config, t: Trace, states: seq<State>, h: FileHeader, during: seq<Call>,
                   d: Dump, wallTime: u64, p: ProfileData)
    requires CompleteRun(c, t, states, h, during, d, wallTime, p)
    ensures p.header == h && p.tbExecs == d.tbs && p.footer.Some? && p.footer.value.cleanExit
    ensures IsMerge(Flatten(states[|t|].log) + DumpedEdges(c, d), p.branchEdges)
    ensures IsMerge(DumpedFalls(c, d), p.fallThroughs)
    ensures p.directCalls == DumpedDirects(c, d) && p.indirectCalls == DumpedIndirects(c, d)
  {
    RunCallsValid(c, during, d, wallTime);
    ParsedLog(h, RunCalls(c, during, d, wallTime), p);
    MeantByRun(c, h, during, states[|t|].log, d, wallTime);
  }

  /** What the calls of a whole run mean. */
  lemma MeantByRun(c: Config, h: FileHeader, during: seq<Call>, log: seq<seq<EdgeRecord>>, d: Dump, wallTime: u64)
    requires OnlyFlushes(during, log)
    ensures var m := WithCalls(EmptyProfile(h), RunCalls(c, during, d, wallTime));
            && m.header == h && m.tbExecs == d.tbs && m.footer.Some? && m.footer.value.cleanExit
            && m.branchEdges == Flatten(log) + DumpedEdges(c, d) && m.fallThroughs == DumpedFalls(c, d)
            && m.directCalls == DumpedDirects(c, d) && m.indirectCalls == DumpedIndirects(c, d)
  {
    var before := during + ExitCalls(c, d);
    var flushed := WithCalls(EmptyProfile(h), during);
    FlushesMean(h, during, log);
    HeaderStays(EmptyProfile(h), during);
    ExitCallsAdd(c, EmptyProfile(h), during, d);
    DumpOnFlushes(c, flushed, d);
    WithCallsStep(EmptyProfile(h), before, ClosingCall(before, wallTime));
    Closes(WithDump(c, flushed, d), before, wallTime);
  }

  lemma Closes(p: ProfileData, calls: seq<Call>, wallTime: u64)
    ensures var q := WithCall(p, ClosingCall(calls, wallTime));
            q == p.(footer := q.footer) && q.footer.Some? && q.footer.value.cleanExit
  {
  }

  /** On a profile with flushed batches only, a dump's lists stand alone. */
  lemma DumpOnFlushes(c: Config, p: ProfileData, d: Dump)
    requires p.tbExecs == [] && p.fallThroughs == [] && p.directCalls == [] && p.indirectCalls == []
    ensures var m := WithDump(c, p, d);
            && m.tbExecs == d.tbs && m.fallThroughs == DumpedFalls(c, d)
            && m.directCalls == DumpedDirects(c, d) && m.indirectCalls == DumpedIndirects(c, d)
  {
    assert [] + d.tbs == d.tbs && [] + DumpedFalls(c, d) == DumpedFalls(c, d);
    assert [] + DumpedDirects(c, d) == DumpedDirects(c, d) && [] + DumpedIndirects(c, d) == DumpedIndirects(c, d);
  }

  lemma {:induction false} HeaderStays(p: ProfileData, calls: seq<Call>)
    ensures WithCalls(p, calls).header == p.header
  {
    if calls != [] {
      HeaderStays(p, calls[..|calls| - 1]);
    }
  }

  lemma {:induction false} FlattenFits(h: FileHeader, during: seq<Call>)
    requires ValidCalls(during)
    ensures AllFit(WithCalls(EmptyProfile(h), during).branchEdges)
  {
    if during != [] {
      FlattenFits(h, during[..|during| - 1]);
      assert ValidCall(during[|during| - 1]);
    }
  }

  /** The parsed branch counts are what the accumulators and the flushes have kept. */
  lemma ParsedIsKept(c: Config, t: Trace, states: seq<State>, h: FileHeader, during: seq<Call>,
                     d: Dump, wallTime: u64, p: ProfileData, e: Edge)
    requires CompleteRun(c, t, states, h, during, d, wallTime, p) && c.tier >= 1
    ensures DistinctEdges(p.branchEdges)
    ensures TotalIf(p.branchEdges, Is(e)) == Kept(states[|t|], Is(e)) <= Count(t, Taken(Is(e)))
  {
    ParsedDump(c, t, states, h, during, d, wallTime, p);
    var total := DumpedAndFlushed(states[|t|], d.edges, e);
    TakenBranchesConserved(c, t, states, Is(e));
    CountAtMostLength(t, Taken(Is(e)));
    FlattenFits(h, during);
    FlushesMean(h, during, states[|t|].log);
    MergedTotal(Flatten(states[|t|].log), d.edges, p.branchEdges, e, total);
  }

  /**
   Branch edges, end to end. In the parsed profile every (from, to) pair occurs once, its count never
   exceeds the number of times the guest took that branch, and equals it when counting is exact:
   always in streaming mode, whatever the number of vCPUs, the interleaving and the threshold.
   */
  lemma BranchEdgesEndToEnd(c: Config, t: Trace, states: seq<State>, h: FileHeader, during: seq<Call>,
                            d: Dump, wallTime: u64, p: ProfileData, e: Edge)
    requires CompleteRun(c, t, states, h, during, d, wallTime, p) && c.tier >= 1
    ensures DistinctEdges(p.branchEdges)
    ensures TotalIf(p.branchEdges, Is(e)) <= Count(t, Taken(Is(e)))
    ensures Exact(c, t) ==> TotalIf(p.branchEdges, Is(e)) == Count(t, Taken(Is(e)))
  {
    ParsedIsKept(c, t, states, h, during, d, wallTime, p, e);
    TakenBranchesConserved(c, t, states, Is(e));
  }

  /** The flushed batches and the exit list together hold what the state has kept. */
  lemma DumpedAndFlushed(s: State, edges: seq<EdgeRecord>, e: Edge) returns (total: nat)
    requires MergesAccumulators(s, edges)
    ensures total == Kept(s, Is(e)) == TotalIf(Flatten(s.log) + edges, Is(e))
  {
    TotalIfAppend(Flatten(s.log), edges, Is(e));
    FlattenTotals(s.log, Is(e));
    total := Kept(s, Is(e));
  }

  lemma MergedTotal(flushed: seq<EdgeRecord>, edges: seq<EdgeRecord>, merged: seq<EdgeRecord>, e: Edge, total: nat)
    requires AllFit(flushed) && AllFit(edges) && IsMerge(flushed + edges, merged)
    requires total == TotalIf(flushed + edges, Is(e)) < TWO_64
    ensures DistinctEdges(merged) && TotalIf(merged, Is(e)) == total
  {
    BothFit(flushed, edges);
    MergeKeepsTotals(flushed + edges, merged, e);
    assert Wrap64(total) == total;
  }

  lemma BothFit(a: seq<EdgeRecord>, b: seq<EdgeRecord>)
    requires AllFit(a) && AllFit(b)
    ensures AllFit(a + b)
  {
  }

  /** Merging keeps every set of edges' total when no edge's total overflows. */
  lemma MergeKeepsAllTotals(raw: seq<EdgeRecord>, merged: seq<EdgeRecord>, q: Edge -> bool)
    requires IsMerge(raw, merged) && forall e :: TotalIf(raw, Is(e)) < TWO_64
    ensures TotalIf(merged, q) == TotalIf(raw, q)
  {
    if !DistinctEdges(raw) {
      NothingWraps(raw);
      EnumerationTotals(merged, Tally(raw), q);
      TallyTotals(raw, q);
    }
  }

  lemma NothingWraps(raw: seq<EdgeRecord>)
    requires forall e :: TotalIf(raw, Is(e)) < TWO_64
    ensures WrappedTally(raw) == Tally(raw)
  {
    forall e: Edge ensures Get(Tally(raw), e) < TWO_64 {
      TallyTotals(raw, Is(e));
      SumIfOneEdge(Tally(raw), e);
    }
    forall e | e in Tally(raw) ensures WrappedTally(raw)[e] == Tally(raw)[e] {
      assert Get(Tally(raw), e) < TWO_64;
    }
  }

  lemma {:induction false} SubTotal(batch: seq<EdgeRecord>, e: Edge)
    ensures TotalIf(batch, Is(e)) <= TotalIf(batch, EntersAt(e.to))
  {
    if batch != [] {
      SubTotal(batch[1..], e);
    }
  }

  /** The dumped fall-throughs into an address fit 64 bits, and survive the log and the merge. */
  lemma FallThroughsSurvive(c: Config, t: Trace, states: seq<State>, h: FileHeader, during: seq<Call>,
                            d: Dump, wallTime: u64, p: ProfileData, a: u64)
    requires CompleteRun(c, t, states, h, during, d, wallTime, p) && c.tier >= 1
    ensures ExitFallThroughs(states[|t|], d.edges, d.falls)
    ensures TotalIf(p.fallThroughs, EntersAt(a)) == EmittedInto(d.falls, a)
  {
    ParsedDump(c, t, states, h, during, d, wallTime, p);
    FallsFitTotals(c, t, states, d.edges, d.falls);
    MergeKeepsAllTotals(d.falls, p.fallThroughs, EntersAt(a));
  }

  lemma EmittedAtMostEntries(c: Config, t: Trace, states: seq<State>, edges: seq<EdgeRecord>, out: seq<EdgeRecord>,
      a: u64)
    requires Execution(c, t, states) && ExitFallThroughs(states[|t|], edges, out)
    ensures EmittedInto(out, a) <= |t|
  {
    EmittedIsSaturated(states[|t|], edges, out, a);
    SatAndMinMakeSum(ExecsAt(states[|t|], a), BranchEntries(states[|t|], a));
    ExecutionsAreCounted(c, t, states, StartsAt(a));
    CountAtMostLength(t, Entered(StartsAt(a)));
  }

  /**
   Fall-throughs, end to end. With exact branch counts and one block at `a`, blocks that run to
   completion and no block ending at address 0, the profile's fall-through count into `a` is never
   below the truth and above it by at most one per vCPU.
   */
  lemma FallThroughsEndToEnd(c: Config, t: Trace, states: seq<State>, h: FileHeader, during: seq<Call>,
                             d: Dump, wallTime: u64, p: ProfileData, a: u64)
    requires CompleteRun(c, t, states, h, during, d, wallTime, p) && c.tier >= 1
    requires Exact(c, t) && OneTbPerStart(states[|t|], a) && RunsToCompletion(t) && NoZeroEnds(t)
    ensures TrueFallThroughs(t, a) <= TotalIf(p.fallThroughs, EntersAt(a)) <= TrueFallThroughs(t, a) + c.vcpus
  {
    FallThroughsSurvive(c, t, states, h, during, d, wallTime, p, a);
    FallThroughExcess(c, t, states, d.edges, d.falls, a);
  }

  /** Pruning, end to end: the excess into `a` is what pruning has lost of the branches there. */
  lemma PrunedFallThroughsEndToEnd(c: Config, t: Trace, states: seq<State>, h: FileHeader, during: seq<Call>,
                                   d: Dump, wallTime: u64, p: ProfileData, a: u64)
    requires CompleteRun(c, t, states, h, during, d, wallTime, p) && c.tier >= 1
    requires OneTbPerStart(states[|t|], a) && HasPredecessor(states[|t|].tbs, a)
    ensures TotalIf(p.fallThroughs, EntersAt(a)) ==
            TrueFallThroughs(t, a) + Count(t, UnattributedAt(a)) + Lost(t, states[|t|], EntersAt(a))
  {
    FallThroughsSurvive(c, t, states, h, during, d, wallTime, p, a);
    PrunedFallThroughsExactly(c, t, states, d.edges, d.falls, a);
  }

  /**
   By pair, end to end: when all blocks that fall through to `a` end at `q`, the profile's only pair into
   `a` is (q, a), and both the profile and the trace count as many fall-throughs along it as into `a`.
   */
  lemma FallThroughPairsEndToEnd(c: Config, t: Trace, states: seq<State>, h: FileHeader, during: seq<Call>,
                                 d: Dump, wallTime: u64, p: ProfileData, q: u64, a: u64)
    requires CompleteRun(c, t, states, h, during, d, wallTime, p) && c.tier >= 1
    requires OneSource(states[|t|].tbs, a, q)
    ensures TotalIf(p.fallThroughs, Is(Edge(q, a))) == TotalIf(p.fallThroughs, EntersAt(a))
    ensures Count(t, FellAlong(Is(Edge(q, a)))) == TrueFallThroughs(t, a)
  {
    FallThroughsSurvive(c, t, states, h, during, d, wallTime, p, a);
    EmittedFromSource(states[|t|], d.edges, d.falls, a, q);
    PairSurvives(c, t, states, h, during, d, wallTime, p, Edge(q, a));
    ControlAlways(c, t, states);
    FellFromSource(t, states[|t|].tbs, a, q);
  }

  lemma PairSurvives(c: Config, t: Trace, states: seq<State>, h: FileHeader, during: seq<Call>,
                     d: Dump, wallTime: u64, p: ProfileData, e: Edge)
    requires CompleteRun(c, t, states, h, during, d, wallTime, p) && c.tier >= 1
    ensures TotalIf(p.fallThroughs, Is(e)) == TotalIf(d.falls, Is(e))
  {
    ParsedDump(c, t, states, h, during, d, wallTime, p);
    FallsFitTotals(c, t, states, d.edges, d.falls);
    MergeKeepsAllTotals(d.falls, p.fallThroughs, Is(e));
  }

  lemma FallsFitTotals(c: Config, t: Trace, states: seq<State>, edges: seq<EdgeRecord>, falls: seq<EdgeRecord>)
    requires Execution(c, t, states) && |t| < TWO_64 && ExitFallThroughs(states[|t|], edges, falls)
    ensures forall e :: TotalIf(falls, Is(e)) < TWO_64
  {
    forall e: Edge ensures TotalIf(falls, Is(e)) < TWO_64 {
      SubTotal(falls, e);
      EmittedAtMostEntries(c, t, states, edges, falls, e.to);
    }
  }

  function KeyOfRecord(r: TbExec): TbKey {
    TbKey(r.start, r.nInsns)
  }

  /** The profile has exactly one record for each translated block, and no other. */
  lemma BlocksListed(c: Config, t: Trace, states: seq<State>, h: FileHeader, during: seq<Call>,
                     d: Dump, wallTime: u64, p: ProfileData)
    requires CompleteRun(c, t, states, h, during, d, wallTime, p)
    ensures forall i, j | 0 <= i < j < |p.tbExecs| :: KeyOfRecord(p.tbExecs[i]) != KeyOfRecord(p.tbExecs[j])
    ensures forall k :: k in states[|t|].tbs <==> exists i | 0 <= i < |p.tbExecs| :: KeyOfRecord(p.tbExecs[i]) == k
  {
    ParsedDump(c, t, states, h, during, d, wallTime, p);
    ControlAlways(c, t, states);
    EachBlockListed(states[|t|], d.keys, d.tbs);
  }

  /** The record gives the block's first and last address and its 16-bit instruction count. */
  predicate Describes(r: TbExec, tb: Tb) {
    var insns := tb.insns;
    r.start == insns[0].addr && r.end == insns[|insns| - 1].addr && r.nInsns == |insns| % 0x1_0000
  }

  predicate DescribesTranslated(r: TbExec, t: Trace) {
    exists n | 0 <= n < |t| :: t[n].Translate? && Describes(r, t[n].tb)
  }

  predicate HasRecord(tbs: seq<TbExec>, tb: Tb) {
    exists i | 0 <= i < |tbs| :: Describes(tbs[i], tb)
  }

  /** Every record describes a block that was translated, and every translated block has its record. */
  ghost predicate ListsTranslated(t: Trace, tbs: seq<TbExec>) {
    && (forall i | 0 <= i < |tbs| :: DescribesTranslated(tbs[i], t))
    && (forall n | 0 <= n < |t| && t[n].Translate? :: HasRecord(tbs, t[n].tb))
  }

  lemma TranslatedBlocksListed(c: Config, t: Trace, states: seq<State>, h: FileHeader, during: seq<Call>,
                               d: Dump, wallTime: u64, p: ProfileData)
    requires CompleteRun(c, t, states, h, during, d, wallTime, p)
    ensures ListsTranslated(t, p.tbExecs)
  {
    ParsedDump(c, t, states, h, during, d, wallTime, p);
    KnownAreTranslated(c, t, states);
    ControlAlways(c, t, states);
    DumpListsTranslated(t, states[|t|], d.keys, d.tbs);
  }

  lemma DumpListsTranslated(t: Trace, s: State, keys: seq<TbKey>, tbs: seq<TbExec>)
    requires ListsBlocks(s, keys, tbs) && KnowsTranslated(t, s) && forall k | k in s.tbs :: KeyOf(s.tbs[k]) == k
    ensures ListsTranslated(t, tbs)
  {
    forall i | 0 <= i < |tbs| ensures DescribesTranslated(tbs[i], t) {
      assert keys[i] in s.tbs && Translated(t, s.tbs[keys[i]]);
      var n :| 0 <= n < |t| && t[n] == Translate(s.tbs[keys[i]]);
      assert t[n].Translate? && Describes(tbs[i], t[n].tb);
    }
    forall n | 0 <= n < |t| && t[n].Translate? ensures HasRecord(tbs, t[n].tb) {
      var k := TbKey(t[n].tb.insns[0].addr, |t[n].tb.insns| % 0x1_0000);
      assert k in s.tbs && s.tbs[k] == t[n].tb && k in keys;
      var i :| 0 <= i < |keys| && keys[i] == k;
      assert Describes(tbs[i], t[n].tb);
    }
  }

  lemma EachBlockListed(s: State, keys: seq<TbKey>, tbs: seq<TbExec>)
    requires ListsBlocks(s, keys, tbs) && forall k | k in s.tbs :: KeyOf(s.tbs[k]) == k
    ensures forall i, j | 0 <= i < j < |tbs| :: KeyOfRecord(tbs[i]) != KeyOfRecord(tbs[j])
    ensures forall k :: k in s.tbs <==> exists i | 0 <= i < |tbs| :: KeyOfRecord(tbs[i]) == k
  {
    RecordsHaveKeys(s, keys, tbs);
    forall k | k in s.tbs ensures exists i | 0 <= i < |tbs| :: KeyOfRecord(tbs[i]) == k {
      var i :| 0 <= i < |keys| && keys[i] == k;
      assert KeyOfRecord(tbs[i]) == k;
    }
  }

  lemma RecordsHaveKeys(s: State, keys: seq<TbKey>, tbs: seq<TbExec>)
    requires ListsBlocks(s, keys, tbs) && forall k | k in s.tbs :: KeyOf(s.tbs[k]) == k
    ensures forall i | 0 <= i < |tbs| :: keys[i] in s.tbs && KeyOfRecord(tbs[i]) == keys[i]
  {
    forall i | 0 <= i < |tbs| ensures keys[i] in s.tbs && KeyOfRecord(tbs[i]) == keys[i] {
      assert keys[i] in keys;
    }
  }

  /** Every record of a profile carries its block's addresses and its true number of entries. */
  lemma BlocksEndToEnd(c: Config, t: Trace, states: seq<State>, h: FileHeader, during: seq<Call>,
                       d: Dump, wallTime: u64, p: ProfileData, i: nat)
    requires CompleteRun(c, t, states, h, during, d, wallTime, p) && i < |p.tbExecs|
    ensures var k := KeyOfRecord(p.tbExecs[i]);
            && k in states[|t|].tbs && p.tbExecs[i].end == End(states[|t|].tbs[k])
            && p.tbExecs[i].execCount == Count(t, Entered(HasKey(k)))
  {
    ParsedDump(c, t, states, h, during, d, wallTime, p);
    ControlAlways(c, t, states);
    RecordsHaveKeys(states[|t|], d.keys, d.tbs);
    TotalExecIsEntries(c, t, states, d.keys[i]);
  }

  /** Indirect calls, end to end: every (callsite, target) pair once, with its true number of occurrences. */
  lemma IndirectCallsEndToEnd(c: Config, t: Trace, states: seq<State>, h: FileHeader, during: seq<Call>,
                              d: Dump, wallTime: u64, p: ProfileData, e: Edge)
    requires CompleteRun(c, t, states, h, during, d, wallTime, p) && c.tier >= 2
    ensures DistinctEdges(p.indirectCalls)
    ensures TotalIf(p.indirectCalls, Is(e)) == Count(t, IndirectTaken(Is(e)))
  {
    ParsedDump(c, t, states, h, during, d, wallTime, p);
    IndirectRelayIsExact(c, t, states, Is(e));
  }

  /** A duplicate-free list of as many keys as the set, all of them in the set, has them all. */
  lemma {:induction false} ListHasAll(calls: set<Edge>, directs: seq<CallRecord>, e: Edge) returns (i: nat)
    requires |directs| == |calls| && DistinctEdges(directs) && e in calls
    requires forall i | 0 <= i < |directs| :: directs[i].Key() in calls
    ensures i < |directs| && directs[i].Key() == e
  {
    assert |calls - {e}| == |calls| - 1;
    var n := |directs| - 1;
    if directs[n].Key() == e {
      i := n;
    } else {
      i := ListHasAll(calls - {directs[n].Key()}, directs[..n], e);
    }
  }

  /**
     The direct calls and branches of the translated blocks are in the profile, each exactly once, and nothing else
     is.
   */
  lemma DirectCallsListed(c: Config, t: Trace, states: seq<State>, h: FileHeader, during: seq<Call>,
                          d: Dump, wallTime: u64, p: ProfileData)
    requires CompleteRun(c, t, states, h, during, d, wallTime, p) && c.tier >= 2
    ensures DistinctEdges(p.directCalls)
    ensures forall e :: e in DirectCalls(t) <==> exists i | 0 <= i < |p.directCalls| :: p.directCalls[i].Key() == e
  {
    ParsedDump(c, t, states, h, during, d, wallTime, p);
    forall e | e in DirectCalls(t) ensures exists i | 0 <= i < |d.directs| :: d.directs[i].Key() == e {
      var i := ListHasAll(DirectCalls(t), d.directs, e);
    }
  }

  /**
   Direct-call counts, end to end. The true count of a callsite is the number of entries of blocks that
   lie over it. The profile never exceeds it, whatever blocks overlap, and is exact for every order of
   the index exactly when the callsite is not shadowed. When blocks have different starts, it is exact
   if and only if every executed block over the callsite is the last to start at or before it.
   */
  lemma DirectCallsEndToEnd(c: Config, t: Trace, states: seq<State>, h: FileHeader, during: seq<Call>,
                            d: Dump, wallTime: u64, p: ProfileData, i: nat)
    requires CompleteRun(c, t, states, h, during, d, wallTime, p) && c.tier >= 2 && i < |p.directCalls|
    ensures var cs, s, truth := p.directCalls[i].from, states[|t|], Count(t, Entered(OverAddr(p.directCalls[i].from)));
            && p.directCalls[i].count <= truth
            && (Unshadowed(s, cs) ==> p.directCalls[i].count == truth)
            && (DifferentStarts(s.tbs) ==> (p.directCalls[i].count == truth <==> OnlyLastExecuted(s, cs)))
  {
    var s, cs := states[|t|], p.directCalls[i].from;
    ParsedDump(c, t, states, h, during, d, wallTime, p);
    ExecutionsAreCounted(c, t, states, OverAddr(cs));
    DirectCounts(s, DirectCalls(t), d.directs, i);
  }

  lemma DirectCounts(s: State, calls: set<Edge>, directs: seq<CallRecord>, i: nat)
    requires ListsDirects(s, calls, directs) && i < |directs|
    ensures var cs, n, truth := directs[i].from, directs[i].count, ExecWhere(s, OverAddr(directs[i].from));
            && n <= truth && (Unshadowed(s, cs) ==> n == truth)
            && (DifferentStarts(s.tbs) ==> (n == truth <==> OnlyLastExecuted(s, cs)))
  {
    var index :| DirectCallIndex.SortedIndex(index) && Indexes(index, s)
      && forall j | 0 <= j < |directs| :: DirectCallIndex.Answers(index, directs[j].from, directs[j].count);
    var cs, n := directs[i].from, directs[i].count;
    AnswerAtMostTruth(s, index, cs, n);
    AnswersExact(s, index, cs);
    if DifferentStarts(s.tbs) {
      ExactForDifferentStarts(s, index, cs, n);
    }
  }
}
