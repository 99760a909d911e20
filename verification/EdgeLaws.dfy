/**
 No taken branch is lost or counted twice: whatever the interleaving, accumulators, flushes under
 way and log together hold the true counts of the trace.
 */
module EdgeLaws {
  import opened Words
  import opened Counting
  import opened EdgeStorage
  import opened GuestTrace
  import opened Profiler
  import opened ControlLaws
  import TopNBound

  /** The distinct edges vCPU `v` has taken. */
  ghost function TakenEdges(t: Trace, v: nat): set<Edge> {
    if t == [] then {}
    else
      var t0, ev := t[..|t| - 1], t[|t| - 1];
      TakenEdges(t0, v) +
      (if Branches(t0, ev) && ev.vcpu == v then {Along(t0, ev)} else {})
  }

  /** When counting is exact: in streaming mode, or while no vCPU takes more than 2N distinct edges. */
  ghost predicate Exact(c: Config, t: Trace) {
    c.streaming || forall v | 0 <= v < c.vcpus :: |TakenEdges(t, v)| <= 2 * c.topN
  }

  ghost function InFlight(u: Vcpu, q: Edge -> bool): nat {
    match u.flight case None => 0 case Some(f) => TotalIf(f.batch, q)
  }

  /** What a vCPU holds, accumulated or in flight, of the edges satisfying `q`. */
  ghost function Holds(q: Edge -> bool): Vcpu -> nat {
    (u: Vcpu) => SumIf(u.edges, q) + InFlight(u, q)
  }

  ghost function LogTotal(log: seq<seq<EdgeRecord>>, q: Edge -> bool): nat {
    if log == [] then 0 else LogTotal(log[..|log| - 1], q) + TotalIf(log[|log| - 1], q)
  }

  /** Everything recorded that is not pruned away: accumulated, in flight, or logged. */
  ghost function Kept(s: State, q: Edge -> bool): nat {
    SumBy(s.vcpus, Holds(q)) + LogTotal(s.log, q)
  }

  /** What a vCPU holds of entries at `a` that `flushed` does not count yet. */
  ghost function Uncounted(a: u64): Vcpu -> nat {
    (u: Vcpu) =>
      SumIf(u.edges, EntersAt(a)) +
      (if u.flight.Some? && !u.flight.value.counted then InFlight(u, EntersAt(a)) else 0)
  }

  ghost function BranchEntries(s: State, a: u64): nat {
    Get(s.flushed, a) + SumBy(s.vcpus, Uncounted(a))
  }

  // ---- Exactness carries over from the accumulators ----

  lemma {:induction false} TakenEdgesGrow(t: Trace, ev: Event, v: nat)
    ensures TakenEdges(t, v) <= TakenEdges(t + [ev], v)
    ensures Branches(t, ev) && ev.vcpu == v ==> Along(t, ev) in TakenEdges(t + [ev], v)
  {
    assert (t + [ev])[..|t|] == t;
  }

  lemma ExactBefore(c: Config, t: Trace, ev: Event)
    requires Exact(c, t + [ev])
    ensures Exact(c, t)
  {
    forall v | 0 <= v < c.vcpus ensures c.streaming || |TakenEdges(t, v)| <= 2 * c.topN {
      TakenEdgesGrow(t, ev, v);
      TopNBound.SubsetSize(TakenEdges(t, v), TakenEdges(t + [ev], v));
    }
  }

  ghost predicate KnownEdges(c: Config, t: Trace, s: State) {
    |s.vcpus| == c.vcpus && forall v | 0 <= v < c.vcpus :: s.vcpus[v].edges.Keys <= TakenEdges(t, v)
  }

  lemma KnownEdgesStep(c: Config, t: Trace, s: State, ev: Event, s': State)
    requires c.tier >= 1 && Control(c, t, s) && KnownEdges(c, t, s) && Next(c, s, ev, s')
    ensures KnownEdges(c, t + [ev], s')
  {
    forall v | 0 <= v < c.vcpus ensures s'.vcpus[v].edges.Keys <= TakenEdges(t + [ev], v) {
      TakenEdgesGrow(t, ev, v);
      if ev.Enter? && ev.vcpu == v {
        FiresExactlyOnTakenBranches(c, t, s, v, ev.tb);
      }
    }
  }

  /** One record adds one to the edge's count; only a prune can take something away. */
  lemma RecordHolds(c: Config, before: EdgeCounts, e: Edge, after: EdgeCounts, flight: Option<Flight>, q: Edge -> bool)
    requires RecordsEdge(c, before, e, after, flight)
    ensures var held := SumIf(after, q) + (if flight.Some? then TotalIf(flight.value.batch, q) else 0);
            && held <= SumIf(before, q) + (if q(e) then 1 else 0)
            && (c.streaming || |before.Keys + {e}| <= 2 * c.topN ==> held == SumIf(before, q) + (if q(e) then 1 else 0))
  {
    var bumped := Bump(before, e, 1);
    SumIfBump(before, e, 1, q);
    if flight.Some? {
      EnumerationTotals(flight.value.batch, bumped, q);
      SumIfEmpty(q);
    } else if after != bumped {
      assert bumped.Keys == before.Keys + {e};
      assert |bumped| == |bumped.Keys|;
      SumIfMono(after, bumped, q);
    }
  }

  lemma ArrivalHolds(c: Config, u: Vcpu, tb: Tb, first: bool, u': Vcpu, q: Edge -> bool)
    requires Arrives(c, u, tb, first, u')
    ensures var n := if Fires(c, u, tb) && q(Edge(u.lastTbEnd, Start(tb))) then 1 else 0;
            && Holds(q)(u') <= Holds(q)(u) + n
            && (c.streaming || |u.edges.Keys + {Edge(u.lastTbEnd, Start(tb))}| <= 2 * c.topN ==>
                  Holds(q)(u') == Holds(q)(u) + n)
  {
    if Fires(c, u, tb) {
      RecordHolds(c, u.edges, Edge(u.lastTbEnd, Start(tb)), u'.edges, u'.flight, q);
    }
  }

  lemma LogTotalAppend(log: seq<seq<EdgeRecord>>, batch: seq<EdgeRecord>, q: Edge -> bool)
    ensures LogTotal(log + [batch], q) == LogTotal(log, q) + TotalIf(batch, q)
  {
    assert (log + [batch])[..|log|] == log;
  }

  lemma KeptStep(c: Config, t: Trace, s: State, ev: Event, s': State, q: Edge -> bool)
    requires c.tier >= 1 && Control(c, t, s) && KnownEdges(c, t, s) && Next(c, s, ev, s')
    requires Kept(s, q) <= Count(t, Taken(q))
    requires Exact(c, t) ==> Kept(s, q) == Count(t, Taken(q))
    ensures Kept(s', q) <= Count(t + [ev], Taken(q))
    ensures Exact(c, t + [ev]) ==> Kept(s', q) == Count(t + [ev], Taken(q))
  {
    CountStep(t, ev, Taken(q));
    if Exact(c, t + [ev]) {
      ExactBefore(c, t, ev);
    }
    match ev
    case Translate(tb) =>
    case Enter(v, tb) => EnterKept(c, t, s, v, tb, s', q);
    case Reach(v, tb, i) => KeptStays(s, v, s', q);
    case TakeNumber(v) => KeptStays(s, v, s', q);
    case StoreNumber(v) => KeptStays(s, v, s', q);
    case CountFlush(v) => KeptStays(s, v, s', q);
    case WriteFlush(v) =>
      SumByUpdate(s.vcpus, v, s'.vcpus[v], Holds(q));
      LogTotalAppend(s.log, s.vcpus[v].flight.value.batch, q);
  }

  lemma KeptStays(s: State, v: nat, s': State, q: Edge -> bool)
    requires v < |s.vcpus| && |s'.vcpus| == |s.vcpus| && s'.vcpus == s.vcpus[v := s'.vcpus[v]]
    requires s'.vcpus[v].edges == s.vcpus[v].edges && InFlight(s'.vcpus[v], q) == InFlight(s.vcpus[v], q)
    requires s'.log == s.log
    ensures Kept(s', q) == Kept(s, q)
  {
    SumByUpdate(s.vcpus, v, s'.vcpus[v], Holds(q));
  }

  /** An entry adds its taken branch, unless a prune drops something. */
  lemma EnterKept(c: Config, t: Trace, s: State, v: nat, tb: Tb, s': State, q: Edge -> bool)
    requires c.tier >= 1 && Control(c, t, s) && KnownEdges(c, t, s) && Enters(c, s, v, tb, s')
    ensures var n := if Taken(q)(t, Enter(v, tb)) then 1 else 0;
            Kept(s', q) <= Kept(s, q) + n && (Exact(c, t + [Enter(v, tb)]) ==> Kept(s', q) == Kept(s, q) + n)
  {
    SumByUpdate(s.vcpus, v, s'.vcpus[v], Holds(q));
    ArrivalHolds(c, s.vcpus[v], tb, Numbers(s, v, KeyOf(tb)), s'.vcpus[v], q);
    FiresExactlyOnTakenBranches(c, t, s, v, tb);
    var ev := Enter(v, tb);
    if Exact(c, t + [ev]) && !c.streaming && Fires(c, s.vcpus[v], tb) {
      var e := Edge(s.vcpus[v].lastTbEnd, Start(tb));
      TakenEdgesGrow(t, ev, v);
      TopNBound.SubsetSize(s.vcpus[v].edges.Keys + {e}, TakenEdges(t + [ev], v));
    }
  }

  lemma InitiallyNothing(c: Config, f: Vcpu -> nat)
    requires f(FreshVcpu()) == 0
    ensures SumBy(Init(c).vcpus, f) == 0
  {
    SumByZero(Init(c).vcpus, f);
  }

  /**
   Conservation of taken branches. In every reachable state, for every set of edges, what is
   accumulated, in flight and logged never exceeds the true count, and equals it in streaming mode
   or while no vCPU takes more than 2N distinct edges.
   */
  lemma {:induction false} TakenBranchesConserved(c: Config, t: Trace, states: seq<State>, q: Edge -> bool)
    requires c.tier >= 1 && Execution(c, t, states)
    ensures KnownEdges(c, t, states[|t|])
    ensures Kept(states[|t|], q) <= Count(t, Taken(q))
    ensures Exact(c, t) ==> Kept(states[|t|], q) == Count(t, Taken(q))
  {
    if t == [] {
      SumIfEmpty(q);
      InitiallyNothing(c, Holds(q));
    } else {
      ExecutionStep(c, t, states);
      var t0, before := t[..|t| - 1], states[..|t|];
      ControlAlways(c, t0, before);
      TakenBranchesConserved(c, t0, before, q);
      KnownEdgesStep(c, t0, states[|t| - 1], t[|t| - 1], states[|t|]);
      KeptStep(c, t0, states[|t| - 1], t[|t| - 1], states[|t|], q);
    }
  }

  // ---- The per-target counts behind fall-throughs ----

  lemma {:induction false} AddBatchCounts(m: map<u64, nat>, batch: seq<EdgeRecord>, a: u64)
    ensures Get(AddBatch(m, batch), a) == Get(m, a) + TotalIf(batch, EntersAt(a))
    decreases |batch|
  {
    if batch != [] {
      AddBatchCounts(Bump(m, batch[0].to, batch[0].count), batch[1..], a);
    }
  }

  /** The split between `flushed` and what the vCPUs still hold agrees with what is recorded in all. */
  lemma BranchEntriesStep(c: Config, s: State, ev: Event, s': State, a: u64)
    requires Next(c, s, ev, s')
    requires BranchEntries(s, a) == Kept(s, EntersAt(a))
    ensures BranchEntries(s', a) == Kept(s', EntersAt(a))
  {
    match ev
    case Translate(tb) =>
    case Enter(v, tb) => SplitMoves(s, v, s', a);
    case Reach(v, tb, i) => SplitStays(s, v, s', a);
    case TakeNumber(v) => SplitStays(s, v, s', a);
    case StoreNumber(v) => SplitStays(s, v, s', a);
    case CountFlush(v) =>
      SplitMoves(s, v, s', a);
      AddBatchCounts(s.flushed, s.vcpus[v].flight.value.batch, a);
    case WriteFlush(v) =>
      SplitMoves(s, v, s', a);
      LogTotalAppend(s.log, s.vcpus[v].flight.value.batch, EntersAt(a));
  }

  lemma SplitStays(s: State, v: nat, s': State, a: u64)
    requires v < |s.vcpus| && |s'.vcpus| == |s.vcpus| && s'.vcpus == s.vcpus[v := s'.vcpus[v]]
    requires s'.vcpus[v].edges == s.vcpus[v].edges && s'.vcpus[v].flight == s.vcpus[v].flight
    requires s'.flushed == s.flushed && s'.log == s.log
    ensures BranchEntries(s', a) == BranchEntries(s, a) && Kept(s', EntersAt(a)) == Kept(s, EntersAt(a))
  {
    SplitMoves(s, v, s', a);
  }

  /** What a change of one vCPU does to both sides of the split. */
  lemma SplitMoves(s: State, v: nat, s': State, a: u64)
    requires v < |s.vcpus| && |s'.vcpus| == |s.vcpus| && s'.vcpus == s.vcpus[v := s'.vcpus[v]]
    ensures SumBy(s'.vcpus, Holds(EntersAt(a))) + Holds(EntersAt(a))(s.vcpus[v]) ==
            SumBy(s.vcpus, Holds(EntersAt(a))) + Holds(EntersAt(a))(s'.vcpus[v])
    ensures SumBy(s'.vcpus, Uncounted(a)) + Uncounted(a)(s.vcpus[v]) ==
            SumBy(s.vcpus, Uncounted(a)) + Uncounted(a)(s'.vcpus[v])
  {
    SumByUpdate(s.vcpus, v, s'.vcpus[v], Holds(EntersAt(a)));
    SumByUpdate(s.vcpus, v, s'.vcpus[v], Uncounted(a));
  }

  /**
   No flush is lost or double counted: for every target, the flushed entries plus what the vCPUs
   still hold uncounted equal the target's total over the log, the flights and the accumulators.
   */
  lemma {:induction false} FlushedSplit(c: Config, t: Trace, states: seq<State>, a: u64)
    requires Execution(c, t, states)
    ensures BranchEntries(states[|t|], a) == Kept(states[|t|], EntersAt(a))
  {
    if t == [] {
      SumIfEmpty(EntersAt(a));
      InitiallyNothing(c, Holds(EntersAt(a)));
      InitiallyNothing(c, Uncounted(a));
    } else {
      ExecutionStep(c, t, states);
      FlushedSplit(c, t[..|t| - 1], states[..|t|], a);
      BranchEntriesStep(c, states[|t| - 1], t[|t| - 1], states[|t|], a);
    }
  }

  // ---- The Top-N error, end to end ----

  ghost function AnyEdge(): Edge -> bool {
    (e: Edge) => true
  }

  /** `run` records vCPU `v`'s taken branches in `t`, and its table is the vCPU's accumulator. */
  ghost predicate Mirrors(c: Config, t: Trace, v: nat, edges: EdgeCounts, run: TopNBound.Run) {
    && TopNBound.ValidRun(run, c.topN) && TopNBound.Table(run) == edges
    && TopNBound.Records(run) == Count(t, TakenBy(v, AnyEdge()))
    && forall e :: TopNBound.TrueCount(run, e) == Count(t, TakenBy(v, Is(e)))
  }

  lemma MirrorsQuietly(c: Config, t: Trace, v: nat, edges: EdgeCounts, run: TopNBound.Run, ev: Event)
    requires Mirrors(c, t, v, edges, run)
    requires !(Branches(t, ev) && ev.vcpu == v)
    ensures Mirrors(c, t + [ev], v, edges, run)
  {
    CountStep(t, ev, TakenBy(v, AnyEdge()));
    forall e: Edge ensures Count(t + [ev], TakenBy(v, Is(e))) == Count(t, TakenBy(v, Is(e))) {
      CountStep(t, ev, TakenBy(v, Is(e)));
    }
  }

  lemma MirrorsTaken(c: Config, t: Trace, v: nat, edges: EdgeCounts, run: TopNBound.Run, ev: Event, edges': EdgeCounts)
    requires Mirrors(c, t, v, edges, run)
    requires Branches(t, ev) && ev.vcpu == v && TopNRecorded(edges, Along(t, ev), edges', c.topN)
    ensures Mirrors(c, t + [ev], v, edges', TopNBound.Then(run, Along(t, ev), edges'))
  {
    var taken := Along(t, ev);
    CountStep(t, ev, TakenBy(v, AnyEdge()));
    assert AnyEdge()(taken);
    forall e: Edge
      ensures Count(t + [ev], TakenBy(v, Is(e))) == Count(t, TakenBy(v, Is(e))) + (if e == taken then 1 else 0)
    {
      CountStep(t, ev, TakenBy(v, Is(e)));
      assert Is(e)(taken) <==> e == taken;
    }
  }

  lemma MirrorsStep(c: Config, t: Trace, s: State, ev: Event, s': State, v: nat, run: TopNBound.Run)
        returns (run': TopNBound.Run)
    requires c.tier >= 1 && !c.streaming && Control(c, t, s) && Next(c, s, ev, s')
    requires v < c.vcpus && Mirrors(c, t, v, s.vcpus[v].edges, run)
    ensures |s'.vcpus| == c.vcpus && Mirrors(c, t + [ev], v, s'.vcpus[v].edges, run')
  {
    if ev.Enter? && ev.vcpu == v {
      FiresExactlyOnTakenBranches(c, t, s, v, ev.tb);
    }
    if Branches(t, ev) && ev.vcpu == v {
      MirrorsTaken(c, t, v, s.vcpus[v].edges, run, ev, s'.vcpus[v].edges);
      run' := TopNBound.Then(run, Along(t, ev), s'.vcpus[v].edges);
    } else {
      MirrorsQuietly(c, t, v, s.vcpus[v].edges, run, ev);
      run' := run;
    }
  }

  /** In bounded mode each vCPU's accumulator is a Top-N run over the branches that vCPU took. */
  lemma {:induction false} AccumulatorIsTopNRun(c: Config, t: Trace, states: seq<State>, v: nat)
        returns (run: TopNBound.Run)
    requires c.tier >= 1 && !c.streaming && v < c.vcpus && Execution(c, t, states)
    ensures |states[|t|].vcpus| == c.vcpus && Mirrors(c, t, v, states[|t|].vcpus[v].edges, run)
  {
    if t == [] {
      run := TopNBound.Start;
    } else {
      ExecutionStep(c, t, states);
      ControlAlways(c, t[..|t| - 1], states[..|t|]);
      run := AccumulatorIsTopNRun(c, t[..|t| - 1], states[..|t|], v);
      run := MirrorsStep(c, t[..|t| - 1], states[|t| - 1], t[|t| - 1], states[|t|], v, run);
    }
  }

  /**
     How much of an edge vCPU `v` has lost to pruning, by 2*N*sqrt(lost) <= total - lost for its `total` taken
     branches.
   */
  lemma TopNProfileError(c: Config, t: Trace, states: seq<State>, v: nat, e: Edge, lost: int, total: nat)
    requires c.tier >= 1 && !c.streaming && v < c.vcpus && Execution(c, t, states)
    requires |states[|t|].vcpus| == c.vcpus
    requires lost == Count(t, TakenBy(v, Is(e))) - Get(states[|t|].vcpus[v].edges, e)
    requires total == Count(t, TakenBy(v, AnyEdge()))
    ensures 0 <= lost <= total
    ensures 4 * c.topN * c.topN * lost <= (total - lost) * (total - lost)
  {
    var run := AccumulatorIsTopNRun(c, t, states, v);
    TopNBound.UndercountBound(run, c.topN, e, lost, total);
  }
}
