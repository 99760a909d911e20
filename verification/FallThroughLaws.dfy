/** How close the derived fall-through counts come to the true ones. */
module FallThroughLaws {
  import opened Words
  import opened Counting
  import opened EdgeStorage
  import opened GuestTrace
  import opened Profiler
  import opened ControlLaws
  import opened EdgeLaws
  import opened ExecLaws
  import opened FallThroughs

  /** `edges` is the exit handler's merged list: what the accumulators hold, summed over vCPUs. */
  ghost predicate MergesAccumulators(s: State, edges: seq<EdgeRecord>) {
    && (forall a :: TotalIf(edges, EntersAt(a)) == SumBy(s.vcpus, Holds(EntersAt(a))))
    && (forall e :: TotalIf(edges, Is(e)) == SumBy(s.vcpus, Holds(Is(e))))
  }

  /** The fall-throughs the exit handler emits from state `s`. */
  ghost predicate ExitFallThroughs(s: State, edges: seq<EdgeRecord>, out: seq<EdgeRecord>) {
    && Quiet(s) && MergesAccumulators(s, edges)
    && IsFallThroughDump(s.tbs, Derived(s.tbs, ExecTotals(s), edges, s.flushed), out)
  }

  ghost function EmittedInto(out: seq<EdgeRecord>, a: u64): nat {
    TotalIf(out, EntersAt(a))
  }

  ghost function TrueFallThroughs(t: Trace, a: u64): nat {
    Count(t, FellAlong(EntersAt(a)))
  }

  /** No two known blocks share a start address. */
  ghost predicate OneTbPerStart(s: State, a: u64) {
    forall j, k | j in s.tbs && k in s.tbs && Start(s.tbs[j]) == a && Start(s.tbs[k]) == a :: j == k
  }

  // ---- Saturating subtraction, block by block ----

  ghost function Saturated(xs: map<TbKey, nat>, b: nat): map<TbKey, nat> {
    map k | k in xs :: SatSub(xs[k], b)
  }

  ghost function Capped(xs: map<TbKey, nat>, b: nat): map<TbKey, nat> {
    map k | k in xs :: Min(xs[k], b)
  }

  ghost function SatSum(xs: map<TbKey, nat>, b: nat): nat {
    Sum(Saturated(xs, b))
  }

  ghost function MinSum(xs: map<TbKey, nat>, b: nat): nat {
    Sum(Capped(xs, b))
  }

  lemma SumsRemove(xs: map<TbKey, nat>, b: nat, k: TbKey)
    requires k in xs
    ensures SatSum(xs, b) == SatSum(xs - {k}, b) + SatSub(xs[k], b)
    ensures MinSum(xs, b) == MinSum(xs - {k}, b) + Min(xs[k], b)
    ensures Sum(xs) == Sum(xs - {k}) + xs[k]
  {
    SumRemove(Saturated(xs, b), k);
    assert Saturated(xs, b) - {k} == Saturated(xs - {k}, b);
    SumRemove(Capped(xs, b), k);
    assert Capped(xs, b) - {k} == Capped(xs - {k}, b);
    SumRemove(xs, k);
  }

  lemma {:induction false} SatAndMinMakeSum(xs: map<TbKey, nat>, b: nat)
    ensures SatSum(xs, b) + MinSum(xs, b) == Sum(xs)
    ensures Min(b, Sum(xs)) <= MinSum(xs, b)
    ensures Sum(xs) <= b ==> MinSum(xs, b) == Sum(xs)
    decreases |xs|
  {
    if xs == map[] {
      assert Saturated(xs, b) == map[] && Capped(xs, b) == map[];
    } else {
      var k :| k in xs;
      SatAndMinMakeSum(xs - {k}, b);
      SumsRemove(xs, b, k);
    }
  }

  /** At most one block is executed. */
  ghost predicate AtMostOnePositive(xs: map<TbKey, nat>) {
    forall j, k | j in xs && k in xs && xs[j] > 0 && xs[k] > 0 :: j == k
  }

  lemma AllBelow(xs: map<TbKey, nat>, b: nat)
    requires forall k | k in xs :: xs[k] <= b
    ensures MinSum(xs, b) == Sum(xs)
  {
    assert Capped(xs, b) == xs;
  }

  /** Subtracting `b` from each block loses nothing exactly when there is at most one subtraction to lose by. */
  lemma SharedSubtraction(xs: map<TbKey, nat>, b: nat)
    requires b <= Sum(xs)
    ensures SatSum(xs, b) <= Sum(xs) - b
    ensures SatSum(xs, b) == Sum(xs) - b <==> b == 0 || b == Sum(xs) || AtMostOnePositive(xs)
  {
    SatAndMinMakeSum(xs, b);
    if b == 0 {
      NonePositive(Capped(xs, b));
    } else if AtMostOnePositive(xs) {
      var k :| k in xs && xs[k] > 0 by {
        if forall k | k in xs :: xs[k] == 0 {
          NonePositive(xs);
        }
      }
      SumsRemove(xs, b, k);
      NonePositive(xs - {k});
      SatAndMinMakeSum(xs - {k}, b);
    } else if b < Sum(xs) {
      if forall k | k in xs :: xs[k] <= b {
        AllBelow(xs, b);
      } else {
        var k :| k in xs && b < xs[k];
        SumsRemove(xs, b, k);
        var j :| j in xs && j != k && xs[j] > 0;
        SatAndMinMakeSum(xs - {k}, b);
        SumRemove(xs - {k}, j);
      }
    }
  }

  // ---- From blocks to addresses ----

  /** The executions of the blocks that start at `a`. */
  ghost function ExecsAt(s: State, a: u64): map<TbKey, nat> {
    Where(ExecTotals(s), Keyed(s.tbs, StartsAt(a)))
  }

  /** What the dump emits into `a`, in terms of executions there and recorded branch entries. */
  lemma EmittedIsSaturated(s: State, edges: seq<EdgeRecord>, out: seq<EdgeRecord>, a: u64)
    requires ExitFallThroughs(s, edges, out)
    ensures EmittedInto(out, a) == if HasPredecessor(s.tbs, a) then SatSum(ExecsAt(s, a), BranchEntries(s, a)) else 0
  {
    QuietBranchCount(s, edges, a);
    DerivedAt(s.tbs, ExecTotals(s), edges, s.flushed, a);
  }

  lemma QuietBranchCount(s: State, edges: seq<EdgeRecord>, a: u64)
    requires Quiet(s) && MergesAccumulators(s, edges)
    ensures BranchCount(edges, s.flushed, a) == BranchEntries(s, a)
  {
    forall v | 0 <= v < |s.vcpus| ensures Holds(EntersAt(a))(s.vcpus[v]) == Uncounted(a)(s.vcpus[v]) {
      assert s.vcpus[v].flight.None?;
    }
    SumByEqual(s.vcpus, Holds(EntersAt(a)), Uncounted(a));
  }

  lemma DerivedAt(tbs: map<TbKey, Tb>, exec: map<TbKey, nat>, edges: seq<EdgeRecord>, flushed: map<u64, nat>, a: u64)
    requires exec.Keys == tbs.Keys
    ensures Where(Derived(tbs, exec, edges, flushed), Keyed(tbs, StartsAt(a))) ==
            Saturated(Where(exec, Keyed(tbs, StartsAt(a))), BranchCount(edges, flushed, a))
  {
    var derived := Derived(tbs, exec, edges, flushed);
    forall k | k in tbs && Start(tbs[k]) == a
      ensures derived[k] == SatSub(exec[k], BranchCount(edges, flushed, a))
    {
    }
  }

  /** Executions at `a` are the true fall-throughs, the branches taken there, and the unattributed entries. */
  lemma ExecsAtAreEntries(c: Config, t: Trace, states: seq<State>, a: u64)
    requires Execution(c, t, states)
    ensures Sum(ExecsAt(states[|t|], a)) ==
            Count(t, Taken(EntersAt(a))) + TrueFallThroughs(t, a) + Count(t, UnattributedAt(a))
  {
    ExecutionsAreCounted(c, t, states, StartsAt(a));
    EntriesPartition(t, a);
  }

  lemma BranchEntriesBound(c: Config, t: Trace, states: seq<State>, a: u64)
    requires c.tier >= 1 && Execution(c, t, states)
    ensures BranchEntries(states[|t|], a) <= Count(t, Taken(EntersAt(a)))
    ensures Exact(c, t) ==> BranchEntries(states[|t|], a) == Count(t, Taken(EntersAt(a)))
  {
    FlushedSplit(c, t, states, a);
    TakenBranchesConserved(c, t, states, EntersAt(a));
  }

  lemma OnePerStartIsOnePositive(s: State, a: u64)
    requires OneTbPerStart(s, a)
    ensures AtMostOnePositive(ExecsAt(s, a))
  {
  }

  lemma SatSumAtLeast(xs: map<TbKey, nat>, b: nat)
    requires AtMostOnePositive(xs)
    ensures SatSum(xs, b) == SatSub(Sum(xs), b)
  {
    SatAndMinMakeSum(xs, b);
    if b <= Sum(xs) {
      SharedSubtraction(xs, b);
    }
  }

  lemma FinishedWasEntered(t: Trace, v: nat) returns (i: nat)
    requires StaysInTb(t) && LastFinished(t, v).Some?
    ensures i < |t| && t[i].Enter? && t[i].tb == LastFinished(t, v).value
  {
    var ev := t[|t| - 1];
    if FinishesTb(ev, v) {
      i := EnteredWhere(t[..|t| - 1], v);
    } else {
      i := FinishedWasEntered(t[..|t| - 1], v);
    }
  }

  lemma EnteredWhere(t: Trace, v: nat) returns (i: nat)
    requires LastEntered(t, v).Some?
    ensures i < |t| && t[i].Enter? && t[i].tb == LastEntered(t, v).value
  {
    if t[|t| - 1].Enter? && t[|t| - 1].vcpu == v {
      i := |t| - 1;
    } else {
      i := EnteredWhere(t[..|t| - 1], v);
    }
  }

  /** Nothing falls through to an address that no known block falls through to. */
  lemma {:induction false} NoPredecessorNoFallThrough(t: Trace, tbs: map<TbKey, Tb>, a: u64)
    requires StaysInTb(t) && !HasPredecessor(tbs, a)
    requires forall i | 0 <= i < |t| && t[i].Enter? :: KeyOf(t[i].tb) in tbs && tbs[KeyOf(t[i].tb)] == t[i].tb
    ensures TrueFallThroughs(t, a) == 0
  {
    if t != [] {
      var t0, ev := t[..|t| - 1], t[|t| - 1];
      NoPredecessorNoFallThrough(t0, tbs, a);
      if ev.Enter? {
        var arrival := ArrivalOf(t0, ev.vcpu, ev.tb);
        if arrival.Fell? {
          var i := FinishedWasEntered(t0, ev.vcpu);
          assert tbs[KeyOf(t[i].tb)] == t[i].tb && FallThrough(t[i].tb) == Start(ev.tb) != a;
          assert EntersAt(a)(Edge(arrival.from, Start(ev.tb))) <==> Start(ev.tb) == a;
        }
      }
    }
  }

  // ---- The theorems ----

  /**
   Exactness. With exact branch counts, one block per start address, and some block falling through
   to `a`, what is emitted into `a` is its true fall-throughs plus its unattributed entries, and the
   subtraction never saturates.
   */
  lemma FallThroughsAreExact(c: Config, t: Trace, states: seq<State>, edges: seq<EdgeRecord>, out: seq<EdgeRecord>,
      a: u64)
    requires c.tier >= 1 && Execution(c, t, states) && ExitFallThroughs(states[|t|], edges, out)
    requires Exact(c, t) && OneTbPerStart(states[|t|], a) && HasPredecessor(states[|t|].tbs, a)
    ensures EmittedInto(out, a) == TrueFallThroughs(t, a) + Count(t, UnattributedAt(a))
    ensures BranchEntries(states[|t|], a) <= Sum(ExecsAt(states[|t|], a))
  {
    var s := states[|t|];
    EmittedIsSaturated(s, edges, out, a);
    ExecsAtAreEntries(c, t, states, a);
    BranchEntriesBound(c, t, states, a);
    OnePerStartIsOnePositive(s, a);
    SatSumAtLeast(ExecsAt(s, a), BranchEntries(s, a));
  }

  /** With every block run to completion, the excess over the truth is at most one per vCPU. */
  lemma FallThroughExcess(c: Config, t: Trace, states: seq<State>, edges: seq<EdgeRecord>, out: seq<EdgeRecord>, a: u64)
    requires c.tier >= 1 && Execution(c, t, states) && ExitFallThroughs(states[|t|], edges, out)
    requires Exact(c, t) && OneTbPerStart(states[|t|], a)
    requires RunsToCompletion(t) && NoZeroEnds(t)
    ensures TrueFallThroughs(t, a) <= EmittedInto(out, a) <= TrueFallThroughs(t, a) + c.vcpus
  {
    var s := states[|t|];
    ControlAlways(c, t, states);
    if HasPredecessor(s.tbs, a) {
      FallThroughsAreExact(c, t, states, edges, out, a);
      UnattributedAtMostOncePerVcpu(t, a);
      VcpuSetIsSmall(EnteredVcpus(t), t, c.vcpus);
    } else {
      EmittedIsSaturated(s, edges, out, a);
      NoPredecessorNoFallThrough(t, s.tbs, a);
    }
  }

  lemma VcpuSetIsSmall(vs: set<nat>, t: Trace, k: nat)
    requires VcpusBelow(t, k) && vs <= EnteredVcpus(t)
    ensures |vs| <= k
  {
    forall v | v in vs ensures v < k {
      EnteredVcpuIsBelow(t, k, v);
    }
    SmallSet(vs, k);
  }

  lemma {:induction false} EnteredVcpuIsBelow(t: Trace, k: nat, v: nat)
    requires VcpusBelow(t, k) && v in EnteredVcpus(t)
    ensures v < k
  {
    if !(t[|t| - 1].Enter? && t[|t| - 1].vcpu == v) {
      EnteredVcpuIsBelow(t[..|t| - 1], k, v);
    }
  }

  lemma {:induction false} SmallSet(vs: set<nat>, k: nat)
    requires forall v | v in vs :: v < k
    ensures |vs| <= k
  {
    if k > 0 {
      SmallSet(vs - {k - 1}, k - 1);
    } else {
      assert vs == {};
    }
  }

  /** Pruning errs on one side: with one block per start, fall-throughs are never under-reported. */
  lemma PrunedFallThroughsNeverUnderReport(c: Config, t: Trace, states: seq<State>, edges: seq<EdgeRecord>,
      out: seq<EdgeRecord>, a: u64)
    requires c.tier >= 1 && Execution(c, t, states) && ExitFallThroughs(states[|t|], edges, out)
    requires OneTbPerStart(states[|t|], a)
    ensures TrueFallThroughs(t, a) <= EmittedInto(out, a)
  {
    var s := states[|t|];
    EmittedIsSaturated(s, edges, out, a);
    if HasPredecessor(s.tbs, a) {
      ExecsAtAreEntries(c, t, states, a);
      BranchEntriesBound(c, t, states, a);
      OnePerStartIsOnePositive(s, a);
      SatSumAtLeast(ExecsAt(s, a), BranchEntries(s, a));
    } else {
      ControlAlways(c, t, states);
      NoPredecessorNoFallThrough(t, s.tbs, a);
    }
  }

  /**
   Several blocks at one start err on the other side: each subtracts all branch entries. Their counts
   sum to at most the true fall-throughs plus unattributed entries, and to exactly that if and only
   if no branch enters `a`, or only branches do, or at most one of the blocks was executed.
   */
  lemma SharedStartsNeverOverReport(c: Config, t: Trace, states: seq<State>, edges: seq<EdgeRecord>,
      out: seq<EdgeRecord>, a: u64)
    requires c.tier >= 1 && Execution(c, t, states) && ExitFallThroughs(states[|t|], edges, out)
    requires Exact(c, t) && HasPredecessor(states[|t|].tbs, a)
    ensures var branched := BranchEntries(states[|t|], a);
            var execs := ExecsAt(states[|t|], a);
            var sequential := TrueFallThroughs(t, a) + Count(t, UnattributedAt(a));
            && EmittedInto(out, a) <= sequential
            && (EmittedInto(out, a) == sequential <==>
                branched == 0 || branched == Sum(execs) || AtMostOnePositive(execs))
  {
    var s := states[|t|];
    EmittedIsSaturated(s, edges, out, a);
    ExecsAtAreEntries(c, t, states, a);
    BranchEntriesBound(c, t, states, a);
    SharedSubtraction(ExecsAt(s, a), BranchEntries(s, a));
  }

  /** When all blocks that fall through to `a` end at `p`, every record into `a` names `p` as its source. */
  lemma FallThroughSource(s: State, edges: seq<EdgeRecord>, out: seq<EdgeRecord>, a: u64, p: u64, r: EdgeRecord)
    requires ExitFallThroughs(s, edges, out)
    requires forall k | k in s.tbs && FallThrough(s.tbs[k]) == a :: End(s.tbs[k]) == p
    requires r in out && r.to == a
    ensures r.from == p
  {
  }

  // ---- By (from, to) pair ----

  /** All blocks that fall through to `a` end at `p`. */
  ghost predicate OneSource(tbs: map<TbKey, Tb>, a: u64, p: u64) {
    forall k | k in tbs && FallThrough(tbs[k]) == a :: End(tbs[k]) == p
  }

  /** Then every true fall-through into `a` comes from `p`. */
  lemma {:induction false} FellFromSource(t: Trace, tbs: map<TbKey, Tb>, a: u64, p: u64)
    requires StaysInTb(t) && OneSource(tbs, a, p)
    requires forall i | 0 <= i < |t| && t[i].Enter? :: KeyOf(t[i].tb) in tbs && tbs[KeyOf(t[i].tb)] == t[i].tb
    ensures Count(t, FellAlong(Is(Edge(p, a)))) == TrueFallThroughs(t, a)
  {
    if t != [] {
      var t0, ev := t[..|t| - 1], t[|t| - 1];
      FellFromSource(t0, tbs, a, p);
      if ev.Enter? && ArrivalOf(t0, ev.vcpu, ev.tb).Fell? {
        var i := FinishedWasEntered(t0, ev.vcpu);
        assert tbs[KeyOf(t[i].tb)] == t[i].tb && FallThrough(t[i].tb) == Start(ev.tb);
        var e := Edge(ArrivalOf(t0, ev.vcpu, ev.tb).from, Start(ev.tb));
        assert Is(Edge(p, a))(e) <==> EntersAt(a)(e);
      }
    }
  }

  /** And so does every emitted record. */
  lemma EmittedFromSource(s: State, edges: seq<EdgeRecord>, out: seq<EdgeRecord>, a: u64, p: u64)
    requires ExitFallThroughs(s, edges, out) && OneSource(s.tbs, a, p)
    ensures TotalIf(out, Is(Edge(p, a))) == EmittedInto(out, a)
  {
    forall r | r in out && r.to == a ensures r.from == p {
      FallThroughSource(s, edges, out, a, p, r);
    }
    SameTotals(out, a, p);
  }

  lemma {:induction false} SameTotals(out: seq<EdgeRecord>, a: u64, p: u64)
    requires forall r | r in out && r.to == a :: r.from == p
    ensures TotalIf(out, Is(Edge(p, a))) == TotalIf(out, EntersAt(a))
  {
    if out != [] {
      assert out[0] in out;
      SameTotals(out[1..], a, p);
    }
  }

  // ---- How far pruning can raise a fall-through count ----

  /** What pruning has lost of the branches along edges that satisfy `q`. */
  ghost function Lost(t: Trace, s: State, q: Edge -> bool): int {
    Count(t, Taken(q)) - Kept(s, q)
  }

  ghost function EntersElsewhere(a: u64): Edge -> bool {
    (e: Edge) => e.to != a
  }

  lemma {:induction false} TakenSplit(t: Trace, q: Edge -> bool, p: Edge -> bool, r: Edge -> bool)
    requires Splits(q, p, r)
    ensures Count(t, Taken(q)) == Count(t, Taken(p)) + Count(t, Taken(r))
  {
    if t != [] {
      var t0, ev := t[..|t| - 1], t[|t| - 1];
      TakenSplit(t0, q, p, r);
      if Branches(t0, ev) {
        var e := Along(t0, ev);
        assert (q(e) <==> p(e) || r(e)) && !(p(e) && r(e));
      }
    }
  }

  lemma {:induction false} BatchSplit(batch: seq<EdgeRecord>, q: Edge -> bool, p: Edge -> bool, r: Edge -> bool)
    requires Splits(q, p, r)
    ensures TotalIf(batch, q) == TotalIf(batch, p) + TotalIf(batch, r)
  {
    if batch != [] {
      BatchSplit(batch[1..], q, p, r);
    }
  }

  lemma {:induction false} LogSplit(log: seq<seq<EdgeRecord>>, q: Edge -> bool, p: Edge -> bool, r: Edge -> bool)
    requires Splits(q, p, r)
    ensures LogTotal(log, q) == LogTotal(log, p) + LogTotal(log, r)
  {
    if log != [] {
      LogSplit(log[..|log| - 1], q, p, r);
      BatchSplit(log[|log| - 1], q, p, r);
    }
  }

  lemma {:induction false} HeldSplit(vcpus: seq<Vcpu>, q: Edge -> bool, p: Edge -> bool, r: Edge -> bool)
    requires Splits(q, p, r)
    ensures SumBy(vcpus, Holds(q)) == SumBy(vcpus, Holds(p)) + SumBy(vcpus, Holds(r))
  {
    if vcpus != [] {
      var u := vcpus[0];
      SumIfSplit(u.edges, q, p, r);
      if u.flight.Some? {
        BatchSplit(u.flight.value.batch, q, p, r);
      }
      HeldSplit(vcpus[1..], q, p, r);
    }
  }

  lemma LostSplit(t: Trace, s: State, q: Edge -> bool, p: Edge -> bool, r: Edge -> bool)
    requires Splits(q, p, r)
    ensures Lost(t, s, q) == Lost(t, s, p) + Lost(t, s, r)
  {
    TakenSplit(t, q, p, r);
    LogSplit(s.log, q, p, r);
    HeldSplit(s.vcpus, q, p, r);
  }

  /** No more is lost into one address than altogether. */
  lemma LostIntoAtMostAll(c: Config, t: Trace, states: seq<State>, a: u64)
    requires c.tier >= 1 && Execution(c, t, states)
    ensures 0 <= Lost(t, states[|t|], EntersAt(a)) <= Lost(t, states[|t|], AnyEdge())
  {
    TakenBranchesConserved(c, t, states, EntersAt(a));
    TakenBranchesConserved(c, t, states, EntersElsewhere(a));
    LostSplit(t, states[|t|], AnyEdge(), EntersAt(a), EntersElsewhere(a));
  }

  /**
   With pruning and one block at `a`, the emitted count exceeds fall-throughs plus unattributed entries
   by exactly what pruning has lost of the branches into `a`.
   */
  lemma PrunedFallThroughsExactly(c: Config, t: Trace, states: seq<State>, edges: seq<EdgeRecord>,
      out: seq<EdgeRecord>, a: u64)
    requires c.tier >= 1 && Execution(c, t, states) && ExitFallThroughs(states[|t|], edges, out)
    requires OneTbPerStart(states[|t|], a) && HasPredecessor(states[|t|].tbs, a)
    ensures EmittedInto(out, a) ==
            TrueFallThroughs(t, a) + Count(t, UnattributedAt(a)) + Lost(t, states[|t|], EntersAt(a))
    ensures 0 <= Lost(t, states[|t|], EntersAt(a)) <= Lost(t, states[|t|], AnyEdge())
  {
    var s := states[|t|];
    EmittedIsSaturated(s, edges, out, a);
    ExecsAtAreEntries(c, t, states, a);
    BranchEntriesBound(c, t, states, a);
    FlushedSplit(c, t, states, a);
    OnePerStartIsOnePositive(s, a);
    SatSumAtLeast(ExecsAt(s, a), BranchEntries(s, a));
    LostIntoAtMostAll(c, t, states, a);
  }
}
