/** What pruning costs the whole profile: the Top-N bound summed over the vCPUs. */
module TopNEndToEnd {
  import opened Words
  import opened Counting
  import opened EdgeStorage
  import opened GuestTrace
  import opened Profiler
  import opened ControlLaws
  import opened EdgeLaws
  import opened LogFormat
  import opened NativeParser
  import opened FallThroughLaws
  import opened EndToEnd
  import TopNBound

  /** The taken branches of the vCPUs from `v` up to `k`. */
  ghost function TakenFrom(t: Trace, v: nat, k: nat, q: Edge -> bool): nat
    decreases k - v
  {
    if v >= k then 0 else Count(t, TakenBy(v, q)) + TakenFrom(t, v + 1, k, q)
  }

  lemma TakenByOne(t: Trace, ev: Event, v: nat, q: Edge -> bool)
    ensures TakenBy(v, q)(t, ev) <==> ev.Enter? && ev.vcpu == v && Taken(q)(t, ev)
  {
  }

  lemma {:induction false} TakenFromStep(t: Trace, ev: Event, v: nat, k: nat, q: Edge -> bool)
    ensures TakenFrom(t + [ev], v, k, q) ==
            TakenFrom(t, v, k, q) + (if ev.Enter? && v <= ev.vcpu < k && Taken(q)(t, ev) then 1 else 0)
    decreases k - v
  {
    if v < k {
      CountStep(t, ev, TakenBy(v, q));
      TakenByOne(t, ev, v, q);
      TakenFromStep(t, ev, v + 1, k, q);
    }
  }

  lemma {:induction false} NothingTaken(v: nat, k: nat, q: Edge -> bool)
    ensures TakenFrom([], v, k, q) == 0
    decreases k - v
  {
    if v < k {
      NothingTaken(v + 1, k, q);
    }
  }

  lemma {:induction false} SplitByVcpu(t: Trace, k: nat, q: Edge -> bool)
    requires VcpusBelow(t, k)
    ensures Count(t, Taken(q)) == TakenFrom(t, 0, k, q)
  {
    if t == [] {
      NothingTaken(0, k, q);
    } else {
      var t0, ev := t[..|t| - 1], t[|t| - 1];
      SplitByVcpu(t0, k, q);
      TakenFromStep(t0, ev, 0, k, q);
      assert t == t0 + [ev];
    }
  }

  ghost function StoredOf(e: Edge): Vcpu -> nat {
    (u: Vcpu) => Get(u.edges, e)
  }

  lemma {:induction false} StoredIsHeld(vcpus: seq<Vcpu>, e: Edge)
    ensures SumBy(vcpus, StoredOf(e)) <= SumBy(vcpus, Holds(Is(e)))
  {
    if vcpus != [] {
      StoredIsHeld(vcpus[1..], e);
      SumIfOneEdge(vcpus[0].edges, e);
      assert StoredOf(e)(vcpus[0]) <= Holds(Is(e))(vcpus[0]);
    }
  }

  /** 2 * n * sqrt(lost) <= total - lost. */
  ghost predicate PruningBound(n: nat, lost: int, total: int) {
    0 <= lost <= total && 4 * n * n * lost <= (total - lost) * (total - lost)
  }

  /** The bound on one vCPU and the bound on others make one on them together. */
  lemma BoundsAdd(n: nat, l1: int, t1: int, l2: int, t2: int)
    requires PruningBound(n, l1, t1) && PruningBound(n, l2, t2)
    ensures PruningBound(n, l1 + l2, t1 + t2)
  {
    var x, y := t1 - l1, t2 - l2;
    assert 4 * n * n * (l1 + l2) == 4 * n * n * l1 + 4 * n * n * l2;
    assert (x + y) * (x + y) == x * x + 2 * (x * y) + y * y;
    assert 0 <= x * y;
  }

  lemma LosingLess(n: nat, l: int, more: int, total: int)
    requires 0 <= l <= more && PruningBound(n, more, total)
    ensures PruningBound(n, l, total)
  {
    var x, y := total - more, more - l;
    assert 4 * n * n * l <= 4 * n * n * more;
    assert (x + y) * (x + y) == x * x + 2 * (x * y) + y * y;
    assert 0 <= x * y && 0 <= y * y;
  }

  lemma VcpuBound(c: Config, t: Trace, states: seq<State>, v: nat, e: Edge, lost: int, total: int)
    requires c.tier >= 1 && !c.streaming && v < c.vcpus && Execution(c, t, states)
    requires |states[|t|].vcpus| == c.vcpus
    requires lost == Count(t, TakenBy(v, Is(e))) - Get(states[|t|].vcpus[v].edges, e)
    requires total == Count(t, TakenBy(v, AnyEdge()))
    ensures PruningBound(c.topN, lost, total)
  {
    TopNProfileError(c, t, states, v, e, lost, total);
  }

  lemma NothingLost(n: nat, vcpus: seq<Vcpu>, v: nat, e: Edge)
    requires v == |vcpus|
    ensures PruningBound(n, 0, 0) && SumBy(vcpus[v..], StoredOf(e)) == 0
  {
  }

  /** One vCPU more. */
  lemma BoundStep(c: Config, t: Trace, states: seq<State>, v: nat, e: Edge, l2: int, t2: int)
        returns (lost: int, total: int)
    requires c.tier >= 1 && !c.streaming && v < c.vcpus && Execution(c, t, states)
    requires |states[|t|].vcpus| == c.vcpus && PruningBound(c.topN, l2, t2)
    ensures lost == Count(t, TakenBy(v, Is(e))) - Get(states[|t|].vcpus[v].edges, e) + l2
    ensures total == Count(t, TakenBy(v, AnyEdge())) + t2
    ensures PruningBound(c.topN, lost, total)
  {
    var l1, t1 := Count(t, TakenBy(v, Is(e))) - Get(states[|t|].vcpus[v].edges, e), Count(t, TakenBy(v, AnyEdge()));
    VcpuBound(c, t, states, v, e, l1, t1);
    BoundsAdd(c.topN, l1, t1, l2, t2);
    lost, total := l1 + l2, t1 + t2;
  }

  lemma {:induction false} BoundFrom(c: Config, t: Trace, states: seq<State>, v: nat, e: Edge)
        returns (lost: int, total: int)
    requires c.tier >= 1 && !c.streaming && v <= c.vcpus && Execution(c, t, states)
    requires |states[|t|].vcpus| == c.vcpus
    ensures lost == TakenFrom(t, v, c.vcpus, Is(e)) - SumBy(states[|t|].vcpus[v..], StoredOf(e))
    ensures total == TakenFrom(t, v, c.vcpus, AnyEdge())
    ensures PruningBound(c.topN, lost, total)
    decreases c.vcpus - v
  {
    var vcpus := states[|t|].vcpus;
    if v == c.vcpus {
      lost, total := 0, 0;
      NothingLost(c.topN, vcpus, v, e);
    } else {
      var l2, t2 := BoundFrom(c, t, states, v + 1, e);
      lost, total := BoundStep(c, t, states, v, e, l2, t2);
      SumByFrom(vcpus, v, StoredOf(e));
    }
  }

  lemma SumByFrom<T>(s: seq<T>, v: nat, f: T -> nat)
    requires v < |s|
    ensures SumBy(s[v..], f) == f(s[v]) + SumBy(s[v + 1..], f)
  {
    assert s[v..][1..] == s[v + 1..];
  }

  lemma BoundOnAll(c: Config, t: Trace, states: seq<State>, e: Edge) returns (more: int, total: int)
    requires c.tier >= 1 && !c.streaming && Execution(c, t, states)
    ensures more == Count(t, Taken(Is(e))) - SumBy(states[|t|].vcpus, StoredOf(e))
    ensures total == Count(t, Taken(AnyEdge()))
    ensures PruningBound(c.topN, more, total)
  {
    TakenAltogether(c, t, states, e);
    more, total := BoundFrom(c, t, states, 0, e);
    assert states[|t|].vcpus[0..] == states[|t|].vcpus;
  }

  lemma TakenAltogether(c: Config, t: Trace, states: seq<State>, e: Edge)
    requires Execution(c, t, states)
    ensures Count(t, Taken(Is(e))) == TakenFrom(t, 0, c.vcpus, Is(e))
    ensures Count(t, Taken(AnyEdge())) == TakenFrom(t, 0, c.vcpus, AnyEdge())
    ensures |states[|t|].vcpus| == c.vcpus
    ensures SumBy(states[|t|].vcpus, StoredOf(e)) <= Kept(states[|t|], Is(e))
  {
    ControlAlways(c, t, states);
    SplitByVcpu(t, c.vcpus, Is(e));
    SplitByVcpu(t, c.vcpus, AnyEdge());
    StoredIsHeld(states[|t|].vcpus, e);
  }

  /** What all vCPUs together have lost of an edge. */
  lemma KeptBound(c: Config, t: Trace, states: seq<State>, e: Edge, lost: int, total: int)
    requires c.tier >= 1 && !c.streaming && Execution(c, t, states)
    requires 0 <= lost == Count(t, Taken(Is(e))) - Kept(states[|t|], Is(e)) && total == Count(t, Taken(AnyEdge()))
    ensures PruningBound(c.topN, lost, total)
  {
    TakenAltogether(c, t, states, e);
    var more, all := BoundOnAll(c, t, states, e);
    LosingLess(c.topN, lost, more, total);
  }

  /**
   Bounded mode, end to end: of the `total` branches taken on all vCPUs together, the parsed profile
   has lost so few of each edge that 2 * N * sqrt(lost) <= total - lost.
   */
  lemma BoundedModeEndToEnd(c: Config, t: Trace, states: seq<State>, h: FileHeader, during: seq<Call>,
                            d: Dump, wallTime: u64, p: ProfileData, e: Edge, lost: int, total: int)
    requires CompleteRun(c, t, states, h, during, d, wallTime, p) && c.tier >= 1 && !c.streaming
    requires lost == Count(t, Taken(Is(e))) - TotalIf(p.branchEdges, Is(e)) && total == Count(t, Taken(AnyEdge()))
    ensures PruningBound(c.topN, lost, total)
  {
    ParsedIsKept(c, t, states, h, during, d, wallTime, p, e);
    KeptBound(c, t, states, e, lost, total);
  }

  // ---- What is lost into one address ----

  ghost function In(edges: set<Edge>): Edge -> bool {
    (e: Edge) => e in edges
  }

  /** The distinct edges into `a` that the vCPUs below `k` have taken. */
  ghost function EdgesInto(t: Trace, k: nat, a: u64): set<Edge> {
    if k == 0 then {} else EdgesInto(t, k - 1, a) + (set e | e in TakenEdges(t, k - 1) && e.to == a)
  }

  /** With `m` edges, 4 n^2 lost <= m total^2. */
  ghost predicate LossBound(n: nat, m: nat, lost: int, total: nat) {
    0 <= lost && 4 * n * n * lost <= (total * total) * m
  }

  lemma NoEdge(n: nat, total: nat)
    ensures LossBound(n, 0, 0, total)
  {
  }

  lemma OneMoreEdge(n: nat, m: nat, l: int, rest: int, total: nat)
    requires PruningBound(n, l, total) && LossBound(n, m, rest, total)
    ensures LossBound(n, m + 1, l + rest, total)
  {
    Distributes(4 * n * n, l, rest);
    SquareGrows(total - l, total);
    Distributes(total * total, m, 1);
  }

  lemma Distributes(k: int, a: int, b: int)
    ensures k * (a + b) == k * a + k * b
  {
  }

  lemma SquareGrows(x: int, y: int)
    requires 0 <= x <= y
    ensures x * x <= y * y
  {
    assert x * x <= x * y <= y * y;
  }

  lemma {:induction false} LostAlong(c: Config, t: Trace, states: seq<State>, edges: set<Edge>, total: nat)
      returns (lost: int)
    requires c.tier >= 1 && !c.streaming && Execution(c, t, states) && total == Count(t, Taken(AnyEdge()))
    ensures lost == Lost(t, states[|t|], In(edges)) && LossBound(c.topN, |edges|, lost, total)
    decreases |edges|
  {
    var s := states[|t|];
    if edges == {} {
      lost := 0;
      LostSplit(t, s, In(edges), In(edges), In(edges));
      NoEdge(c.topN, total);
    } else {
      var e :| e in edges;
      var rest := LostAlong(c, t, states, edges - {e}, total);
      var l := EdgeLoss(c, t, states, e, total);
      LostSplit(t, s, In(edges), Is(e), In(edges - {e}));
      OneMoreEdge(c.topN, |edges - {e}|, l, rest, total);
      lost := l + rest;
    }
  }

  lemma EdgeLoss(c: Config, t: Trace, states: seq<State>, e: Edge, total: nat) returns (lost: int)
    requires c.tier >= 1 && !c.streaming && Execution(c, t, states) && total == Count(t, Taken(AnyEdge()))
    ensures lost == Lost(t, states[|t|], Is(e)) && PruningBound(c.topN, lost, total)
  {
    lost := Lost(t, states[|t|], Is(e));
    TakenBranchesConserved(c, t, states, Is(e));
    KeptBound(c, t, states, e, lost, total);
  }

  lemma {:induction false} EdgesIntoAreTaken(t: Trace, k: nat, a: u64, v: nat, e: Edge)
    requires v < k && e in TakenEdges(t, v) && e.to == a
    ensures e in EdgesInto(t, k, a)
  {
    if v < k - 1 {
      EdgesIntoAreTaken(t, k - 1, a, v, e);
    }
  }

  lemma {:induction false} EdgesIntoGrow(t: Trace, ev: Event, k: nat, a: u64)
    ensures EdgesInto(t, k, a) <= EdgesInto(t + [ev], k, a)
  {
    if k > 0 {
      EdgesIntoGrow(t, ev, k - 1, a);
      TakenEdgesGrow(t, ev, k - 1);
    }
  }

  /** Every branch into `a` is along one of the edges into `a`. */
  lemma {:induction false} TakenIntoIsIn(t: Trace, k: nat, a: u64, edges: set<Edge>)
    requires VcpusBelow(t, k) && EdgesInto(t, k, a) <= edges
    ensures Count(t, Taken(EntersAt(a))) <= Count(t, Taken(In(edges)))
  {
    if t != [] {
      var t0, ev := t[..|t| - 1], t[|t| - 1];
      assert t == t0 + [ev];
      EdgesIntoGrow(t0, ev, k, a);
      TakenIntoIsIn(t0, k, a, edges);
      if Branches(t0, ev) && Along(t0, ev).to == a {
        TakenEdgesGrow(t0, ev, ev.vcpu);
        EdgesIntoAreTaken(t, k, a, ev.vcpu, Along(t0, ev));
      }
      assert Taken(EntersAt(a))(t0, ev) ==> Taken(In(edges))(t0, ev);
    }
  }

  lemma {:induction false} OnlyInto(t: Trace, k: nat, a: u64, e: Edge)
    requires e in EdgesInto(t, k, a)
    ensures e.to == a
  {
    if e in EdgesInto(t, k - 1, a) {
      OnlyInto(t, k - 1, a, e);
    }
  }

  ghost function IntoBut(a: u64, edges: set<Edge>): Edge -> bool {
    (e: Edge) => e.to == a && e !in edges
  }

  /**
   With `m` distinct edges into `a` and T taken branches altogether, pruning loses so few of the branches
   into `a` that 4 N^2 lost <= m T^2; a pruned fall-through count exceeds its exact value by no more.
   */
  lemma LostIntoBound(c: Config, t: Trace, states: seq<State>, a: u64, m: nat, lost: int, total: nat)
    requires c.tier >= 1 && !c.streaming && Execution(c, t, states)
    requires m == |EdgesInto(t, c.vcpus, a)| && total == Count(t, Taken(AnyEdge()))
    requires lost == Lost(t, states[|t|], EntersAt(a))
    ensures LossBound(c.topN, m, lost, total)
  {
    var along := LostAlong(c, t, states, EdgesInto(t, c.vcpus, a), total);
    LostIntoIsAlong(c, t, states, a);
    NotMore(c.topN, m, lost, along, total);
  }

  lemma NotMore(n: nat, m: nat, lost: int, along: int, total: nat)
    requires 0 <= lost <= along && LossBound(n, m, along, total)
    ensures LossBound(n, m, lost, total)
  {
    assert 4 * n * n * lost <= 4 * n * n * along;
  }

  lemma LostIntoIsAlong(c: Config, t: Trace, states: seq<State>, a: u64)
    requires c.tier >= 1 && Execution(c, t, states)
    ensures 0 <= Lost(t, states[|t|], EntersAt(a)) <= Lost(t, states[|t|], In(EdgesInto(t, c.vcpus, a)))
  {
    var s, edges := states[|t|], EdgesInto(t, c.vcpus, a);
    ControlAlways(c, t, states);
    TakenIntoIsIn(t, c.vcpus, a, edges);
    forall e | e in edges ensures e.to == a {
      OnlyInto(t, c.vcpus, a, e);
    }
    LostSplit(t, s, EntersAt(a), In(edges), IntoBut(a, edges));
    TakenSplit(t, EntersAt(a), In(edges), IntoBut(a, edges));
    TakenBranchesConserved(c, t, states, IntoBut(a, edges));
    TakenBranchesConserved(c, t, states, EntersAt(a));
  }

  // ---- When nothing is lost ----

  /** In bounded mode nothing is ever flushed. */
  ghost predicate NothingFlushed(s: State) {
    s.log == [] && forall v | 0 <= v < |s.vcpus| :: s.vcpus[v].flight.None?
  }

  lemma {:induction false} BoundedNeverFlushes(c: Config, t: Trace, states: seq<State>)
    requires !c.streaming && Execution(c, t, states)
    ensures NothingFlushed(states[|t|])
  {
    if t != [] {
      ExecutionStep(c, t, states);
      BoundedNeverFlushes(c, t[..|t| - 1], states[..|t|]);
    }
  }

  lemma {:induction false} HeldIsStored(vcpus: seq<Vcpu>, e: Edge)
    requires forall v | 0 <= v < |vcpus| :: vcpus[v].flight.None?
    ensures SumBy(vcpus, Holds(Is(e))) == SumBy(vcpus, StoredOf(e))
  {
    if vcpus != [] {
      HeldIsStored(vcpus[1..], e);
      SumIfOneEdge(vcpus[0].edges, e);
    }
  }

  lemma StoredAtMostTaken(c: Config, t: Trace, states: seq<State>, v: nat, e: Edge)
    requires c.tier >= 1 && !c.streaming && v < c.vcpus && Execution(c, t, states)
    ensures |states[|t|].vcpus| == c.vcpus
    ensures Get(states[|t|].vcpus[v].edges, e) <= Count(t, TakenBy(v, Is(e)))
  {
    var run := AccumulatorIsTopNRun(c, t, states, v);
    TopNBound.StoredNeverExceedsTrue(run, c.topN, e);
  }

  lemma {:induction false} NoMoreFrom(c: Config, t: Trace, states: seq<State>, v: nat, e: Edge)
    requires c.tier >= 1 && !c.streaming && v <= c.vcpus && Execution(c, t, states)
    requires |states[|t|].vcpus| == c.vcpus
    ensures SumBy(states[|t|].vcpus[v..], StoredOf(e)) <= TakenFrom(t, v, c.vcpus, Is(e))
    decreases c.vcpus - v
  {
    if v < c.vcpus {
      StoredAtMostTaken(c, t, states, v, e);
      NoMoreFrom(c, t, states, v + 1, e);
      SumByFrom(states[|t|].vcpus, v, StoredOf(e));
    }
  }

  /** If the vCPUs from `v` on together have lost nothing, none of them has. */
  lemma {:induction false} EachIsExact(c: Config, t: Trace, states: seq<State>, v: nat, w: nat, e: Edge)
    requires c.tier >= 1 && !c.streaming && v <= w < c.vcpus && Execution(c, t, states)
    requires |states[|t|].vcpus| == c.vcpus
    requires SumBy(states[|t|].vcpus[v..], StoredOf(e)) == TakenFrom(t, v, c.vcpus, Is(e))
    ensures Get(states[|t|].vcpus[w].edges, e) == Count(t, TakenBy(w, Is(e)))
    decreases c.vcpus - v
  {
    StoredAtMostTaken(c, t, states, v, e);
    NoMoreFrom(c, t, states, v + 1, e);
    SumByFrom(states[|t|].vcpus, v, StoredOf(e));
    if v < w {
      EachIsExact(c, t, states, v + 1, w, e);
    }
  }

  lemma {:induction false} TakenIsCounted(t: Trace, v: nat, e: Edge)
    requires e in TakenEdges(t, v)
    ensures Count(t, TakenBy(v, Is(e))) > 0
  {
    var t0, ev := t[..|t| - 1], t[|t| - 1];
    assert t == t0 + [ev];
    CountStep(t0, ev, TakenBy(v, Is(e)));
    if e in TakenEdges(t0, v) {
      TakenIsCounted(t0, v, e);
    } else {
      assert Along(t0, ev) == e && Is(e)(e);
    }
  }

  lemma ExactVcpu(c: Config, t: Trace, states: seq<State>, v: nat)
    requires c.tier >= 1 && !c.streaming && v < c.vcpus && Execution(c, t, states)
    requires |states[|t|].vcpus| == c.vcpus
    requires forall e :: Get(states[|t|].vcpus[v].edges, e) == Count(t, TakenBy(v, Is(e)))
    ensures |TakenEdges(t, v)| <= 2 * c.topN
  {
    var run := AccumulatorIsTopNRun(c, t, states, v);
    var table := states[|t|].vcpus[v].edges;
    TopNBound.TableInvariant(run, c.topN);
    forall e | e in TakenEdges(t, v) ensures e in table {
      TakenIsCounted(t, v, e);
      assert Get(table, e) == Count(t, TakenBy(v, Is(e)));
    }
    TopNBound.SubsetSize(TakenEdges(t, v), table.Keys);
    assert |table| == |table.Keys|;
  }

  lemma NothingLostEverywhere(c: Config, t: Trace, states: seq<State>, v: nat, e: Edge)
    requires c.tier >= 1 && !c.streaming && v < c.vcpus && Execution(c, t, states)
    requires Kept(states[|t|], Is(e)) == Count(t, Taken(Is(e)))
    ensures |states[|t|].vcpus| == c.vcpus
    ensures Get(states[|t|].vcpus[v].edges, e) == Count(t, TakenBy(v, Is(e)))
  {
    var vcpus := states[|t|].vcpus;
    TakenAltogether(c, t, states, e);
    BoundedNeverFlushes(c, t, states);
    HeldIsStored(vcpus, e);
    assert vcpus[0..] == vcpus;
    EachIsExact(c, t, states, 0, v, e);
  }

  /** Every edge's count is exact if and only if flushing is on or no vCPU has taken more than 2N distinct edges. */
  lemma CountsExactIff(c: Config, t: Trace, states: seq<State>)
    requires c.tier >= 1 && Execution(c, t, states)
    ensures Exact(c, t) <==> forall e :: Kept(states[|t|], Is(e)) == Count(t, Taken(Is(e)))
  {
    if Exact(c, t) {
      forall e ensures Kept(states[|t|], Is(e)) == Count(t, Taken(Is(e))) {
        TakenBranchesConserved(c, t, states, Is(e));
      }
    }
    if !c.streaming && forall e :: Kept(states[|t|], Is(e)) == Count(t, Taken(Is(e))) {
      ControlAlways(c, t, states);
      forall v | 0 <= v < c.vcpus ensures |TakenEdges(t, v)| <= 2 * c.topN {
        forall e ensures Get(states[|t|].vcpus[v].edges, e) == Count(t, TakenBy(v, Is(e))) {
          NothingLostEverywhere(c, t, states, v, e);
        }
        ExactVcpu(c, t, states, v);
      }
    }
  }

  /** The same for the parsed profile. */
  lemma ExactEndToEnd(c: Config, t: Trace, states: seq<State>, h: FileHeader, during: seq<Call>,
                      d: Dump, wallTime: u64, p: ProfileData)
    requires CompleteRun(c, t, states, h, during, d, wallTime, p) && c.tier >= 1
    ensures Exact(c, t) <==> forall e :: TotalIf(p.branchEdges, Is(e)) == Count(t, Taken(Is(e)))
  {
    CountsExactIff(c, t, states);
    forall e ensures TotalIf(p.branchEdges, Is(e)) == Kept(states[|t|], Is(e)) {
      ParsedIsKept(c, t, states, h, during, d, wallTime, p, e);
    }
  }
}
