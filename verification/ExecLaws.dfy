/** Execution counters and the indirect-call relay agree with the trace. */
module ExecLaws {
  import opened Words
  import opened Counting
  import opened EdgeStorage
  import opened GuestTrace
  import opened Profiler
  import opened ControlLaws
  import opened EdgeLaws

  /** A block's counter on one vCPU, and summed over the vCPUs as the exit dump reads it. */
  ghost function ExecOf(k: TbKey): Vcpu -> nat {
    (u: Vcpu) => Get(u.exec, k)
  }

  ghost function TotalExec(s: State, k: TbKey): nat {
    SumBy(s.vcpus, ExecOf(k))
  }

  ghost function ExecTotals(s: State): map<TbKey, nat> {
    map k | k in s.tbs :: TotalExec(s, k)
  }

  /** The keys of the known blocks that satisfy `w`. */
  ghost function Keyed(tbs: map<TbKey, Tb>, w: Tb -> bool): TbKey -> bool {
    (k: TbKey) => k in tbs && w(tbs[k])
  }

  ghost function ExecWhere(s: State, w: Tb -> bool): nat {
    SumIf(ExecTotals(s), Keyed(s.tbs, w))
  }

  ghost predicate KnownExecs(s: State) {
    forall v | 0 <= v < |s.vcpus| :: s.vcpus[v].exec.Keys <= s.tbs.Keys
  }

  lemma KnownExecsStep(c: Config, s: State, ev: Event, s': State)
    requires KnownExecs(s) && Next(c, s, ev, s')
    ensures KnownExecs(s')
  {
    forall v | 0 <= v < |s'.vcpus| ensures s'.vcpus[v].exec.Keys <= s'.tbs.Keys {
      assert s.vcpus[v].exec.Keys <= s.tbs.Keys;
    }
  }

  lemma ExecStep(c: Config, t: Trace, s: State, ev: Event, s': State, w: Tb -> bool)
    requires KnownExecs(s) && Next(c, s, ev, s')
    ensures ExecWhere(s', w) == ExecWhere(s, w) + (if Entered(w)(t, ev) then 1 else 0)
  {
    match ev
    case Translate(tb) =>
      if KeyOf(tb) !in s.tbs {
        NewTb(s, tb, s', w);
      } else {
        assert ExecTotals(s') == ExecTotals(s);
      }
    case Enter(v, tb) =>
      EnterTotals(c, s, v, tb, s');
      SumIfBump(ExecTotals(s), KeyOf(tb), 1, Keyed(s.tbs, w));
    case Reach(v, tb, i) =>
      SameTotals(s, v, s');
    case TakeNumber(v) =>
      SameTotals(s, v, s');
    case StoreNumber(v) =>
      SameTotals(s, v, s');
    case CountFlush(v) =>
      SameTotals(s, v, s');
    case WriteFlush(v) =>
      SameTotals(s, v, s');
  }

  lemma NewTb(s: State, tb: Tb, s': State, w: Tb -> bool)
    requires KnownExecs(s) && Translates(s, tb, s') && KeyOf(tb) !in s.tbs
    ensures ExecWhere(s', w) == ExecWhere(s, w)
  {
    var k := KeyOf(tb);
    NeverRun(s, k);
    assert ExecTotals(s') == ExecTotals(s)[k := 0];
    NewTbWhere(ExecTotals(s), s.tbs, k, tb, w);
  }

  lemma NeverRun(s: State, k: TbKey)
    requires KnownExecs(s) && k !in s.tbs
    ensures TotalExec(s, k) == 0
  {
    forall v | 0 <= v < |s.vcpus| ensures ExecOf(k)(s.vcpus[v]) == 0 {
      assert s.vcpus[v].exec.Keys <= s.tbs.Keys;
    }
    SumByZero(s.vcpus, ExecOf(k));
  }

  lemma NewTbWhere(totals: map<TbKey, nat>, tbs: map<TbKey, Tb>, k: TbKey, tb: Tb, w: Tb -> bool)
    requires k !in tbs && totals.Keys == tbs.Keys
    ensures SumIf(totals[k := 0], Keyed(tbs[k := tb], w)) == SumIf(totals, Keyed(tbs, w))
  {
    var before, after := Where(totals, Keyed(tbs, w)), Where(totals[k := 0], Keyed(tbs[k := tb], w));
    if w(tb) {
      assert after == before[k := 0];
      SumPut(before, k, 0);
    } else {
      assert after == before;
    }
  }

  lemma EnterTotals(c: Config, s: State, v: nat, tb: Tb, s': State)
    requires Enters(c, s, v, tb, s')
    ensures ExecTotals(s') == Bump(ExecTotals(s), KeyOf(tb), 1)
  {
    forall k | k in s.tbs ensures TotalExec(s', k) == TotalExec(s, k) + (if k == KeyOf(tb) then 1 else 0) {
      SumByUpdate(s.vcpus, v, s'.vcpus[v], ExecOf(k));
    }
  }

  lemma SameTotals(s: State, v: nat, s': State)
    requires v < |s.vcpus| == |s'.vcpus| && s'.vcpus == s.vcpus[v := s'.vcpus[v]]
    requires s'.vcpus[v].exec == s.vcpus[v].exec && s'.tbs == s.tbs
    ensures ExecTotals(s') == ExecTotals(s)
  {
    forall k | k in s.tbs ensures TotalExec(s', k) == TotalExec(s, k) {
      SumByUpdate(s.vcpus, v, s'.vcpus[v], ExecOf(k));
    }
  }

  /** In every reachable state, the counters of the blocks satisfying `w` sum to the true entries of such blocks. */
  lemma {:induction false} ExecutionsAreCounted(c: Config, t: Trace, states: seq<State>, w: Tb -> bool)
    requires Execution(c, t, states)
    ensures KnownExecs(states[|t|])
    ensures ExecWhere(states[|t|], w) == Count(t, Entered(w))
  {
    if t == [] {
      assert Where(ExecTotals(Init(c)), Keyed(map[], w)) == map[];
    } else {
      ExecutionStep(c, t, states);
      var t0, ev := t[..|t| - 1], t[|t| - 1];
      ExecutionsAreCounted(c, t0, states[..|t|], w);
      KnownExecsStep(c, states[|t| - 1], ev, states[|t|]);
      ExecStep(c, t0, states[|t| - 1], ev, states[|t|], w);
      CountStep(t0, ev, Entered(w));
    }
  }

  /** One block's counter is the number of its entries. */
  lemma TotalExecIsEntries(c: Config, t: Trace, states: seq<State>, k: TbKey)
    requires Execution(c, t, states) && k in states[|t|].tbs
    ensures TotalExec(states[|t|], k) == Count(t, Entered(HasKey(k)))
  {
    var s := states[|t|];
    ExecutionsAreCounted(c, t, states, HasKey(k));
    ControlAlways(c, t, states);
    assert Where(ExecTotals(s), Keyed(s.tbs, HasKey(k))) == map[k := TotalExec(s, k)];
    SumRemove(map[k := TotalExec(s, k)], k);
    assert map[k := TotalExec(s, k)] - {k} == map[];
  }

  /**
   Out-flow conservation for the profile. When blocks run to completion and counting is exact, the
   executions counted for blocks ending at `e` are the recorded branches leaving `e`, the true
   fall-throughs from `e`, and the vCPUs that still stand at `e`.
   */
  lemma ProfileOutflow(c: Config, t: Trace, states: seq<State>, e: u64)
    requires c.tier >= 1 && Execution(c, t, states) && Exact(c, t)
    requires RunsToCompletion(t) && e != 0
    ensures ExecWhere(states[|t|], EndsAt(e)) ==
            Kept(states[|t|], LeavesFrom(e)) + Count(t, FellAlong(LeavesFrom(e))) + Standing(t, c.vcpus, e)
  {
    ExecutionsAreCounted(c, t, states, EndsAt(e));
    TakenBranchesConserved(c, t, states, LeavesFrom(e));
    ControlAlways(c, t, states);
    OutflowConserved(t, c.vcpus, e);
  }

  // ---- The indirect-call relay ----

  ghost function IndirectOf(q: Edge -> bool): Vcpu -> nat {
    (u: Vcpu) => SumIf(u.indirect, q)
  }

  /** Recorded indirect calls along (callsite, target) pairs that satisfy `q`, over all vCPUs. */
  ghost function IndirectCalls(s: State, q: Edge -> bool): nat {
    SumBy(s.vcpus, IndirectOf(q))
  }

  lemma IndirectStep(c: Config, t: Trace, s: State, ev: Event, s': State, q: Edge -> bool)
    requires c.tier >= 2 && Control(c, t, s) && Next(c, s, ev, s')
    ensures IndirectCalls(s', q) == IndirectCalls(s, q) + (if IndirectTaken(q)(t, ev) then 1 else 0)
  {
    match ev
    case Translate(tb) =>
    case Enter(v, tb) =>
      SumByUpdate(s.vcpus, v, s'.vcpus[v], IndirectOf(q));
      FiresExactlyOnTakenBranches(c, t, s, v, tb);
      var u := s.vcpus[v];
      assert Tracks(c, t, v, u);
      SumIfBump(u.indirect, Edge(u.pending, Start(tb)), 1, q);
    case Reach(v, tb, i) =>
      SumByUpdate(s.vcpus, v, s'.vcpus[v], IndirectOf(q));
    case TakeNumber(v) =>
      SumByUpdate(s.vcpus, v, s'.vcpus[v], IndirectOf(q));
    case StoreNumber(v) =>
      SumByUpdate(s.vcpus, v, s'.vcpus[v], IndirectOf(q));
    case CountFlush(v) =>
      SumByUpdate(s.vcpus, v, s'.vcpus[v], IndirectOf(q));
    case WriteFlush(v) =>
      SumByUpdate(s.vcpus, v, s'.vcpus[v], IndirectOf(q));
  }

  /**
   The relay is exact: in every reachable state the indirect calls recorded along any set of
   (callsite, target) pairs are the branch entries whose vCPU had an indirect instruction pending.
   */
  lemma {:induction false} IndirectRelayIsExact(c: Config, t: Trace, states: seq<State>, q: Edge -> bool)
    requires c.tier >= 2 && Execution(c, t, states)
    ensures IndirectCalls(states[|t|], q) == Count(t, IndirectTaken(q))
  {
    if t == [] {
      SumIfEmpty(q);
      InitiallyNothing(c, IndirectOf(q));
    } else {
      ExecutionStep(c, t, states);
      var t0, ev := t[..|t| - 1], t[|t| - 1];
      IndirectRelayIsExact(c, t0, states[..|t|], q);
      ControlAlways(c, t0, states[..|t|]);
      IndirectStep(c, t0, states[|t| - 1], ev, states[|t|], q);
      CountStep(t0, ev, IndirectTaken(q));
    }
  }

  /** Per target, no more indirect calls are recorded than branches, when branch counting is exact. */
  lemma IndirectCallsAreBranches(c: Config, t: Trace, states: seq<State>, a: u64)
    requires c.tier >= 2 && Execution(c, t, states) && Exact(c, t)
    ensures IndirectCalls(states[|t|], EntersAt(a)) <= Kept(states[|t|], EntersAt(a))
  {
    IndirectRelayIsExact(c, t, states, EntersAt(a));
    TakenBranchesConserved(c, t, states, EntersAt(a));
    IndirectAmongTaken(t, a);
  }
}
