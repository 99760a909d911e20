/** When a streaming flush happens: exactly when an accumulator holds `topN` edges. */
module FlushLaws {
  import opened Words
  import opened Counting
  import opened EdgeStorage
  import opened GuestTrace
  import opened Profiler
  import opened LogFormat
  import opened EndToEnd

  /** Every vCPU holds fewer than `n` edges, and every drained batch has exactly `n` records. */
  ghost predicate FlushesAt(s: State, n: nat) {
    && (forall v | 0 <= v < |s.vcpus| :: |s.vcpus[v].edges| < n)
    && (forall v | 0 <= v < |s.vcpus| && s.vcpus[v].flight.Some? :: |s.vcpus[v].flight.value.batch| == n)
    && (forall i | 0 <= i < |s.log| :: |s.log[i]| == n)
  }

  lemma RecordFlushesAt(c: Config, before: EdgeCounts, e: Edge, after: EdgeCounts, flight: Option<Flight>, n: nat)
    requires c.streaming && n == (if c.topN < 1 then 1 else c.topN) && |before| < n
    requires RecordsEdge(c, before, e, after, flight)
    ensures |after| < n && (flight.Some? ==> |flight.value.batch| == n)
  {
    BumpSize(before, e, 1);
  }

  lemma ArrivalFlushesAt(c: Config, u: Vcpu, tb: Tb, first: bool, u': Vcpu, n: nat)
    requires c.streaming && n == (if c.topN < 1 then 1 else c.topN) && |u.edges| < n
    requires Arrives(c, u, tb, first, u')
    ensures |u'.edges| < n && (u'.flight.Some? ==> |u'.flight.value.batch| == n)
  {
    if Fires(c, u, tb) {
      RecordFlushesAt(c, u.edges, Edge(u.lastTbEnd, Start(tb)), u'.edges, u'.flight, n);
    }
  }

  lemma FlushesAtStep(c: Config, s: State, ev: Event, s': State, n: nat)
    requires c.streaming && n == (if c.topN < 1 then 1 else c.topN) && FlushesAt(s, n) && Next(c, s, ev, s')
    ensures FlushesAt(s', n)
  {
    if ev.Enter? {
      ArrivalFlushesAt(c, s.vcpus[ev.vcpu], ev.tb, Numbers(s, ev.vcpu, KeyOf(ev.tb)), s'.vcpus[ev.vcpu], n);
    }
  }

  /**
   In every reachable state of a streaming run no vCPU holds as many as max(1, topN) edges, and every batch
   drained so far, in flight or logged, has exactly that many records.
   */
  lemma {:induction false} FlushesExactlyAtThreshold(c: Config, t: Trace, states: seq<State>)
    requires c.streaming && Execution(c, t, states)
    ensures FlushesAt(states[|t|], if c.topN < 1 then 1 else c.topN)
  {
    if t != [] {
      ExecutionStep(c, t, states);
      FlushesExactlyAtThreshold(c, t[..|t| - 1], states[..|t|]);
      FlushesAtStep(c, states[|t| - 1], t[|t| - 1], states[|t|], if c.topN < 1 then 1 else c.topN);
    }
  }

  lemma {:induction false} BatchIsFlushed(during: seq<Call>, i: nat)
    requires i < |during| && during[i].BranchBatch?
    ensures during[i].edges in FlushedBatches(during)
  {
    if i < |during| - 1 {
      BatchIsFlushed(during[..|during| - 1], i);
    }
  }

  /** So every branch batch written while the program runs has exactly max(1, topN) records. */
  lemma WrittenBatchesAreFull(c: Config, t: Trace, states: seq<State>, during: seq<Call>, i: nat)
    requires c.streaming && Execution(c, t, states) && OnlyFlushes(during, states[|t|].log)
    requires i < |during| && during[i].BranchBatch?
    ensures |during[i].edges| == if c.topN < 1 then 1 else c.topN
  {
    FlushesExactlyAtThreshold(c, t, states);
    BatchIsFlushed(during, i);
  }
}
