/**
 The profiling run as a state machine. One step is one event of the guest trace, one atomic operation
 of the first-seen callback, or one of the two locked sections of a streaming flush. So vCPUs interleave
 at instruction granularity, and callbacks of different vCPUs overlap. Within a step, instrumentation
 acts in registration order. Entering a block does at once all that concerns only the vCPU itself; no
 other vCPU can tell this from doing it between the steps that follow.
 */
module Profiler {
  import opened Words
  import opened Counting
  import opened EdgeStorage
  import opened GuestTrace

  datatype Config = Config(tier: nat, topN: nat, streaming: bool, vcpus: nat)

  /** A drained batch on its way to the log. */
  datatype Flight = Flight(batch: seq<EdgeRecord>, counted: bool)

  /** A first-seen callback under way, before or after it has drawn its number. */
  datatype Numbering = Numbering(key: TbKey, taken: Option<nat>)

  datatype Vcpu = Vcpu(
    lastTbEnd: u64, fallThrough: u64, pending: u64,  // the scoreboard
    exec: map<TbKey, nat>,                           // this vCPU's slice of the execution counters
    edges: EdgeCounts,                               // its edge accumulator
    indirect: EdgeCounts,                            // its (callsite, target) counts
    numbering: Option<Numbering>, flight: Option<Flight>,
    current: Option<Tb>, next: nat)                  // where it is: block and next instruction

  datatype State = State(
    vcpus: seq<Vcpu>,
    tbs: map<TbKey, Tb>,
    armed: set<TbKey>,            // blocks whose current translation carries the first-seen callback
    firstSeen: map<TbKey, nat>,
    nextSeq: nat,
    flushed: map<u64, nat>,       // branch entries per target in flushed batches
    log: seq<seq<EdgeRecord>>)    // the flushed batches, in the order they were written

  function FreshVcpu(): Vcpu {
    Vcpu(0, 0, 0, map[], map[], map[], None, None, None, 0)
  }

  function Init(c: Config): State {
    State(seq(c.vcpus, i => FreshVcpu()), map[], {}, map[], 1, map[], [])
  }

  // ---- Steps ----

  /**
   A new block gets counters and the first-seen callback. A known one keeps its counters, and its
   new translation does not carry the callback.
   */
  ghost predicate Translates(s: State, tb: Tb, s': State) {
    var k := KeyOf(tb);
    if k in s.tbs then
      s.tbs[k] == tb && s' == s.(armed := s.armed - {k})
    else
      s' == s.(tbs := s.tbs[k := tb], armed := s.armed + {k}, firstSeen := s.firstSeen[k := 0])
  }

  /** The branch callback's guard: the last block did not fall through to here, and there was one. */
  predicate Fires(c: Config, u: Vcpu, tb: Tb) {
    c.tier >= 1 && u.fallThrough != Start(tb) && u.lastTbEnd != 0
  }

  /** `record_edge`: in streaming mode a full accumulator is drained into a flight. */
  ghost predicate RecordsEdge(c: Config, before: EdgeCounts, e: Edge, after: EdgeCounts, flight: Option<Flight>) {
    if c.streaming then
      var bumped := Bump(before, e, 1);
      if |bumped| >= c.topN then
        after == map[] && flight.Some? && !flight.value.counted && Enumerates(flight.value.batch, bumped)
      else
        after == bumped && flight.None?
    else
      TopNRecorded(before, e, after, c.topN) && flight.None?
  }

  /** No callback of this vCPU is under way. */
  predicate Settled(u: Vcpu) {
    u.numbering.None? && u.flight.None?
  }

  /** Entry of a block; `first` if the block's first-seen callback fires. */
  ghost predicate Arrives(c: Config, u: Vcpu, tb: Tb, first: bool, u': Vcpu) {
    && Settled(u)
    && u' == u.(
      exec := Bump(u.exec, KeyOf(tb), 1),
      edges := u'.edges, flight := u'.flight,
      numbering := if first then Some(Numbering(KeyOf(tb), None)) else None,
      indirect := if Fires(c, u, tb) && c.tier >= 2 && u.pending != 0
                  then Bump(u.indirect, Edge(u.pending, Start(tb)), 1) else u.indirect,
      pending := if c.tier >= 2 then 0 else u.pending,
      current := Some(tb), next := 0)
    && if Fires(c, u, tb)
       then RecordsEdge(c, u.edges, Edge(u.lastTbEnd, Start(tb)), u'.edges, u'.flight)
       else u'.edges == u.edges && u'.flight == u.flight
  }

  /** The first-seen callback fires: the translation carries it and the vCPU's count has become 1. */
  predicate Numbers(s: State, v: nat, k: TbKey)
    requires v < |s.vcpus|
  {
    k in s.armed && Get(s.vcpus[v].exec, k) == 0
  }

  ghost predicate Enters(c: Config, s: State, v: nat, tb: Tb, s': State) {
    && v < |s.vcpus| && |s'.vcpus| == |s.vcpus|
    && KeyOf(tb) in s.tbs && s.tbs[KeyOf(tb)] == tb
    && Arrives(c, s.vcpus[v], tb, Numbers(s, v, KeyOf(tb)), s'.vcpus[v])
    && s' == s.(vcpus := s.vcpus[v := s'.vcpus[v]])
  }

  /** `fetch_add` on the sequence counter. */
  ghost predicate TakesNumber(s: State, v: nat, s': State) {
    && v < |s.vcpus| && s.vcpus[v].numbering.Some? && s.vcpus[v].numbering.value.taken.None?
    && var n := s.vcpus[v].numbering.value.(taken := Some(s.nextSeq));
       s' == s.(nextSeq := s.nextSeq + 1, vcpus := s.vcpus[v := s.vcpus[v].(numbering := Some(n))])
  }

  ghost predicate StoresNumber(s: State, v: nat, s': State) {
    && v < |s.vcpus| && s.vcpus[v].numbering.Some? && s.vcpus[v].numbering.value.taken.Some?
    && var n := s.vcpus[v].numbering.value;
       s' == s.(
         firstSeen := s.firstSeen[n.key := n.taken.value],
         vcpus := s.vcpus[v := s.vcpus[v].(numbering := None)])
  }

  /** The inline stores of one instruction. */
  function Stored(c: Config, u: Vcpu, tb: Tb, i: nat): Vcpu
    requires i < |tb.insns|
  {
    var last := c.tier >= 1 && i == |tb.insns| - 1;
    u.(
      lastTbEnd := if last then End(tb) else u.lastTbEnd,
      fallThrough := if last then FallThrough(tb) else u.fallThrough,
      pending := if c.tier >= 2 && tb.insns[i].cls.Indirect? then tb.insns[i].addr else u.pending,
      next := i + 1)
  }

  ghost predicate Reaches(c: Config, s: State, v: nat, tb: Tb, i: nat, s': State) {
    && v < |s.vcpus|
    && Settled(s.vcpus[v])
    && s.vcpus[v].current == Some(tb) && s.vcpus[v].next == i < |tb.insns|
    && s' == s.(vcpus := s.vcpus[v := Stored(c, s.vcpus[v], tb, i)])
  }

  /** Adds a batch to the per-target branch entries. */
  function AddBatch(m: map<u64, nat>, batch: seq<EdgeRecord>): map<u64, nat>
    decreases |batch|
  {
    if batch == [] then m else AddBatch(Bump(m, batch[0].to, batch[0].count), batch[1..])
  }

  ghost predicate CountsFlush(s: State, v: nat, s': State) {
    && v < |s.vcpus| && s.vcpus[v].numbering.None? && s.vcpus[v].flight.Some? && !s.vcpus[v].flight.value.counted
    && var f := s.vcpus[v].flight.value;
       s' == s.(
         flushed := AddBatch(s.flushed, f.batch),
         vcpus := s.vcpus[v := s.vcpus[v].(flight := Some(f.(counted := true)))])
  }

  ghost predicate WritesFlush(s: State, v: nat, s': State) {
    && v < |s.vcpus| && s.vcpus[v].flight.Some? && s.vcpus[v].flight.value.counted
    && s' == s.(
      log := s.log + [s.vcpus[v].flight.value.batch],
      vcpus := s.vcpus[v := s.vcpus[v].(flight := None)])
  }

  ghost predicate Next(c: Config, s: State, ev: Event, s': State) {
    match ev
    case Translate(tb) => Translates(s, tb, s')
    case Enter(v, tb) => Enters(c, s, v, tb, s')
    case Reach(v, tb, i) => Reaches(c, s, v, tb, i, s')
    case TakeNumber(v) => TakesNumber(s, v, s')
    case StoreNumber(v) => StoresNumber(s, v, s')
    case CountFlush(v) => CountsFlush(s, v, s')
    case WriteFlush(v) => WritesFlush(s, v, s')
  }

  /** `states` is a run of the profiler over the trace `t`. */
  ghost predicate Execution(c: Config, t: Trace, states: seq<State>) {
    && |states| == |t| + 1
    && states[0] == Init(c)
    && forall i | 0 <= i < |t| :: Next(c, states[i], t[i], states[i + 1])
  }

  /** No callback is under way, as at exit. */
  predicate Quiet(s: State) {
    forall v | 0 <= v < |s.vcpus| :: Settled(s.vcpus[v])
  }

  lemma ExecutionStep(c: Config, t: Trace, states: seq<State>)
    requires Execution(c, t, states) && t != []
    ensures Execution(c, t[..|t| - 1], states[..|t|])
    ensures Next(c, states[|t| - 1], t[|t| - 1], states[|t|])
    ensures t == t[..|t| - 1] + [t[|t| - 1]]
  {
  }

  lemma ExecutionExtends(c: Config, t: Trace, states: seq<State>, ev: Event, s: State)
    requires Execution(c, t, states) && Next(c, states[|t|], ev, s)
    ensures Execution(c, t + [ev], states + [s])
  {
  }
}
