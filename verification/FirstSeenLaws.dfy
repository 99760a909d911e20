/** What the first-seen sequence numbers mean, for any number of vCPUs and any retranslations. */
module FirstSeenLaws {
  import opened Words
  import opened Counting
  import opened GuestTrace
  import opened Profiler
  import ControlLaws

  ghost function TranslationsOf(k: TbKey): Pattern {
    (t: Trace, ev: Event) => ev.Translate? && KeyOf(ev.tb) == k
  }

  ghost function RunsOf(v: nat, k: TbKey): Pattern {
    (t: Trace, ev: Event) => ev.Enter? && ev.vcpu == v && KeyOf(ev.tb) == k
  }

  /** Entry `ev` is its vCPU's first run of a block that has been translated exactly once. */
  ghost predicate FirstRun(t: Trace, ev: Event) {
    && ev.Enter?
    && Count(t, RunsOf(ev.vcpu, KeyOf(ev.tb))) == 0
    && Count(t, TranslationsOf(KeyOf(ev.tb))) == 1
  }

  ghost function FirstRunsOf(k: TbKey): Pattern {
    (t: Trace, ev: Event) => FirstRun(t, ev) && KeyOf(ev.tb) == k
  }

  /** The block vCPU `v` entered last, if that was a first run. */
  ghost function FirstRunning(t: Trace, v: nat): Option<TbKey> {
    if t == [] then None
    else
      var t0, ev := t[..|t| - 1], t[|t| - 1];
      if ev.Enter? && ev.vcpu == v then (if FirstRun(t0, ev) then Some(KeyOf(ev.tb)) else None)
      else FirstRunning(t0, v)
  }

  /** Every number is drawn for a first run: the one its vCPU is in. */
  ghost predicate DrawnInFirstRuns(t: Trace) {
    t == [] ||
    (DrawnInFirstRuns(t[..|t| - 1]) &&
     (t[|t| - 1].TakeNumber? ==> FirstRunning(t[..|t| - 1], t[|t| - 1].vcpu).Some?))
  }

  /** The blocks for which numbers have been drawn: number `n` was drawn for the `n`-th. */
  ghost function Drawn(t: Trace): seq<TbKey> {
    if t == [] then []
    else
      var t0, ev := t[..|t| - 1], t[|t| - 1];
      if ev.TakeNumber? && FirstRunning(t0, ev.vcpu).Some? then Drawn(t0) + [FirstRunning(t0, ev.vcpu).value]
      else Drawn(t0)
  }

  /** The number vCPU `v` has drawn last. */
  ghost function LastDrawn(t: Trace, v: nat): nat {
    if t == [] then 0
    else if t[|t| - 1] == TakeNumber(v) then |Drawn(t)|
    else LastDrawn(t[..|t| - 1], v)
  }

  /** The number stored last with block `k`, or zero. */
  ghost function LastStored(t: Trace, k: TbKey): nat {
    if t == [] then 0
    else
      var t0, ev := t[..|t| - 1], t[|t| - 1];
      if ev.StoreNumber? && FirstRunning(t0, ev.vcpu) == Some(k) then LastDrawn(t0, ev.vcpu) else LastStored(t0, k)
  }

  // ---- Any number of vCPUs ----

  /** The counters and the armed blocks agree with the trace. */
  ghost predicate CountsInv(c: Config, t: Trace, s: State) {
    && |s.vcpus| == c.vcpus
    && (forall k :: k in s.tbs <==> Count(t, TranslationsOf(k)) >= 1)
    && (forall k :: k in s.armed <==> Count(t, TranslationsOf(k)) == 1)
    && (forall v, k | 0 <= v < c.vcpus :: Get(s.vcpus[v].exec, k) == Count(t, RunsOf(v, k)))
  }

  /** Number `n` was drawn for block `k`. */
  ghost predicate DrawnFor(t: Trace, n: nat, k: TbKey) {
    1 <= n <= |Drawn(t)| && Drawn(t)[n - 1] == k
  }

  /** A callback under way is for the first run its vCPU is in, with the number it has drawn. */
  ghost predicate NumberingInv(t: Trace, v: nat, numbering: Option<Numbering>) {
    numbering.Some? ==>
      var k, taken := numbering.value.key, numbering.value.taken;
      && FirstRunning(t, v) == Some(k)
      && (taken.Some? ==> taken.value == LastDrawn(t, v) && DrawnFor(t, taken.value, k))
  }

  ghost predicate SeqInv(c: Config, t: Trace, s: State) {
    && CountsInv(c, t, s)
    && s.firstSeen.Keys == s.tbs.Keys && s.nextSeq == |Drawn(t)| + 1 && DrawnInFirstRuns(t)
    && (forall v | 0 <= v < c.vcpus :: NumberingInv(t, v, s.vcpus[v].numbering))
    && (forall v, k | 0 <= v < c.vcpus && FirstRunning(t, v) == Some(k) :: k in s.tbs)
    && (forall k :: Get(s.firstSeen, k) == LastStored(t, k))
    && (forall k | LastStored(t, k) != 0 :: DrawnFor(t, LastStored(t, k), k))
  }

  lemma CountsInvStep(c: Config, t: Trace, s: State, ev: Event, s': State)
    requires CountsInv(c, t, s) && Next(c, s, ev, s')
    ensures CountsInv(c, t + [ev], s')
  {
    forall k ensures k in s'.tbs <==> Count(t + [ev], TranslationsOf(k)) >= 1
             ensures k in s'.armed <==> Count(t + [ev], TranslationsOf(k)) == 1 {
      CountStep(t, ev, TranslationsOf(k));
    }
    forall v, k | 0 <= v < c.vcpus ensures Get(s'.vcpus[v].exec, k) == Count(t + [ev], RunsOf(v, k)) {
      CountStep(t, ev, RunsOf(v, k));
    }
  }

  lemma NumberStep(t: Trace, ev: Event, v: nat, k: TbKey)
    ensures FirstRunning(t + [ev], v) ==
            if ev.Enter? && ev.vcpu == v then (if FirstRun(t, ev) then Some(KeyOf(ev.tb)) else None)
            else FirstRunning(t, v)
    ensures Drawn(t + [ev]) ==
            if ev.TakeNumber? && FirstRunning(t, ev.vcpu).Some? then Drawn(t) + [FirstRunning(t, ev.vcpu).value]
            else Drawn(t)
    ensures LastDrawn(t + [ev], v) == if ev == TakeNumber(v) then |Drawn(t + [ev])| else LastDrawn(t, v)
    ensures LastStored(t + [ev], k) ==
            if ev.StoreNumber? && FirstRunning(t, ev.vcpu) == Some(k) then LastDrawn(t, ev.vcpu) else LastStored(t, k)
    ensures DrawnInFirstRuns(t + [ev]) <==>
            DrawnInFirstRuns(t) && (ev.TakeNumber? ==> FirstRunning(t, ev.vcpu).Some?)
    ensures forall n, j | DrawnFor(t, n, j) :: DrawnFor(t + [ev], n, j)
  {
    assert (t + [ev])[..|t|] == t;
  }

  lemma SeqStep(c: Config, t: Trace, s: State, ev: Event, s': State)
    requires SeqInv(c, t, s) && Next(c, s, ev, s')
    ensures SeqInv(c, t + [ev], s')
  {
    CountsInvStep(c, t, s, ev, s');
    forall v | 0 <= v < c.vcpus
      ensures NumberingInv(t + [ev], v, s'.vcpus[v].numbering)
      ensures forall k | FirstRunning(t + [ev], v) == Some(k) :: k in s'.tbs
    {
      NumberingStep(c, t, s, ev, s', v);
    }
    forall k
      ensures Get(s'.firstSeen, k) == LastStored(t + [ev], k)
      ensures LastStored(t + [ev], k) != 0 ==> DrawnFor(t + [ev], LastStored(t + [ev], k), k)
    {
      StoredStep(c, t, s, ev, s', k);
    }
    NumberStep(t, ev, 0, TbKey(0, 0));
    if ev.TakeNumber? {
      assert NumberingInv(t, ev.vcpu, s.vcpus[ev.vcpu].numbering);
    }
    if ev.StoreNumber? {
      assert NumberingInv(t, ev.vcpu, s.vcpus[ev.vcpu].numbering);
    }
  }

  lemma NumberingStep(c: Config, t: Trace, s: State, ev: Event, s': State, v: nat)
    requires SeqInv(c, t, s) && Next(c, s, ev, s') && v < c.vcpus
    ensures NumberingInv(t + [ev], v, s'.vcpus[v].numbering)
    ensures forall k | FirstRunning(t + [ev], v) == Some(k) :: k in s'.tbs
  {
    NumberStep(t, ev, v, TbKey(0, 0));
    assert NumberingInv(t, v, s.vcpus[v].numbering);
  }

  lemma StoredStep(c: Config, t: Trace, s: State, ev: Event, s': State, k: TbKey)
    requires SeqInv(c, t, s) && Next(c, s, ev, s')
    ensures Get(s'.firstSeen, k) == LastStored(t + [ev], k)
    ensures LastStored(t + [ev], k) != 0 ==> DrawnFor(t + [ev], LastStored(t + [ev], k), k)
  {
    NumberStep(t, ev, 0, k);
    if ev.StoreNumber? {
      assert NumberingInv(t, ev.vcpu, s.vcpus[ev.vcpu].numbering);
    }
  }

  lemma {:induction false} SeqAlways(c: Config, t: Trace, states: seq<State>)
    requires Execution(c, t, states)
    ensures SeqInv(c, t, states[|t|])
  {
    if t != [] {
      ExecutionStep(c, t, states);
      SeqAlways(c, t[..|t| - 1], states[..|t|]);
      SeqStep(c, t[..|t| - 1], states[|t| - 1], t[|t| - 1], states[|t|]);
    }
  }

  /**
   In every reachable state, for any number of vCPUs, numbers are drawn for first runs only, and a
   block's number is the one stored last, which was drawn for that very block.
   */
  lemma NumbersAreFirstRuns(c: Config, t: Trace, states: seq<State>)
    requires Execution(c, t, states)
    ensures DrawnInFirstRuns(t)
    ensures forall k :: Get(states[|t|].firstSeen, k) == LastStored(t, k)
    ensures forall k | Get(states[|t|].firstSeen, k) != 0 :: DrawnFor(t, Get(states[|t|].firstSeen, k), k)
  {
    SeqAlways(c, t, states);
  }

  /** No two blocks ever share a number. */
  lemma NumbersDiffer(c: Config, t: Trace, states: seq<State>, j: TbKey, k: TbKey)
    requires Execution(c, t, states)
    requires Get(states[|t|].firstSeen, j) == Get(states[|t|].firstSeen, k) != 0
    ensures j == k
  {
    SeqAlways(c, t, states);
  }

  // ---- Every first run draws one number ----

  /** Whether a vCPU is about to draw a number for block `k`. */
  ghost function DueFor(k: TbKey): Vcpu -> nat {
    (u: Vcpu) => if u.numbering == Some(Numbering(k, None)) then 1 else 0
  }

  lemma DrawStep(c: Config, t: Trace, s: State, ev: Event, s': State, k: TbKey)
    requires SeqInv(c, t, s) && Next(c, s, ev, s')
    requires Count(t, FirstRunsOf(k)) == multiset(Drawn(t))[k] + SumBy(s.vcpus, DueFor(k))
    ensures Count(t + [ev], FirstRunsOf(k)) == multiset(Drawn(t + [ev]))[k] + SumBy(s'.vcpus, DueFor(k))
  {
    CountStep(t, ev, FirstRunsOf(k));
    if !ev.Translate? {
      var v := ev.vcpu;
      NumberStep(t, ev, v, k);
      SumByUpdate(s.vcpus, v, s'.vcpus[v], DueFor(k));
      assert NumberingInv(t, v, s.vcpus[v].numbering);
    }
  }

  /** For every block, its first runs are the numbers drawn for it and the callbacks about to draw one. */
  lemma {:induction false} FirstRunsDrawOnce(c: Config, t: Trace, states: seq<State>, k: TbKey)
    requires Execution(c, t, states)
    ensures Count(t, FirstRunsOf(k)) == multiset(Drawn(t))[k] + SumBy(states[|t|].vcpus, DueFor(k))
  {
    if t == [] {
      SumByZero(Init(c).vcpus, DueFor(k));
    } else {
      ExecutionStep(c, t, states);
      FirstRunsDrawOnce(c, t[..|t| - 1], states[..|t|], k);
      SeqAlways(c, t[..|t| - 1], states[..|t|]);
      DrawStep(c, t[..|t| - 1], states[|t| - 1], t[|t| - 1], states[|t|], k);
    }
  }

  /** A drawn number has been stored, or is about to be. */
  ghost predicate DrawnIsStored(t: Trace, s: State, k: TbKey) {
    k in Drawn(t) ==>
      LastStored(t, k) != 0 || exists v | 0 <= v < |s.vcpus| :: Storing(s.vcpus[v], k)
  }

  predicate Storing(u: Vcpu, k: TbKey) {
    u.numbering.Some? && u.numbering.value.key == k && u.numbering.value.taken.Some?
  }

  lemma DrawnIsStoredStep(c: Config, t: Trace, s: State, ev: Event, s': State, k: TbKey)
    requires SeqInv(c, t, s) && Next(c, s, ev, s') && DrawnIsStored(t, s, k)
    ensures DrawnIsStored(t + [ev], s', k)
  {
    if !ev.Translate? {
      NumberStep(t, ev, ev.vcpu, k);
      assert NumberingInv(t, ev.vcpu, s.vcpus[ev.vcpu].numbering);
      if v :| 0 <= v < |s.vcpus| && Storing(s.vcpus[v], k) && v != ev.vcpu {
        assert Storing(s'.vcpus[v], k);
      }
      assert Storing(s'.vcpus[ev.vcpu], k) || !Storing(s'.vcpus[ev.vcpu], k);
    } else {
      NumberStep(t, ev, 0, k);
    }
  }

  lemma {:induction false} DrawnAreStored(c: Config, t: Trace, states: seq<State>, k: TbKey)
    requires Execution(c, t, states)
    ensures DrawnIsStored(t, states[|t|], k)
  {
    if t != [] {
      ExecutionStep(c, t, states);
      DrawnAreStored(c, t[..|t| - 1], states[..|t|], k);
      SeqAlways(c, t[..|t| - 1], states[..|t|]);
      DrawnIsStoredStep(c, t[..|t| - 1], states[|t| - 1], t[|t| - 1], states[|t|], k);
    }
  }

  /** Once no callback is under way, a block has a number exactly if it has had a first run. */
  lemma NumberedIffFirstRun(c: Config, t: Trace, states: seq<State>, k: TbKey)
    requires Execution(c, t, states) && Quiet(states[|t|])
    ensures Get(states[|t|].firstSeen, k) != 0 <==> Count(t, FirstRunsOf(k)) > 0
  {
    SeqAlways(c, t, states);
    FirstRunsDrawOnce(c, t, states, k);
    SumByZero(states[|t|].vcpus, DueFor(k));
    DrawnAreStored(c, t, states, k);
  }

  // ---- One vCPU ----

  /** The blocks of the first runs, in trace order; a block appears once per vCPU that first-runs it. */
  ghost function FirstRuns(t: Trace): seq<TbKey> {
    if t == [] then []
    else
      var t0, ev := t[..|t| - 1], t[|t| - 1];
      if FirstRun(t0, ev) then FirstRuns(t0) + [KeyOf(ev.tb)] else FirstRuns(t0)
  }

  /** One plus the last position of `k`, or zero if `k` is absent. */
  ghost function LastSlot(runs: seq<TbKey>, k: TbKey): nat {
    if runs == [] then 0
    else if runs[|runs| - 1] == k then |runs|
    else LastSlot(runs[..|runs| - 1], k)
  }

  lemma LastSlotAppend(runs: seq<TbKey>, j: TbKey, k: TbKey)
    ensures LastSlot(runs + [j], k) == if j == k then |runs| + 1 else LastSlot(runs, k)
  {
    assert (runs + [j])[..|runs|] == runs;
  }

  lemma FirstRunsStep(t: Trace, ev: Event)
    ensures FirstRuns(t + [ev]) == if FirstRun(t, ev) then FirstRuns(t) + [KeyOf(ev.tb)] else FirstRuns(t)
  {
    assert (t + [ev])[..|t|] == t;
  }

  /** The first runs whose numbers are stored: all but the one whose callback is under way. */
  ghost function Numbered(t: Trace, numbering: Option<Numbering>): seq<TbKey> {
    if numbering.Some? && FirstRuns(t) != [] then FirstRuns(t)[..|FirstRuns(t)| - 1] else FirstRuns(t)
  }

  ghost predicate OneVcpuInv(c: Config, t: Trace, s: State) {
    && c.vcpus == 1 && CountsInv(c, t, s) && s.firstSeen.Keys == s.tbs.Keys
    && OneVcpuNumbering(FirstRuns(t), s.vcpus[0].numbering, s.nextSeq)
    && (forall k | k in FirstRuns(t) :: k in s.tbs)
    && (forall k :: Get(s.firstSeen, k) == LastSlot(Numbered(t, s.vcpus[0].numbering), k))
  }

  /** Where the callback under way is with the last first run. */
  ghost predicate OneVcpuNumbering(runs: seq<TbKey>, numbering: Option<Numbering>, nextSeq: nat) {
    match numbering
    case None => nextSeq == |runs| + 1
    case Some(n) =>
      && runs != [] && runs[|runs| - 1] == n.key
      && (n.taken == None ==> nextSeq == |runs|)
      && (n.taken != None ==> n.taken == Some(|runs|) && nextSeq == |runs| + 1)
  }

  lemma OneVcpuStep(c: Config, t: Trace, s: State, ev: Event, s': State)
    requires OneVcpuInv(c, t, s) && Next(c, s, ev, s')
    ensures OneVcpuInv(c, t + [ev], s')
  {
    CountsInvStep(c, t, s, ev, s');
    OneVcpuProgress(c, t, s, ev, s');
    OneVcpuKnows(c, t, s, ev, s');
    forall k ensures Get(s'.firstSeen, k) == LastSlot(Numbered(t + [ev], s'.vcpus[0].numbering), k) {
      OneVcpuNumber(c, t, s, ev, s', k);
    }
  }

  lemma OneVcpuProgress(c: Config, t: Trace, s: State, ev: Event, s': State)
    requires OneVcpuInv(c, t, s) && Next(c, s, ev, s')
    ensures |s'.vcpus| == 1 && OneVcpuNumbering(FirstRuns(t + [ev]), s'.vcpus[0].numbering, s'.nextSeq)
  {
    FirstRunsStep(t, ev);
    if ev.Enter? {
      FirstRunNumbers(c, t, s, ev.vcpu, ev.tb);
    }
  }

  lemma OneVcpuKnows(c: Config, t: Trace, s: State, ev: Event, s': State)
    requires OneVcpuInv(c, t, s) && Next(c, s, ev, s')
    ensures forall k | k in FirstRuns(t + [ev]) :: k in s'.tbs
  {
    FirstRunsStep(t, ev);
  }

  lemma OneVcpuNumber(c: Config, t: Trace, s: State, ev: Event, s': State, k: TbKey)
    requires OneVcpuInv(c, t, s) && Next(c, s, ev, s')
    ensures Get(s'.firstSeen, k) == LastSlot(Numbered(t + [ev], s'.vcpus[0].numbering), k)
  {
    FirstRunsStep(t, ev);
    if ev.Enter? {
      OneVcpuEnters(c, t, s, ev.tb, s', k);
    } else if ev.StoreNumber? {
      OneVcpuStores(c, t, s, s', k);
    } else {
      OneVcpuStays(c, t, s, ev, s', k);
    }
  }

  lemma FirstRunNumbers(c: Config, t: Trace, s: State, v: nat, tb: Tb)
    requires CountsInv(c, t, s) && v < c.vcpus
    ensures FirstRun(t, Enter(v, tb)) <==> Numbers(s, v, KeyOf(tb))
  {
  }

  lemma OneVcpuStays(c: Config, t: Trace, s: State, ev: Event, s': State, k: TbKey)
    requires OneVcpuInv(c, t, s) && Next(c, s, ev, s') && !ev.Enter? && !ev.StoreNumber?
    ensures Get(s'.firstSeen, k) == LastSlot(Numbered(t + [ev], s'.vcpus[0].numbering), k)
  {
    FirstRunsStep(t, ev);
    assert s'.vcpus[0].numbering.Some? <==> s.vcpus[0].numbering.Some?;
    assert Numbered(t + [ev], s'.vcpus[0].numbering) == Numbered(t, s.vcpus[0].numbering);
    assert Get(s'.firstSeen, k) == Get(s.firstSeen, k);
  }

  lemma OneVcpuEnters(c: Config, t: Trace, s: State, tb: Tb, s': State, k: TbKey)
    requires OneVcpuInv(c, t, s) && Enters(c, s, 0, tb, s')
    ensures Get(s'.firstSeen, k) == LastSlot(Numbered(t + [Enter(0, tb)], s'.vcpus[0].numbering), k)
  {
    FirstRunNumbers(c, t, s, 0, tb);
    FirstRunsStep(t, Enter(0, tb));
    assert (FirstRuns(t) + [KeyOf(tb)])[..|FirstRuns(t)|] == FirstRuns(t);
    assert s'.vcpus[0].numbering.Some? <==> FirstRun(t, Enter(0, tb));
    assert Numbered(t + [Enter(0, tb)], s'.vcpus[0].numbering) == FirstRuns(t);
    assert Numbered(t, s.vcpus[0].numbering) == FirstRuns(t);
    assert Get(s.firstSeen, k) == LastSlot(FirstRuns(t), k);
    assert s'.firstSeen == s.firstSeen;
  }

  lemma OneVcpuStores(c: Config, t: Trace, s: State, s': State, k: TbKey)
    requires OneVcpuInv(c, t, s) && StoresNumber(s, 0, s')
    ensures Get(s'.firstSeen, k) == LastSlot(Numbered(t + [StoreNumber(0)], s'.vcpus[0].numbering), k)
  {
    FirstRunsStep(t, StoreNumber(0));
    assert Get(s.firstSeen, k) == LastSlot(FirstRuns(t)[..|FirstRuns(t)| - 1], k);
    StoredLast(s.firstSeen, FirstRuns(t), k);
  }

  lemma StoredLast(firstSeen: map<TbKey, nat>, runs: seq<TbKey>, k: TbKey)
    requires runs != [] && Get(firstSeen, k) == LastSlot(runs[..|runs| - 1], k)
    ensures Get(firstSeen[runs[|runs| - 1] := |runs|], k) == LastSlot(runs, k)
  {
    LastSlotAppend(runs[..|runs| - 1], runs[|runs| - 1], k);
    assert runs == runs[..|runs| - 1] + [runs[|runs| - 1]];
  }

  /** On one vCPU, a block's number is the position of its last first run, once that run's callback is over. */
  lemma {:induction false} NumberIsLastFirstRun(c: Config, t: Trace, states: seq<State>)
    requires c.vcpus == 1 && Execution(c, t, states)
    ensures OneVcpuInv(c, t, states[|t|])
    ensures forall k :: Get(states[|t|].firstSeen, k) == LastSlot(Numbered(t, states[|t|].vcpus[0].numbering), k)
  {
    if t != [] {
      ExecutionStep(c, t, states);
      NumberIsLastFirstRun(c, t[..|t| - 1], states[..|t|]);
      OneVcpuStep(c, t[..|t| - 1], states[|t| - 1], t[|t| - 1], states[|t|]);
    }
  }

  lemma {:induction false} LastSlotIsPosition(runs: seq<TbKey>, k: TbKey)
    ensures LastSlot(runs, k) <= |runs|
    ensures LastSlot(runs, k) == 0 <==> k !in runs
    ensures LastSlot(runs, k) > 0 ==> runs[LastSlot(runs, k) - 1] == k
    ensures forall i | LastSlot(runs, k) <= i < |runs| :: runs[i] != k
  {
    if runs != [] {
      LastSlotIsPosition(runs[..|runs| - 1], k);
    }
  }

  predicate Distinct<T(==)>(xs: seq<T>) {
    forall i, j | 0 <= i < j < |xs| :: xs[i] != xs[j]
  }

  /** The blocks a trace enters, in order of their first entries. */
  ghost function FirstEntries(t: Trace): seq<TbKey> {
    if t == [] then []
    else
      var t0, ev := t[..|t| - 1], t[|t| - 1];
      if ev.Enter? && KeyOf(ev.tb) !in FirstEntries(t0) then FirstEntries(t0) + [KeyOf(ev.tb)] else FirstEntries(t0)
  }

  /** Whenever a block is entered for the first time, it has been translated once. */
  ghost predicate NoEarlyRetranslation(t: Trace) {
    t == [] ||
    var t0, ev := t[..|t| - 1], t[|t| - 1];
    && NoEarlyRetranslation(t0)
    && (ev.Enter? && KeyOf(ev.tb) !in FirstEntries(t0) ==> Count(t0, TranslationsOf(KeyOf(ev.tb))) == 1)
  }

  predicate OnlyVcpu0(t: Trace) {
    forall i | 0 <= i < |t| && t[i].Enter? :: t[i].vcpu == 0
  }

  lemma FirstEntriesStep(t: Trace, ev: Event)
    ensures FirstEntries(t + [ev]) ==
            if ev.Enter? && KeyOf(ev.tb) !in FirstEntries(t) then FirstEntries(t) + [KeyOf(ev.tb)] else FirstEntries(t)
  {
    assert (t + [ev])[..|t|] == t;
  }

  lemma {:induction false} EnteredHasRun(t: Trace, k: TbKey)
    requires OnlyVcpu0(t)
    ensures k in FirstEntries(t) <==> Count(t, RunsOf(0, k)) > 0
  {
    if t != [] {
      EnteredHasRun(t[..|t| - 1], k);
      assert t[|t| - 1].Enter? ==> t[|t| - 1].vcpu == 0;
    }
  }

  lemma {:induction false} FirstEntriesDistinct(t: Trace)
    ensures Distinct(FirstEntries(t))
  {
    if t != [] {
      FirstEntriesDistinct(t[..|t| - 1]);
    }
  }

  /** On one vCPU, first runs are first entries exactly when no block is retranslated before it first runs. */
  lemma {:induction false} FirstRunsAreFirstEntries(t: Trace)
    requires OnlyVcpu0(t)
    ensures |FirstRuns(t)| <= |FirstEntries(t)|
    ensures NoEarlyRetranslation(t) <==> FirstRuns(t) == FirstEntries(t)
  {
    if t != [] {
      var t0, ev := t[..|t| - 1], t[|t| - 1];
      FirstRunsAreFirstEntries(t0);
      if ev.Enter? {
        assert ev.vcpu == 0;
        EnteredHasRun(t0, KeyOf(ev.tb));
        if FirstRun(t0, ev) && FirstRuns(t) == FirstEntries(t) {
          assert FirstRuns(t0) == FirstRuns(t)[..|FirstRuns(t)| - 1];
          assert FirstEntries(t0) == FirstEntries(t)[..|FirstEntries(t)| - 1];
        }
      }
    }
  }

  lemma {:induction false} DistinctSlots(runs: seq<TbKey>, i: nat)
    requires Distinct(runs) && i < |runs|
    ensures LastSlot(runs, runs[i]) == i + 1
  {
    if i < |runs| - 1 {
      DistinctSlots(runs[..|runs| - 1], i);
    }
  }

  /** The callback of the block entered first most recently is under way. */
  predicate LatestUnnumbered(s: State) {
    |s.vcpus| == 1 && s.vcpus[0].numbering.Some?
  }

  /**
   On one vCPU, without retranslation before the first run: in every reachable state the blocks entered
   are numbered 1, 2, 3, ... in the order of their first entries, the latest possibly not yet; and a
   block never entered has number 0.
   */
  lemma FirstSeenOrder(c: Config, t: Trace, states: seq<State>)
    requires c.vcpus == 1 && Execution(c, t, states) && NoEarlyRetranslation(t)
    ensures forall i | 0 <= i < |FirstEntries(t)| ::
              if i == |FirstEntries(t)| - 1 && LatestUnnumbered(states[|t|])
              then Get(states[|t|].firstSeen, FirstEntries(t)[i]) == 0
              else Get(states[|t|].firstSeen, FirstEntries(t)[i]) == i + 1
    ensures forall k | k !in FirstEntries(t) :: Get(states[|t|].firstSeen, k) == 0
    ensures forall k | k in FirstEntries(t) :: k in states[|t|].tbs
  {
    var order := FirstEntries(t);
    NumberIsLastFirstRun(c, t, states);
    OnlyVcpuThereIs(c, t, states);
    FirstRunsAreFirstEntries(t);
    FirstEntriesDistinct(t);
    var numbered := Numbered(t, states[|t|].vcpus[0].numbering);
    assert Distinct(numbered);
    forall k | k !in order ensures Get(states[|t|].firstSeen, k) == 0 {
      LastSlotIsPosition(numbered, k);
    }
    forall i | 0 <= i < |order|
      ensures if i == |order| - 1 && LatestUnnumbered(states[|t|])
              then Get(states[|t|].firstSeen, order[i]) == 0
              else Get(states[|t|].firstSeen, order[i]) == i + 1
    {
      if i < |numbered| {
        DistinctSlots(numbered, i);
      } else {
        LastSlotIsPosition(numbered, order[i]);
      }
    }
  }

  lemma OnlyVcpuThereIs(c: Config, t: Trace, states: seq<State>)
    requires c.vcpus == 1 && Execution(c, t, states)
    ensures OnlyVcpu0(t)
  {
    ControlLaws.ControlAlways(c, t, states);
  }

  // ---- Order, for any number of vCPUs ----

  /** The blocks entered carry the numbers 1, 2, 3, ... in the order of their first entries; no other was drawn. */
  ghost predicate NumberedInEntryOrder(t: Trace, s: State) {
    && s.nextSeq == |FirstEntries(t)| + 1
    && forall i | 0 <= i < |FirstEntries(t)| :: Get(s.firstSeen, FirstEntries(t)[i]) == i + 1
  }

  /**
   Once no callback is under way, blocks are numbered in the order of their first entries if and only if
   numbers were drawn in that order, one for each block.
   */
  lemma NumbersFollowEntries(c: Config, t: Trace, states: seq<State>)
    requires Execution(c, t, states) && Quiet(states[|t|])
    ensures NumberedInEntryOrder(t, states[|t|]) <==> Drawn(t) == FirstEntries(t)
    ensures Drawn(t) == FirstEntries(t) ==> forall k | k !in FirstEntries(t) :: Get(states[|t|].firstSeen, k) == 0
  {
    SeqAlways(c, t, states);
    if NumberedInEntryOrder(t, states[|t|]) {
      DrawnInOrder(c, t, states);
    }
    if Drawn(t) == FirstEntries(t) {
      forall i | 0 <= i < |FirstEntries(t)| ensures Get(states[|t|].firstSeen, FirstEntries(t)[i]) == i + 1 {
        DrawnOnce(c, t, states, i);
      }
      forall k | k !in FirstEntries(t) ensures Get(states[|t|].firstSeen, k) == 0 {
        NumberedIsDrawn(c, t, states, k);
      }
    }
  }

  lemma DrawnAt(c: Config, t: Trace, states: seq<State>, n: nat, k: TbKey)
    requires Execution(c, t, states) && n > 0 && Get(states[|t|].firstSeen, k) == n
    ensures DrawnFor(t, n, k)
  {
    SeqAlways(c, t, states);
    assert LastStored(t, k) == n;
  }

  lemma AsManyDrawn(c: Config, t: Trace, states: seq<State>)
    requires Execution(c, t, states)
    ensures states[|t|].nextSeq == |Drawn(t)| + 1
  {
    SeqAlways(c, t, states);
  }

  lemma EntryDrawnAt(c: Config, t: Trace, states: seq<State>, i: nat)
    requires Execution(c, t, states) && NumberedInEntryOrder(t, states[|t|]) && i < |FirstEntries(t)|
    ensures DrawnFor(t, i + 1, FirstEntries(t)[i])
  {
    DrawnAt(c, t, states, i + 1, FirstEntries(t)[i]);
  }

  lemma SameInOrder(t: Trace, entries: seq<TbKey>)
    requires |entries| == |Drawn(t)| && forall i | 0 <= i < |entries| :: DrawnFor(t, i + 1, entries[i])
    ensures Drawn(t) == entries
  {
    var drawn := Drawn(t);
    forall i | 0 <= i < |entries| ensures drawn[i] == entries[i] {
      assert DrawnFor(t, i + 1, entries[i]);
    }
  }

  lemma DrawnInOrder(c: Config, t: Trace, states: seq<State>)
    requires Execution(c, t, states) && NumberedInEntryOrder(t, states[|t|])
    ensures Drawn(t) == FirstEntries(t)
  {
    AsManyDrawn(c, t, states);
    forall i | 0 <= i < |FirstEntries(t)| ensures DrawnFor(t, i + 1, FirstEntries(t)[i]) {
      EntryDrawnAt(c, t, states, i);
    }
    SameInOrder(t, FirstEntries(t));
  }

  lemma NumberedIsDrawn(c: Config, t: Trace, states: seq<State>, k: TbKey)
    requires Execution(c, t, states)
    ensures Get(states[|t|].firstSeen, k) != 0 ==> k in Drawn(t)
  {
    SeqAlways(c, t, states);
    assert LastStored(t, k) != 0 ==> DrawnFor(t, LastStored(t, k), k);
  }

  /** A block drawn for once keeps that number. */
  lemma DrawnOnce(c: Config, t: Trace, states: seq<State>, i: nat)
    requires Execution(c, t, states) && Quiet(states[|t|]) && Drawn(t) == FirstEntries(t) && i < |FirstEntries(t)|
    ensures Get(states[|t|].firstSeen, FirstEntries(t)[i]) == i + 1
  {
    var k := FirstEntries(t)[i];
    SeqAlways(c, t, states);
    DrawnAreStored(c, t, states, k);
    FirstEntriesDistinct(t);
    assert k in Drawn(t);
    assert DrawnFor(t, LastStored(t, k), k);
  }

  /** On one vCPU numbers are drawn in entry order exactly when no block is retranslated before it first runs. */
  lemma OneVcpuDrawsInOrder(c: Config, t: Trace, states: seq<State>)
    requires c.vcpus == 1 && Execution(c, t, states) && Quiet(states[|t|])
    ensures Drawn(t) == FirstEntries(t) <==> NoEarlyRetranslation(t)
  {
    OnlyVcpuThereIs(c, t, states);
    NumberIsLastFirstRun(c, t, states);
    SeqAlways(c, t, states);
    forall i | 0 <= i < |FirstRuns(t)| ensures i < |Drawn(t)| && Drawn(t)[i] == FirstRuns(t)[i] {
      OneVcpuDraws(c, t, states, i);
    }
    FirstRunsAreFirstEntries(t);
  }

  /** On one vCPU the `n`-th number is drawn for the `n`-th first run. */
  lemma OneVcpuDraws(c: Config, t: Trace, states: seq<State>, i: nat)
    requires c.vcpus == 1 && Execution(c, t, states) && Quiet(states[|t|]) && i < |FirstRuns(t)|
    ensures DrawnFor(t, i + 1, FirstRuns(t)[i])
  {
    var k := FirstRuns(t)[i];
    OnlyVcpuThereIs(c, t, states);
    FirstRunsDistinct(t);
    DistinctSlots(FirstRuns(t), i);
    NumberIsLastFirstRun(c, t, states);
    assert Get(states[|t|].firstSeen, k) == i + 1;
    NumbersAreFirstRuns(c, t, states);
  }

  lemma {:induction false} FirstRunsDistinct(t: Trace)
    requires OnlyVcpu0(t)
    ensures Distinct(FirstRuns(t)) && forall k | k in FirstRuns(t) :: Count(t, RunsOf(0, k)) > 0
  {
    if t != [] {
      FirstRunsDistinct(t[..|t| - 1]);
      assert t[|t| - 1].Enter? ==> t[|t| - 1].vcpu == 0;
    }
  }
}
