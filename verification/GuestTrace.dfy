/**
 What the guest really does, and how to count it naively. A trace lists the events of a run, all
 vCPUs interleaved; every count below is read off the trace alone, without any profiler state.
 */
module GuestTrace {
  import opened Words
  import opened EdgeStorage
  import opened Decoder

  /** A guest instruction: its bytes as QEMU shows them, and their classification. */
  datatype Insn = Insn(addr: u64, size: nat, code: seq<bv8>, cls: InsnClass)

  /** A translation block. QEMU's blocks are never empty. */
  datatype TbCode = TbCode(insns: seq<Insn>)
  type Tb = tb: TbCode | tb.insns != [] witness TbCode([Insn(0, 0, [], Other)])

  function Start(tb: Tb): u64 {
    tb.insns[0].addr
  }

  /** The address of the last instruction, which the source calls `end_addr`. */
  function End(tb: Tb): u64 {
    tb.insns[|tb.insns| - 1].addr
  }

  /** Where execution continues when the last instruction does not branch. */
  function FallThrough(tb: Tb): u64 {
    Wrap64(End(tb) + tb.insns[|tb.insns| - 1].size)
  }

  /** The profiler's identity of a block: its start and its 16-bit instruction count. */
  datatype TbKey = TbKey(start: u64, nInsns: u16)

  function KeyOf(tb: Tb): TbKey {
    TbKey(Start(tb), |tb.insns| % 0x1_0000)
  }

  datatype Event =
    | Translate(tb: Tb)                 // the block is translated, for the first time or again
    | Enter(vcpu: nat, tb: Tb)          // the vCPU starts executing the block
    | Reach(vcpu: nat, tb: Tb, i: nat)  // the vCPU comes to instruction `i` of the block it entered
    | TakeNumber(vcpu: nat)             // the two atomic operations of the first-seen callback:
    | StoreNumber(vcpu: nat)            // drawing a number, and storing it with the block
    | CountFlush(vcpu: nat)             // the two halves of a streaming flush, each under its own lock
    | WriteFlush(vcpu: nat)

  type Trace = seq<Event>

  /** The direct branches and calls among instructions, as (callsite, target) pairs. */
  function DirectsIn(insns: seq<Insn>): set<Edge> {
    if insns == [] then {}
    else
      DirectsIn(insns[..|insns| - 1]) +
      match insns[|insns| - 1].cls
      case Direct(target) => {Edge(insns[|insns| - 1].addr, target)}
      case _ => {}
  }

  /** The direct branches and calls of all blocks translated so far. */
  function DirectCalls(t: Trace): set<Edge> {
    if t == [] then {}
    else
      var ev := t[|t| - 1];
      DirectCalls(t[..|t| - 1]) + if ev.Translate? then DirectsIn(ev.tb.insns) else {}
  }

  predicate FinishesTb(ev: Event, v: nat) {
    ev.Reach? && ev.vcpu == v && ev.i == |ev.tb.insns| - 1
  }

  /** The block whose last instruction vCPU `v` reached most recently. */
  function LastFinished(t: Trace, v: nat): Option<Tb> {
    if t == [] then None
    else
      var ev := t[|t| - 1];
      if FinishesTb(ev, v) then Some(ev.tb) else LastFinished(t[..|t| - 1], v)
  }

  /** The block vCPU `v` entered most recently. */
  function LastEntered(t: Trace, v: nat): Option<Tb> {
    if t == [] then None
    else
      var ev := t[|t| - 1];
      if ev.Enter? && ev.vcpu == v then Some(ev.tb) else LastEntered(t[..|t| - 1], v)
  }

  /** The last indirect branch or call vCPU `v` has reached inside the block it entered last; 0 if none. */
  function PendingCallsite(t: Trace, v: nat): u64 {
    if t == [] then 0
    else
      var ev := t[|t| - 1];
      if ev.Enter? && ev.vcpu == v then 0
      else if ev.Reach? && ev.vcpu == v && ev.i < |ev.tb.insns| && ev.tb.insns[ev.i].cls.Indirect? then
        ev.tb.insns[ev.i].addr
      else PendingCallsite(t[..|t| - 1], v)
  }

  /** How a vCPU came to enter a block. */
  datatype Arrival =
    | Unattributed         // no block finished before on this vCPU, or one that ends at address 0
    | Fell(from: u64)      // sequentially, from the block ending at `from`
    | Branched(from: u64)  // by a taken branch at `from`

  function ArrivalOf(t: Trace, v: nat, tb: Tb): Arrival {
    match LastFinished(t, v)
    case None => Unattributed
    case Some(p) =>
      if FallThrough(p) == Start(tb) then Fell(End(p))
      else if End(p) == 0 then Unattributed
      else Branched(End(p))
  }

  // ---- Counting ----

  type Pattern = (Trace, Event) -> bool

  /** How many events of the trace match, each judged in the light of the events before it. */
  ghost function Count(t: Trace, p: Pattern): nat {
    if t == [] then 0
    else Count(t[..|t| - 1], p) + (if p(t[..|t| - 1], t[|t| - 1]) then 1 else 0)
  }

  /** Entry `ev` is by a taken branch. */
  predicate Branches(t: Trace, ev: Event) {
    ev.Enter? && ArrivalOf(t, ev.vcpu, ev.tb).Branched?
  }

  /** The edge along which it comes. */
  function Along(t: Trace, ev: Event): Edge
    requires Branches(t, ev)
  {
    Edge(ArrivalOf(t, ev.vcpu, ev.tb).from, Start(ev.tb))
  }

  /** Entries by a taken branch along an edge that satisfies `q`. */
  ghost function Taken(q: Edge -> bool): Pattern {
    (t: Trace, ev: Event) =>
      ev.Enter? && var a := ArrivalOf(t, ev.vcpu, ev.tb); a.Branched? && q(Edge(a.from, Start(ev.tb)))
  }

  ghost function TakenBy(v: nat, q: Edge -> bool): Pattern {
    (t: Trace, ev: Event) =>
      ev.Enter? && ev.vcpu == v && var a := ArrivalOf(t, v, ev.tb); a.Branched? && q(Edge(a.from, Start(ev.tb)))
  }

  /** Sequential entries along an edge that satisfies `q`. */
  ghost function FellAlong(q: Edge -> bool): Pattern {
    (t: Trace, ev: Event) =>
      ev.Enter? && var a := ArrivalOf(t, ev.vcpu, ev.tb); a.Fell? && q(Edge(a.from, Start(ev.tb)))
  }

  ghost function UnattributedAt(addr: u64): Pattern {
    (t: Trace, ev: Event) => ev.Enter? && Start(ev.tb) == addr && ArrivalOf(t, ev.vcpu, ev.tb).Unattributed?
  }

  /** Entries of blocks that satisfy `w`. */
  ghost function Entered(w: Tb -> bool): Pattern {
    (t: Trace, ev: Event) => ev.Enter? && w(ev.tb)
  }

  /** Branch entries that follow a reached indirect branch, along (callsite, target) edges satisfying `q`. */
  ghost function IndirectTaken(q: Edge -> bool): Pattern {
    (t: Trace, ev: Event) =>
      && ev.Enter? && ArrivalOf(t, ev.vcpu, ev.tb).Branched?
      && PendingCallsite(t, ev.vcpu) != 0
      && q(Edge(PendingCallsite(t, ev.vcpu), Start(ev.tb)))
  }

  ghost function StartsAt(a: u64): Tb -> bool {
    (tb: Tb) => Start(tb) == a
  }

  ghost function EndsAt(a: u64): Tb -> bool {
    (tb: Tb) => End(tb) == a
  }

  ghost function HasKey(k: TbKey): Tb -> bool {
    (tb: Tb) => KeyOf(tb) == k
  }

  lemma CountStep(t: Trace, ev: Event, p: Pattern)
    ensures Count(t + [ev], p) == Count(t, p) + (if p(t, ev) then 1 else 0)
  {
    assert (t + [ev])[..|t|] == t;
  }

  lemma {:induction false} CountMono(t: Trace, p: Pattern, q: Pattern)
    requires forall t', ev :: p(t', ev) ==> q(t', ev)
    ensures Count(t, p) <= Count(t, q)
  {
    if t != [] {
      CountMono(t[..|t| - 1], p, q);
    }
  }

  lemma {:induction false} CountAtMostLength(t: Trace, p: Pattern)
    ensures Count(t, p) <= |t|
  {
    if t != [] {
      CountAtMostLength(t[..|t| - 1], p);
    }
  }

  /** Every entry at an address is a taken branch, a fall-through, or unattributed; never two of them. */
  lemma {:induction false} EntriesPartition(t: Trace, a: u64)
    ensures Count(t, Entered(StartsAt(a))) ==
            Count(t, Taken(EntersAt(a))) + Count(t, FellAlong(EntersAt(a))) + Count(t, UnattributedAt(a))
  {
    if t != [] {
      EntriesPartition(t[..|t| - 1], a);
    }
  }

  // ---- Runs whose blocks are never cut short ----

  /** No block of `v` is in progress. */
  predicate Idle(t: Trace, v: nat) {
    if t == [] then true
    else
      var ev := t[|t| - 1];
      if FinishesTb(ev, v) then true
      else if ev.Enter? && ev.vcpu == v then false
      else Idle(t[..|t| - 1], v)
  }

  /** Every vCPU reaches the last instruction of each block before it enters the next one. */
  predicate RunsToCompletion(t: Trace) {
    t == [] ||
    (RunsToCompletion(t[..|t| - 1]) &&
     (t[|t| - 1].Enter? ==> Idle(t[..|t| - 1], t[|t| - 1].vcpu)))
  }

  /** A vCPU reaches instructions only of the block it is in. */
  predicate StaysInTb(t: Trace) {
    t == [] ||
    (StaysInTb(t[..|t| - 1]) &&
     (t[|t| - 1].Reach? ==> LastEntered(t[..|t| - 1], t[|t| - 1].vcpu) == Some(t[|t| - 1].tb)))
  }

  predicate NoZeroEnds(t: Trace) {
    forall i | 0 <= i < |t| && t[i].Enter? :: End(t[i].tb) != 0
  }

  lemma {:induction false} IdleMeansFinished(t: Trace, v: nat)
    requires StaysInTb(t) && RunsToCompletion(t) && Idle(t, v)
    ensures LastFinished(t, v) == LastEntered(t, v)
  {
    if t != [] && !FinishesTb(t[|t| - 1], v) {
      IdleMeansFinished(t[..|t| - 1], v);
    }
  }

  ghost function EnteredVcpus(t: Trace): set<nat> {
    if t == [] then {}
    else EnteredVcpus(t[..|t| - 1]) + (if t[|t| - 1].Enter? then {t[|t| - 1].vcpu} else {})
  }

  lemma {:induction false} EnteredVcpuHasTb(t: Trace, v: nat)
    requires NoZeroEnds(t)
    ensures v in EnteredVcpus(t) <==> LastEntered(t, v).Some?
    ensures v in EnteredVcpus(t) ==> End(LastEntered(t, v).value) != 0
  {
    if t != [] {
      EnteredVcpuHasTb(t[..|t| - 1], v);
    }
  }

  /** When blocks run to completion, only the first entry of each vCPU goes unattributed. */
  lemma {:induction false} UnattributedAtMostOncePerVcpu(t: Trace, a: u64)
    requires StaysInTb(t) && RunsToCompletion(t) && NoZeroEnds(t)
    ensures Count(t, UnattributedAt(a)) <= |EnteredVcpus(t)|
  {
    if t != [] {
      var t0, ev := t[..|t| - 1], t[|t| - 1];
      UnattributedAtMostOncePerVcpu(t0, a);
      if ev.Enter? {
        IdleMeansFinished(t0, ev.vcpu);
        EnteredVcpuHasTb(t0, ev.vcpu);
      }
    }
  }

  // ---- Out-flow ----

  /** Whether the block `v` entered last ends at `e`: its way out has not been taken yet. */
  ghost function StandsAt(t: Trace, v: nat, e: u64): nat {
    match LastEntered(t, v)
    case None => 0
    case Some(tb) => if End(tb) == e then 1 else 0
  }

  /** How many of the vCPUs below `k` stand at `e`. */
  ghost function Standing(t: Trace, k: nat, e: u64): nat {
    if k == 0 then 0 else Standing(t, k - 1, e) + StandsAt(t, k - 1, e)
  }

  lemma LastEnteredStep(t: Trace, ev: Event, v: nat)
    ensures LastEntered(t + [ev], v) == if ev.Enter? && ev.vcpu == v then Some(ev.tb) else LastEntered(t, v)
  {
    assert (t + [ev])[..|t|] == t;
  }

  lemma {:induction false} StandingStep(t: Trace, ev: Event, k: nat, e: u64)
    ensures Standing(t + [ev], k, e) + (if ev.Enter? && ev.vcpu < k then StandsAt(t, ev.vcpu, e) else 0) ==
            Standing(t, k, e) + (if ev.Enter? && ev.vcpu < k && End(ev.tb) == e then 1 else 0)
  {
    if k > 0 {
      StandingStep(t, ev, k - 1, e);
      LastEnteredStep(t, ev, k - 1);
    }
  }

  predicate VcpusBelow(t: Trace, k: nat) {
    forall i | 0 <= i < |t| && t[i].Enter? :: t[i].vcpu < k
  }

  /**
   Out-flow conservation: when blocks run to completion, every execution of a block ending at `e`
   leaves by a taken branch, leaves by falling through, or has not left yet.
   */
  lemma {:induction false} OutflowConserved(t: Trace, k: nat, e: u64)
    requires StaysInTb(t) && RunsToCompletion(t) && VcpusBelow(t, k) && e != 0
    ensures Count(t, Entered(EndsAt(e))) ==
            Count(t, Taken(LeavesFrom(e))) + Count(t, FellAlong(LeavesFrom(e))) + Standing(t, k, e)
  {
    if t == [] {
      NoneStandsAtFirst(k, e);
    } else {
      var t0, ev := t[..|t| - 1], t[|t| - 1];
      assert t == t0 + [ev];
      OutflowConserved(t0, k, e);
      StandingStep(t0, ev, k, e);
      if ev.Enter? {
        IdleMeansFinished(t0, ev.vcpu);
        assert t[|t| - 1].vcpu < k;
        var leaves := StandsAt(t0, ev.vcpu, e);
        assert LastFinished(t0, ev.vcpu) == LastEntered(t0, ev.vcpu);
        var arrival := ArrivalOf(t0, ev.vcpu, ev.tb);
        assert arrival.Branched? ==> (LeavesFrom(e)(Edge(arrival.from, Start(ev.tb))) <==> arrival.from == e);
        assert Taken(LeavesFrom(e))(t0, ev) <==> arrival == Branched(e);
        assert FellAlong(LeavesFrom(e))(t0, ev) <==> arrival == Fell(e);
        assert leaves == 1 <==> arrival == Branched(e) || arrival == Fell(e);
        assert leaves == (if Taken(LeavesFrom(e))(t0, ev) then 1 else 0)
            + (if FellAlong(LeavesFrom(e))(t0, ev) then 1 else 0);
        assert Entered(EndsAt(e))(t0, ev) <==> End(ev.tb) == e;
      }
    }
  }

  lemma {:induction false} NoneStandsAtFirst(k: nat, e: u64)
    ensures Standing([], k, e) == 0
  {
    if k > 0 {
      NoneStandsAtFirst(k - 1, e);
    }
  }

  // ---- The indirect relay ----

  /** The pending callsite is an indirect instruction reached in the block entered last, and in no earlier one. */
  lemma {:induction false} PendingIsInLastTb(t: Trace, v: nat) returns (j: nat)
    requires StaysInTb(t) && PendingCallsite(t, v) != 0
    ensures j < |t| && t[j].Reach? && t[j].vcpu == v
    ensures Some(t[j].tb) == LastEntered(t, v) && t[j].i < |t[j].tb.insns|
    ensures t[j].tb.insns[t[j].i].cls.Indirect? && t[j].tb.insns[t[j].i].addr == PendingCallsite(t, v)
    ensures forall m | j < m < |t| :: !(t[m].Enter? && t[m].vcpu == v)
  {
    var ev := t[|t| - 1];
    if ev.Reach? && ev.vcpu == v && ev.i < |ev.tb.insns| && ev.tb.insns[ev.i].cls.Indirect? {
      j := |t| - 1;
    } else {
      j := PendingIsInLastTb(t[..|t| - 1], v);
    }
  }

  /** The vCPU enters a block, or reaches an indirect instruction. */
  predicate Supersedes(ev: Event, v: nat) {
    || (ev.Enter? && ev.vcpu == v)
    || (ev.Reach? && ev.vcpu == v && ev.i < |ev.tb.insns| && ev.tb.insns[ev.i].cls.Indirect?)
  }

  /** An indirect instruction stays pending from where it is reached until the vCPU moves on. */
  lemma {:induction false} StaysPending(t: Trace, v: nat, j: nat)
    requires j < |t| && t[j].Reach? && t[j].vcpu == v && t[j].i < |t[j].tb.insns|
    requires t[j].tb.insns[t[j].i].cls.Indirect?
    requires forall m | j < m < |t| :: !Supersedes(t[m], v)
    ensures PendingCallsite(t, v) == t[j].tb.insns[t[j].i].addr
  {
    if j < |t| - 1 {
      StaysPending(t[..|t| - 1], v, j);
    }
  }

  lemma {:induction false} MatchIsCounted(t: Trace, p: Pattern, i: nat)
    requires i < |t| && p(t[..i], t[i])
    ensures Count(t, p) >= 1
  {
    if i < |t| - 1 {
      assert t[..|t| - 1][..i] == t[..i];
      MatchIsCounted(t[..|t| - 1], p, i);
    }
  }

  /** Per target, indirect entries are among the branch entries. */
  lemma IndirectAmongTaken(t: Trace, a: u64)
    ensures Count(t, IndirectTaken(EntersAt(a))) <= Count(t, Taken(EntersAt(a)))
  {
    CountMono(t, IndirectTaken(EntersAt(a)), Taken(EntersAt(a)));
  }
}
