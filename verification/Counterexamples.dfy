/** Runs that show where the profile departs from the truth. */
module Counterexamples {
  import opened Words
  import opened Counting
  import opened EdgeStorage
  import opened Decoder
  import opened GuestTrace
  import opened Profiler
  import opened EdgeLaws
  import opened ExecLaws
  import opened FirstSeenLaws
  import opened FallThroughs
  import opened FallThroughLaws
  import opened DirectCallLaws
  import opened TopNEndToEnd
  import opened ExampleRuns
  import opened BranchEncoding
  import opened BranchRoundTrip
  import Decoding
  import DirectCallIndex
  import TopNBound

  predicate Known(tbs: map<TbKey, Tb>, tb: Tb) {
    KeyOf(tb) in tbs && tbs[KeyOf(tb)] == tb
  }

  // ---- Two blocks at one start ----

  predicate SharedBlocks(tbs: map<TbKey, Tb>) {
    Known(tbs, OneInsn(0xFFC)) && Known(tbs, OneInsn(0x1000)) && Known(tbs, TwoInsns(0x1000))
  }

  /** One block falls through to 0x1000, where two blocks of different lengths start. */
  lemma LoadShared() returns (c: Config, t: Trace, states: seq<State>, p: Tb, a: Tb, b: Tb)
    ensures p == OneInsn(0xFFC) && a == OneInsn(0x1000) && b == TwoInsns(0x1000)
    ensures c == Config(1, 10, false, 1) && Ready(c, t, states) && (forall q | EntersOnly(q) :: Count(t, q) == 0)
    ensures SharedBlocks(Now(t, states).tbs)
    ensures Now(t, states).vcpus == [FreshVcpu()]
  {
    p, a, b := OneInsn(0xFFC), OneInsn(0x1000), TwoInsns(0x1000);
    c := Config(1, 10, false, 1);
    var s0 := Begin(c);
    var s1 := Load(c, [], s0, p);
    var s2 := Load(c, [] + [Translate(p)], s1, a);
    states := Load(c, [] + [Translate(p)] + [Translate(a)], s2, b);
    t := [] + [Translate(p)] + [Translate(a)] + [Translate(b)];
    forall q | EntersOnly(q) ensures Count(t, q) == 0 {
      LoadCount([], p, q);
      LoadCount([Translate(p)], a, q);
      LoadCount([] + [Translate(p)] + [Translate(a)], b, q);
    }
  }

  /** Where one vCPU stands, with these branches recorded. */
  predicate StandsAfter(s: State, end: u64, next: u64, edges: EdgeCounts) {
    |s.vcpus| == 1 && s.vcpus[0].lastTbEnd == end && s.vcpus[0].fallThrough == next && s.vcpus[0].edges == edges
  }

  /** The first block is run. */
  lemma RunFirst() returns (c: Config, t: Trace, r1: Trace, states: seq<State>)
    ensures Silent(r1) && c == Config(1, 10, false, 1) && forall q | EntersOnly(q) :: Count(t, q) == 0
    ensures var t1 := t + [Enter(0, OneInsn(0xFFC))] + r1;
            && Ready(c, t1, states) && ArrivalOf(t, 0, OneInsn(0xFFC)) == Unattributed
            && SharedBlocks(Now(t1, states).tbs) && StandsAfter(Now(t1, states), 0xFFC, 0x1000, map[])
  {
    var p, a, b: Tb;
    c, t, states, p, a, b := LoadShared();
    OneInsnEnds(0xFFC);
    ArrivalByScoreboard(c, t, states, p);
    r1, states := Visit(c, t, states, p, map[]);
  }

  /** Then the shorter of the two, by falling through. */
  lemma FallIntoShared() returns (c: Config, t: Trace, r1: Trace, r2: Trace, states: seq<State>)
    ensures Silent(r1) && Silent(r2) && c == Config(1, 10, false, 1) && forall q | EntersOnly(q) :: Count(t, q) == 0
    ensures var t1 := t + [Enter(0, OneInsn(0xFFC))] + r1;
            var t2 := t1 + [Enter(0, OneInsn(0x1000))] + r2;
            && Ready(c, t2, states)
            && ArrivalOf(t, 0, OneInsn(0xFFC)) == Unattributed && ArrivalOf(t1, 0, OneInsn(0x1000)) == Fell(0xFFC)
            && SharedBlocks(Now(t2, states).tbs) && StandsAfter(Now(t2, states), 0x1000, 0x1004, map[])
  {
    c, t, r1, states := RunFirst();
    var t1 := t + [Enter(0, OneInsn(0xFFC))] + r1;
    ArrivalByScoreboard(c, t1, states, OneInsn(0x1000));
    r2, states := Visit(c, t1, states, OneInsn(0x1000), map[]);
  }

  /** Then a branch to the longer one. */
  lemma RunShared() returns (c: Config, t: Trace, states: seq<State>, a: Tb, b: Tb)
    ensures a == OneInsn(0x1000) && b == TwoInsns(0x1000)
    ensures c == Config(1, 10, false, 1) && Ready(c, t, states)
    ensures SharedBlocks(Now(t, states).tbs)
    ensures TrueFallThroughs(t, 0x1000) == 1 && Count(t, UnattributedAt(0x1000)) == 0
    ensures Count(t, Taken(EntersAt(0x1000))) == 1 && Count(t, TakenBy(0, AnyEdge())) == 1
    ensures Count(t, Entered(HasKey(KeyOf(a)))) == 1 && Count(t, Entered(HasKey(KeyOf(b)))) == 1
  {
    var t0, r1, r2, r3: Trace;
    c, t0, r1, r2, states := FallIntoShared();
    a, b := OneInsn(0x1000), TwoInsns(0x1000);
    var t2 := t0 + [Enter(0, OneInsn(0xFFC))] + r1 + [Enter(0, a)] + r2;
    ArrivalByScoreboard(c, t2, states, b);
    var none: EdgeCounts := map[];
    r3, states := Visit(c, t2, states, b, Bump(none, Edge(0x1000, 0x1000), 1));
    t := t2 + [Enter(0, b)] + r3;
    SharedCounts(t0, r1, r2, r3);
  }

  lemma SharedCounts(t: Trace, r1: Trace, r2: Trace, r3: Trace)
    requires Silent(r1) && Silent(r2) && Silent(r3) && forall q | EntersOnly(q) :: Count(t, q) == 0
    requires var (p, a, b) := (OneInsn(0xFFC), OneInsn(0x1000), TwoInsns(0x1000));
             var t1 := t + [Enter(0, p)] + r1;
             var t2 := t1 + [Enter(0, a)] + r2;
             && ArrivalOf(t, 0, p) == Unattributed && ArrivalOf(t1, 0, a) == Fell(0xFFC)
             && ArrivalOf(t2, 0, b) == Branched(0x1000)
    ensures var (p, a, b) := (OneInsn(0xFFC), OneInsn(0x1000), TwoInsns(0x1000));
            var t3 := t + [Enter(0, p)] + r1 + [Enter(0, a)] + r2 + [Enter(0, b)] + r3;
            && TrueFallThroughs(t3, 0x1000) == 1 && Count(t3, UnattributedAt(0x1000)) == 0
            && Count(t3, Taken(EntersAt(0x1000))) == 1 && Count(t3, TakenBy(0, AnyEdge())) == 1
            && Count(t3, Entered(HasKey(KeyOf(a)))) == 1 && Count(t3, Entered(HasKey(KeyOf(b)))) == 1
  {
    var (p, a, b) := (OneInsn(0xFFC), OneInsn(0x1000), TwoInsns(0x1000));
    ThreeVisits(t, p, r1, a, r2, b, r3, FellAlong(EntersAt(0x1000)));
    ThreeVisits(t, p, r1, a, r2, b, r3, UnattributedAt(0x1000));
    ThreeVisits(t, p, r1, a, r2, b, r3, Taken(EntersAt(0x1000)));
    ThreeVisits(t, p, r1, a, r2, b, r3, TakenBy(0, AnyEdge()));
    ThreeVisits(t, p, r1, a, r2, b, r3, Entered(HasKey(KeyOf(a))));
    ThreeVisits(t, p, r1, a, r2, b, r3, Entered(HasKey(KeyOf(b))));
  }

  lemma ThreeVisits(t: Trace, a: Tb, r1: Trace, b: Tb, r2: Trace, x: Tb, r3: Trace, p: Pattern)
    requires Silent(r1) && Silent(r2) && Silent(r3) && EntersOnly(p)
    ensures var t1 := t + [Enter(0, a)] + r1;
            var t2 := t1 + [Enter(0, b)] + r2;
            Count(t2 + [Enter(0, x)] + r3, p) ==
            Count(t, p) + (if p(t, Enter(0, a)) then 1 else 0) + (if p(t1, Enter(0, b)) then 1 else 0)
            + (if p(t2, Enter(0, x)) then 1 else 0)
  {
    var t1 := t + [Enter(0, a)] + r1;
    VisitCount(t, a, r1, p);
    VisitCount(t1, b, r2, p);
    VisitCount(t1 + [Enter(0, b)] + r2, x, r3, p);
  }

  lemma {:induction false} TakenEdgesFew(t: Trace, v: nat)
    ensures |TakenEdges(t, v)| <= Count(t, TakenBy(v, AnyEdge()))
  {
    if t != [] {
      var t0, ev := t[..|t| - 1], t[|t| - 1];
      TakenEdgesFew(t0, v);
      assert t == t0 + [ev];
      CountStep(t0, ev, TakenBy(v, AnyEdge()));
      assert Branches(t0, ev) && ev.vcpu == v ==> AnyEdge()(Along(t0, ev));
    }
  }

  lemma BothExecuted(c: Config, t: Trace, states: seq<State>, a: Tb, b: Tb)
    requires Execution(c, t, states) && Start(a) == Start(b) && KeyOf(a) != KeyOf(b)
    requires Known(Now(t, states).tbs, a) && Known(Now(t, states).tbs, b)
    requires Count(t, Entered(HasKey(KeyOf(a)))) == 1 && Count(t, Entered(HasKey(KeyOf(b)))) == 1
    ensures !AtMostOnePositive(ExecsAt(Now(t, states), Start(a)))
  {
    var execs := ExecsAt(Now(t, states), Start(a));
    TotalExecIsEntries(c, t, states, KeyOf(a));
    TotalExecIsEntries(c, t, states, KeyOf(b));
    assert KeyOf(a) in execs && KeyOf(b) in execs && execs[KeyOf(a)] > 0 && execs[KeyOf(b)] > 0;
  }

  /**
   A run in which the profile misses a fall-through: two blocks at 0x1000 are executed, one entered by
   falling through, one by a branch, and the branch is subtracted from both.
   */
  lemma SharedStartUnderReports() returns (c: Config, t: Trace, states: seq<State>)
    ensures c.tier == 1 && Execution(c, t, states) && Quiet(states[|t|]) && Exact(c, t)
    ensures TrueFallThroughs(t, 0x1000) == 1
    ensures forall edges, out | ExitFallThroughs(states[|t|], edges, out) :: EmittedInto(out, 0x1000) == 0
  {
    var a, b: Tb;
    c, t, states, a, b := RunShared();
    ExactlyOneBranch(c, t, states);
    BothExecuted(c, t, states, a, b);
    SharedHasPredecessor(states[|t|].tbs);
    forall edges, out | ExitFallThroughs(states[|t|], edges, out) ensures EmittedInto(out, 0x1000) == 0 {
      TooFew(c, t, states, edges, out, 0x1000);
    }
  }

  lemma SharedHasPredecessor(tbs: map<TbKey, Tb>)
    requires SharedBlocks(tbs)
    ensures HasPredecessor(tbs, 0x1000)
  {
    assert Known(tbs, OneInsn(0xFFC)) && FallThrough(OneInsn(0xFFC)) == 0x1000;
  }

  lemma ExactlyOneBranch(c: Config, t: Trace, states: seq<State>)
    requires c == Config(1, 10, false, 1) && Execution(c, t, states)
    requires Count(t, Taken(EntersAt(0x1000))) == 1 && Count(t, TakenBy(0, AnyEdge())) == 1
    requires TrueFallThroughs(t, 0x1000) == 1 && Count(t, UnattributedAt(0x1000)) == 0
    ensures Exact(c, t) && BranchEntries(states[|t|], 0x1000) == 1 && Sum(ExecsAt(states[|t|], 0x1000)) == 2
  {
    FewIsExact(c, t);
    ExecsAtAreEntries(c, t, states, 0x1000);
    TakenBranchesConserved(c, t, states, EntersAt(0x1000));
    FlushedSplit(c, t, states, 0x1000);
  }

  lemma FewIsExact(c: Config, t: Trace)
    requires c.vcpus == 1 && Count(t, TakenBy(0, AnyEdge())) <= 2 * c.topN
    ensures Exact(c, t)
  {
    TakenEdgesFew(t, 0);
    forall v | 0 <= v < c.vcpus ensures |TakenEdges(t, v)| <= 2 * c.topN {
      assert v == 0;
    }
  }

  lemma TooFew(c: Config, t: Trace, states: seq<State>, edges: seq<EdgeRecord>, out: seq<EdgeRecord>, a: u64)
    requires c.tier >= 1 && Execution(c, t, states) && Exact(c, t)
    requires ExitFallThroughs(states[|t|], edges, out) && HasPredecessor(states[|t|].tbs, a)
    requires 0 < BranchEntries(states[|t|], a) < Sum(ExecsAt(states[|t|], a))
    requires !AtMostOnePositive(ExecsAt(states[|t|], a))
    ensures EmittedInto(out, a) < TrueFallThroughs(t, a) + Count(t, UnattributedAt(a))
  {
    SharedStartsNeverOverReport(c, t, states, edges, out, a);
  }

  // ---- An entry nobody can attribute ----

  lemma LoadTwo() returns (c: Config, t: Trace, states: seq<State>)
    ensures c == Config(1, 10, false, 1) && Ready(c, t, states) && (forall q | EntersOnly(q) :: Count(t, q) == 0)
    ensures Now(t, states).tbs ==
            map[KeyOf(OneInsn(0xFFC)) := OneInsn(0xFFC), KeyOf(OneInsn(0x1000)) := OneInsn(0x1000)]
    ensures StandsAfter(Now(t, states), 0, 0, map[]) && LastFinished(t, 0) == None
  {
    c := Config(1, 10, false, 1);
    var s0 := Begin(c);
    var s1 := Load(c, [], s0, OneInsn(0xFFC));
    var t1 := [] + [Translate(OneInsn(0xFFC))];
    states := Load(c, t1, s1, OneInsn(0x1000));
    t := t1 + [Translate(OneInsn(0x1000))];
    forall q | EntersOnly(q) ensures Count(t, q) == 0 {
      LoadCount([], OneInsn(0xFFC), q);
      LoadCount(t1, OneInsn(0x1000), q);
    }
    assert t[..|t| - 1] == t1 && t1[..|t1| - 1] == [];
    assert !FinishesTb(t[1], 0) && !FinishesTb(t1[0], 0);
    assert LastFinished(t1, 0) == LastFinished([], 0);
  }

  /** The vCPU starts in the second of two adjacent blocks, which nothing falls through to. */
  lemma StartInSecond() returns (c: Config, t: Trace, states: seq<State>)
    ensures c == Config(1, 10, false, 1) && Ready(c, t, states)
    ensures OneTbPerStart(Now(t, states), 0x1000) && HasPredecessor(Now(t, states).tbs, 0x1000)
    ensures TrueFallThroughs(t, 0x1000) == 0 && Count(t, UnattributedAt(0x1000)) == 1
    ensures Count(t, TakenBy(0, AnyEdge())) == 0
  {
    var t0, rest: Trace;
    c, t0, states := LoadTwo();
    ArrivalByScoreboard(c, t0, states, OneInsn(0x1000));
    rest, states := Visit(c, t0, states, OneInsn(0x1000), map[]);
    t := t0 + [Enter(0, OneInsn(0x1000))] + rest;
    VisitCount(t0, OneInsn(0x1000), rest, FellAlong(EntersAt(0x1000)));
    VisitCount(t0, OneInsn(0x1000), rest, UnattributedAt(0x1000));
    VisitCount(t0, OneInsn(0x1000), rest, TakenBy(0, AnyEdge()));
    AdjacentBlocks(Now(t, states));
  }

  lemma ReadyIsQuiet(c: Config, t: Trace, states: seq<State>)
    requires Ready(c, t, states)
    ensures Execution(c, t, states) && Quiet(states[|t|])
  {
  }

  lemma StartedExactly() returns (c: Config, t: Trace, states: seq<State>)
    ensures c.tier == 1 && Execution(c, t, states) && Quiet(states[|t|]) && Exact(c, t)
    ensures OneTbPerStart(states[|t|], 0x1000) && HasPredecessor(states[|t|].tbs, 0x1000)
    ensures TrueFallThroughs(t, 0x1000) == 0 && Count(t, UnattributedAt(0x1000)) == 1
  {
    c, t, states := StartInSecond();
    ReadyIsQuiet(c, t, states);
    FewIsExact(c, t);
  }

  /** A run in which an initial entry is reported as a fall-through: the truth into 0x1000 is 0, every dump says 1. */
  lemma InitialEntryIsReported() returns (c: Config, t: Trace, states: seq<State>)
    ensures c.tier == 1 && Execution(c, t, states) && Quiet(states[|t|]) && Exact(c, t)
    ensures TrueFallThroughs(t, 0x1000) == 0
    ensures forall edges, out | ExitFallThroughs(states[|t|], edges, out) :: EmittedInto(out, 0x1000) == 1
  {
    c, t, states := StartedExactly();
    AllReportOne(c, t, states);
  }

  lemma AllReportOne(c: Config, t: Trace, states: seq<State>)
    requires c.tier >= 1 && Execution(c, t, states) && Exact(c, t)
    requires OneTbPerStart(states[|t|], 0x1000) && HasPredecessor(states[|t|].tbs, 0x1000)
    requires TrueFallThroughs(t, 0x1000) == 0 && Count(t, UnattributedAt(0x1000)) == 1
    ensures forall edges, out | ExitFallThroughs(states[|t|], edges, out) :: EmittedInto(out, 0x1000) == 1
  {
    forall edges, out | ExitFallThroughs(states[|t|], edges, out) ensures EmittedInto(out, 0x1000) == 1 {
      OneReported(c, t, states, edges, out);
    }
  }

  lemma OneReported(c: Config, t: Trace, states: seq<State>, edges: seq<EdgeRecord>, out: seq<EdgeRecord>)
    requires c.tier >= 1 && Execution(c, t, states) && Exact(c, t)
    requires ExitFallThroughs(states[|t|], edges, out)
    requires OneTbPerStart(states[|t|], 0x1000) && HasPredecessor(states[|t|].tbs, 0x1000)
    requires TrueFallThroughs(t, 0x1000) == 0 && Count(t, UnattributedAt(0x1000)) == 1
    ensures EmittedInto(out, 0x1000) == 1
  {
    FallThroughsAreExact(c, t, states, edges, out, 0x1000);
  }

  lemma AdjacentBlocks(s: State)
    requires s.tbs == map[KeyOf(OneInsn(0xFFC)) := OneInsn(0xFFC), KeyOf(OneInsn(0x1000)) := OneInsn(0x1000)]
    ensures OneTbPerStart(s, 0x1000) && HasPredecessor(s.tbs, 0x1000)
  {
    OneInsnEnds(0xFFC);
    assert KeyOf(OneInsn(0xFFC)) in s.tbs;
  }

  // ---- Instructions of different sizes ----

  /** A RISC-V block of a two-byte C.NOP and a four-byte BNE. */
  function MixedTb(): Tb {
    TbCode([Insn(0x1000, 2, [0x01, 0x00], Other), Insn(0x1002, 4, [0x63, 0x14, 0xB5, 0x00], Other)])
  }

  /** The C.NOP right after it. */
  function AfterMixed(): Tb {
    TbCode([Insn(0x1006, 2, [0x01, 0x00], Other)])
  }

  lemma MixedDecoded()
    ensures Decoding.Decoded(Riscv, MixedTb()) && Decoding.Decoded(Riscv, AfterMixed())
  {
  }

  predicate MixedBlocks(tbs: map<TbKey, Tb>) {
    tbs == map[KeyOf(MixedTb()) := MixedTb(), KeyOf(AfterMixed()) := AfterMixed()]
  }

  lemma LoadMixed() returns (c: Config, t: Trace, states: seq<State>)
    ensures c == Config(1, 10, false, 1) && Ready(c, t, states) && (forall q | EntersOnly(q) :: Count(t, q) == 0)
    ensures t == [Translate(MixedTb()), Translate(AfterMixed())]
    ensures MixedBlocks(Now(t, states).tbs) && StandsAfter(Now(t, states), 0, 0, map[])
    ensures LastFinished(t, 0) == None
  {
    var a, b := MixedTb(), AfterMixed();
    c := Config(1, 10, false, 1);
    var s0 := Begin(c);
    var s1 := Load(c, [], s0, a);
    var t1 := [] + [Translate(a)];
    states := Load(c, t1, s1, b);
    t := t1 + [Translate(b)];
    forall q | EntersOnly(q) ensures Count(t, q) == 0 {
      LoadCount([], a, q);
      LoadCount(t1, b, q);
    }
    assert t[..|t| - 1] == t1 && t1[..|t1| - 1] == [];
    assert !FinishesTb(t[1], 0) && !FinishesTb(t1[0], 0);
    assert LastFinished(t1, 0) == LastFinished([], 0);
  }

  lemma RunMixed() returns (c: Config, t0: Trace, r1: Trace, r2: Trace, states: seq<State>)
    ensures c == Config(1, 10, false, 1) && Silent(r1) && Silent(r2)
    ensures t0 == [Translate(MixedTb()), Translate(AfterMixed())]
    ensures forall q | EntersOnly(q) :: Count(t0, q) == 0
    ensures var t1 := t0 + [Enter(0, MixedTb())] + r1;
            var t2 := t1 + [Enter(0, AfterMixed())] + r2;
            && Ready(c, t2, states) && MixedBlocks(Now(t2, states).tbs)
            && ArrivalOf(t0, 0, MixedTb()) == Unattributed && ArrivalOf(t1, 0, AfterMixed()) == Fell(0x1002)
            && StandsAfter(Now(t2, states), 0x1006, 0x1008, map[])
  {
    c, t0, states := LoadMixed();
    r1, states := Visit(c, t0, states, MixedTb(), map[]);
    var t1 := t0 + [Enter(0, MixedTb())] + r1;
    assert StandsAfter(Now(t1, states), 0x1002, 0x1006, map[]);
    ArrivalByScoreboard(c, t1, states, AfterMixed());
    r2, states := Visit(c, t1, states, AfterMixed(), map[]);
  }

  /**
   A run through instructions of different sizes: the block at 0x1000 ends at 0x1002 and runs on into 0x1006.
   No branch is recorded, and every dump reports the one fall-through, from 0x1002.
   */
  lemma MixedSizesFallThrough() returns (c: Config, t: Trace, states: seq<State>)
    ensures c.tier == 1 && Execution(c, t, states) && Quiet(states[|t|]) && Decoding.AllDecoded(Riscv, t)
    ensures Count(t, FellAlong(Is(Edge(0x1002, 0x1006)))) == 1
    ensures |states[|t|].vcpus| == 1 && states[|t|].vcpus[0].edges == map[]
    ensures forall edges, out | ExitFallThroughs(states[|t|], edges, out) ::
              TotalIf(out, Is(Edge(0x1002, 0x1006))) == TotalIf(out, EntersAt(0x1006)) == 1
  {
    var t0, r1, r2: Trace;
    c, t0, r1, r2, states := RunMixed();
    t := t0 + [Enter(0, MixedTb())] + r1 + [Enter(0, AfterMixed())] + r2;
    MixedCounts(t0, r1, r2);
    MixedAllDecoded(t0, r1, r2);
    FewIsExact(c, t);
    forall edges, out | ExitFallThroughs(states[|t|], edges, out)
      ensures TotalIf(out, Is(Edge(0x1002, 0x1006))) == TotalIf(out, EntersAt(0x1006)) == 1
    {
      MixedReported(c, t, states, edges, out);
    }
  }

  lemma MixedCounts(t0: Trace, r1: Trace, r2: Trace)
    requires Silent(r1) && Silent(r2) && forall q | EntersOnly(q) :: Count(t0, q) == 0
    requires var t1 := t0 + [Enter(0, MixedTb())] + r1;
             ArrivalOf(t0, 0, MixedTb()) == Unattributed && ArrivalOf(t1, 0, AfterMixed()) == Fell(0x1002)
    ensures var t := t0 + [Enter(0, MixedTb())] + r1 + [Enter(0, AfterMixed())] + r2;
            && Count(t, FellAlong(Is(Edge(0x1002, 0x1006)))) == 1 && TrueFallThroughs(t, 0x1006) == 1
            && Count(t, UnattributedAt(0x1006)) == 0 && Count(t, TakenBy(0, AnyEdge())) == 0
  {
    TwoVisits(t0, MixedTb(), r1, AfterMixed(), r2, FellAlong(Is(Edge(0x1002, 0x1006))));
    TwoVisits(t0, MixedTb(), r1, AfterMixed(), r2, FellAlong(EntersAt(0x1006)));
    TwoVisits(t0, MixedTb(), r1, AfterMixed(), r2, UnattributedAt(0x1006));
    TwoVisits(t0, MixedTb(), r1, AfterMixed(), r2, TakenBy(0, AnyEdge()));
    assert Is(Edge(0x1002, 0x1006))(Edge(0x1002, 0x1006)) && EntersAt(0x1006)(Edge(0x1002, 0x1006));
  }

  lemma TwoVisits(t: Trace, a: Tb, r1: Trace, b: Tb, r2: Trace, p: Pattern)
    requires Silent(r1) && Silent(r2) && EntersOnly(p)
    ensures var t1 := t + [Enter(0, a)] + r1;
            Count(t1 + [Enter(0, b)] + r2, p) ==
            Count(t, p) + (if p(t, Enter(0, a)) then 1 else 0) + (if p(t1, Enter(0, b)) then 1 else 0)
  {
    VisitCount(t, a, r1, p);
    VisitCount(t + [Enter(0, a)] + r1, b, r2, p);
  }

  lemma MixedAllDecoded(t0: Trace, r1: Trace, r2: Trace)
    requires Silent(r1) && Silent(r2) && t0 == [Translate(MixedTb()), Translate(AfterMixed())]
    ensures Decoding.AllDecoded(Riscv, t0 + [Enter(0, MixedTb())] + r1 + [Enter(0, AfterMixed())] + r2)
  {
    MixedDecoded();
    var t := t0 + [Enter(0, MixedTb())] + r1 + [Enter(0, AfterMixed())] + r2;
    forall i | 0 <= i < |t| && t[i].Translate? ensures Decoding.Decoded(Riscv, t[i].tb) {
      assert i < |t0|;
    }
  }

  lemma MixedPredecessor(s: State)
    requires MixedBlocks(s.tbs)
    ensures OneTbPerStart(s, 0x1006) && HasPredecessor(s.tbs, 0x1006)
    ensures forall k | k in s.tbs && FallThrough(s.tbs[k]) == 0x1006 :: End(s.tbs[k]) == 0x1002
  {
    assert KeyOf(MixedTb()) in s.tbs && s.tbs[KeyOf(MixedTb())] == MixedTb();
    assert FallThrough(MixedTb()) == 0x1006;
  }

  lemma MixedReported(c: Config, t: Trace, states: seq<State>, edges: seq<EdgeRecord>, out: seq<EdgeRecord>)
    requires c.tier >= 1 && Execution(c, t, states) && Exact(c, t) && ExitFallThroughs(states[|t|], edges, out)
    requires MixedBlocks(states[|t|].tbs)
    requires TrueFallThroughs(t, 0x1006) == 1 && Count(t, UnattributedAt(0x1006)) == 0
    ensures TotalIf(out, Is(Edge(0x1002, 0x1006))) == TotalIf(out, EntersAt(0x1006)) == 1
  {
    MixedPredecessor(states[|t|]);
    FallThroughsAreExact(c, t, states, edges, out, 0x1006);
    SameTotal(out, Is(Edge(0x1002, 0x1006)), EntersAt(0x1006));
  }

  lemma {:induction false} SameTotal(out: seq<EdgeRecord>, p: Edge -> bool, q: Edge -> bool)
    requires forall r | r in out :: p(r.Key()) <==> q(r.Key())
    ensures TotalIf(out, p) == TotalIf(out, q)
  {
    if out != [] {
      SameTotal(out[1..], p, q);
    }
  }

  // ---- Pruning ----

  predicate Triangle(tbs: map<TbKey, Tb>) {
    Known(tbs, OneInsn(0x1000)) && Known(tbs, OneInsn(0x2000)) && Known(tbs, OneInsn(0x3000))
  }

  /** Three blocks and a table for one edge. */
  lemma LoadTriangle() returns (c: Config, t: Trace, states: seq<State>)
    ensures c == Config(1, 1, false, 1) && Ready(c, t, states)
    ensures Triangle(Now(t, states).tbs) && StandsAfter(Now(t, states), 0, 0, map[])
  {
    c := Config(1, 1, false, 1);
    var s0 := Begin(c);
    var s1 := Load(c, [], s0, OneInsn(0x1000));
    var t1 := [] + [Translate(OneInsn(0x1000))];
    var s2 := Load(c, t1, s1, OneInsn(0x2000));
    states := Load(c, t1 + [Translate(OneInsn(0x2000))], s2, OneInsn(0x3000));
    t := t1 + [Translate(OneInsn(0x2000))] + [Translate(OneInsn(0x3000))];
  }

  /** One more block of the triangle, entered by a branch. */
  lemma Corner(c: Config, t: Trace, states: seq<State>, tb: Tb, from: u64, next: u64, edges: EdgeCounts,
      after: EdgeCounts)
      returns (t': Trace, states': seq<State>)
    requires c == Config(1, 1, false, 1) && Ready(c, t, states) && Triangle(Now(t, states).tbs)
    requires Known(Now(t, states).tbs, tb)
    requires StandsAfter(Now(t, states), from, next, edges) && from != 0 && next != Start(tb)
    requires TopNRecorded(edges, Edge(from, Start(tb)), after, 1)
    ensures Ready(c, t', states') && Triangle(Now(t', states').tbs)
    ensures StandsAfter(Now(t', states'), End(tb), FallThrough(tb), after)
    ensures TakenEdges(t', 0) == TakenEdges(t, 0) + {Edge(from, Start(tb))}
  {
    var rest: Trace;
    ArrivalByScoreboard(c, t, states, tb);
    rest, states' := Visit(c, t, states, tb, after);
    t' := t + [Enter(0, tb)] + rest;
    CornerEdge(t, tb, rest, from);
  }

  lemma CornerEdge(t: Trace, tb: Tb, rest: Trace, from: u64)
    requires Silent(rest) && ArrivalOf(t, 0, tb) == Branched(from)
    ensures TakenEdges(t + [Enter(0, tb)] + rest, 0) == TakenEdges(t, 0) + {Edge(from, Start(tb))}
  {
    SilentEdges(t + [Enter(0, tb)], rest);
    assert (t + [Enter(0, tb)])[..|t|] == t;
    assert Branches(t, Enter(0, tb)) && Along(t, Enter(0, tb)) == Edge(from, Start(tb));
  }

  lemma {:induction false} SilentEdges(t: Trace, rest: Trace)
    requires Silent(rest)
    ensures TakenEdges(t + rest, 0) == TakenEdges(t, 0)
    decreases |rest|
  {
    if rest == [] {
      assert t + rest == t;
    } else {
      var n := |rest| - 1;
      SilentEdges(t, rest[..n]);
      assert (t + rest)[..|t + rest| - 1] == t + rest[..n];
    }
  }

  lemma FirstCorner() returns (c: Config, t: Trace, states: seq<State>)
    ensures c == Config(1, 1, false, 1) && Ready(c, t, states) && Triangle(Now(t, states).tbs)
    ensures StandsAfter(Now(t, states), 0x1000, 0x1004, map[])
  {
    var t0: Trace;
    var rest: Trace;
    c, t0, states := LoadTriangle();
    rest, states := Visit(c, t0, states, OneInsn(0x1000), map[]);
    t := t0 + [Enter(0, OneInsn(0x1000))] + rest;
  }

  /** One side of the triangle. */
  lemma OneSide(one: EdgeCounts) returns (c: Config, t: Trace, states: seq<State>)
    requires one == map[Edge(0x1000, 0x2000) := 1]
    ensures c == Config(1, 1, false, 1) && Ready(c, t, states) && Triangle(Now(t, states).tbs)
    ensures StandsAfter(Now(t, states), 0x2000, 0x2004, one) && Edge(0x1000, 0x2000) in TakenEdges(t, 0)
  {
    c, t, states := FirstCorner();
    FirstFits(one);
    OneInsnEnds(0x2000);
    t, states := Corner(c, t, states, OneInsn(0x2000), 0x1000, 0x1004, map[], one);
  }

  /** Two sides. */
  lemma TwoSides(one: EdgeCounts, two: EdgeCounts) returns (c: Config, t: Trace, states: seq<State>)
    requires one == map[Edge(0x1000, 0x2000) := 1]
    requires two == map[Edge(0x1000, 0x2000) := 1, Edge(0x2000, 0x3000) := 1]
    ensures c == Config(1, 1, false, 1) && Ready(c, t, states) && Triangle(Now(t, states).tbs)
    ensures StandsAfter(Now(t, states), 0x3000, 0x3004, two)
    ensures Edge(0x1000, 0x2000) in TakenEdges(t, 0) && Edge(0x2000, 0x3000) in TakenEdges(t, 0)
  {
    c, t, states := OneSide(one);
    SecondFits(one, two);
    OneInsnEnds(0x3000);
    t, states := Corner(c, t, states, OneInsn(0x3000), 0x2000, 0x2004, one, two);
  }

  /** Once round the triangle. */
  lemma RoundTriangle() returns (c: Config, t: Trace, states: seq<State>)
    ensures c == Config(1, 1, false, 1) && Ready(c, t, states)
    ensures {Edge(0x1000, 0x2000), Edge(0x2000, 0x3000), Edge(0x3000, 0x1000)} <= TakenEdges(t, 0)
  {
    var one: EdgeCounts := map[Edge(0x1000, 0x2000) := 1];
    var two: EdgeCounts := map[Edge(0x1000, 0x2000) := 1, Edge(0x2000, 0x3000) := 1];
    c, t, states := TwoSides(one, two);
    ThirdPrunes(one, two);
    t, states := Corner(c, t, states, OneInsn(0x1000), 0x3000, 0x3004, two, one);
  }

  lemma OneInsnEnds(addr: u64)
    requires addr + 4 < TWO_64
    ensures Start(OneInsn(addr)) == End(OneInsn(addr)) == addr && FallThrough(OneInsn(addr)) == addr + 4
  {
  }

  lemma FirstFits(one: EdgeCounts)
    requires one == map[Edge(0x1000, 0x2000) := 1]
    ensures TopNRecorded(map[], Edge(0x1000, 0x2000), one, 1)
  {
    assert |one| == |one.Keys| == 1;
  }

  lemma SecondFits(one: EdgeCounts, two: EdgeCounts)
    requires one == map[Edge(0x1000, 0x2000) := 1]
    requires two == map[Edge(0x1000, 0x2000) := 1, Edge(0x2000, 0x3000) := 1]
    ensures TopNRecorded(one, Edge(0x2000, 0x3000), two, 1)
  {
    assert two.Keys == {Edge(0x1000, 0x2000), Edge(0x2000, 0x3000)};
    assert |two| == |two.Keys| == 2;
  }

  /** A run of four entries in bounded mode with N = 1 after which some taken branch is not counted. */
  lemma PruningLosesABranch() returns (c: Config, t: Trace, states: seq<State>, e: Edge)
    ensures c == Config(1, 1, false, 1) && Execution(c, t, states) && Quiet(states[|t|])
    ensures Kept(states[|t|], Is(e)) < Count(t, Taken(Is(e)))
  {
    c, t, states := RoundTriangle();
    ThreeEdgesInexact(c, t);
    CountsExactIff(c, t, states);
    e :| Kept(states[|t|], Is(e)) != Count(t, Taken(Is(e)));
    TakenBranchesConserved(c, t, states, Is(e));
  }

  lemma ThreeEdgesInexact(c: Config, t: Trace)
    requires c == Config(1, 1, false, 1)
    requires {Edge(0x1000, 0x2000), Edge(0x2000, 0x3000), Edge(0x3000, 0x1000)} <= TakenEdges(t, 0)
    ensures !Exact(c, t)
  {
    var three := {Edge(0x1000, 0x2000), Edge(0x2000, 0x3000), Edge(0x3000, 0x1000)};
    assert |three| == 3;
    TopNBound.SubsetSize(three, TakenEdges(t, 0));
    assert |TakenEdges(t, 0)| > 2 * c.topN;
  }

  lemma ThirdPrunes(one: EdgeCounts, two: EdgeCounts)
    requires one == map[Edge(0x1000, 0x2000) := 1]
    requires two == map[Edge(0x1000, 0x2000) := 1, Edge(0x2000, 0x3000) := 1]
    ensures TopNRecorded(two, Edge(0x3000, 0x1000), one, 1)
  {
    var bumped := Bump(two, Edge(0x3000, 0x1000), 1);
    assert bumped.Keys == {Edge(0x1000, 0x2000), Edge(0x2000, 0x3000), Edge(0x3000, 0x1000)};
    assert |bumped| == |bumped.Keys| == 3;
    assert |one| == |one.Keys| == 1;
  }

  // ---- Direct calls ----

  /** Three AArch64 instructions of which the last is a BL to 0x5000. */
  function CallingTb(): Tb {
    TbCode([Insn(0x1000, 4, NOP, Other), Insn(0x1004, 4, NOP, Other),
            Insn(0x1008, 4, Bytes32(EncodeB(true, 0x3FF8)), Direct(0x5000))])
  }

  lemma NopIsOther(addr: u64)
    ensures Classify(Aarch64, NOP, addr, 4) == Other
  {
    assert Word32(NOP) == 0xD503_201F;
  }

  lemma CallIsDirect()
    ensures Classify(Aarch64, Bytes32(EncodeB(true, 0x3FF8)), 0x1008, 4) == Direct(0x5000)
  {
    BRoundTrip(true, 0x3FF8, 0x1008, 4);
    assert Signed(0x3FF8) == 0x3FF8;
  }

  lemma CallingTbDecoded()
    ensures Decoding.Decoded(Aarch64, CallingTb())
  {
    NopIsOther(0x1000);
    NopIsOther(0x1004);
    CallIsDirect();
  }

  lemma OneInsnDecoded(addr: u64)
    ensures Decoding.Decoded(Aarch64, OneInsn(addr))
  {
    NopIsOther(addr);
  }

  /** The call's block was run, but a block nested in it is found first: the call is recorded with count 0. */
  lemma NestedBlockHidesCall() returns (c: Config, t: Trace, states: seq<State>)
    ensures c.tier == 2 && Execution(c, t, states) && Quiet(states[|t|]) && Decoding.AllDecoded(Aarch64, t)
    ensures Edge(0x1008, 0x5000) in DirectCalls(t) && Count(t, Entered(OverAddr(0x1008))) == 1
    ensures forall index, n | Indexes(index, states[|t|]) && DirectCallIndex.Answers(index, 0x1008, n) :: n == 0
  {
    c := Config(2, 10, false, 1);
    var outer, inner := CallingTb(), OneInsn(0x1004);
    var s0 := Begin(c);
    var s1 := Load(c, [], s0, outer);
    var t1 := [] + [Translate(outer)];
    states := Load(c, t1, s1, inner);
    var t2 := t1 + [Translate(inner)];
    var rest: Trace;
    rest, states := Visit(c, t2, states, outer, map[]);
    t := t2 + [Enter(0, outer)] + rest;
    LoadCount([], outer, Entered(OverAddr(0x1008)));
    LoadCount(t1, inner, Entered(OverAddr(0x1008)));
    VisitCount(t2, outer, rest, Entered(OverAddr(0x1008)));
    NestedDecoded(t, rest);
    CallIsKnown(t, outer);
    InnerAnswers(states[|t|], outer, inner);
  }

  lemma NestedDecoded(t: Trace, rest: Trace)
    requires t == [] + [Translate(CallingTb())] + [Translate(OneInsn(0x1004))] + [Enter(0, CallingTb())] + rest
    requires Silent(rest)
    ensures Decoding.AllDecoded(Aarch64, t)
  {
    CallingTbDecoded();
    OneInsnDecoded(0x1004);
    assert forall i | 3 <= i < |t| :: t[i] == rest[i - 3];
  }

  lemma CallIsKnown(t: Trace, outer: Tb)
    requires |t| > 0 && t[0] == Translate(outer) && outer == CallingTb()
    ensures Edge(0x1008, 0x5000) in DirectCalls(t)
  {
    assert outer.insns[2].cls == Direct(0x5000);
    Decoding.DirectInsnCollected(outer.insns, 2);
    Decoding.TranslatedDirects(t, 0, Edge(0x1008, 0x5000));
  }

  lemma InnerAnswers(s: State, outer: Tb, inner: Tb)
    requires outer == CallingTb() && inner == OneInsn(0x1004)
    requires s.tbs == map[KeyOf(outer) := outer, KeyOf(inner) := inner]
    ensures forall index, n | Indexes(index, s) && DirectCallIndex.Answers(index, 0x1008, n) :: n == 0
  {
    forall index, n | Indexes(index, s) && DirectCallIndex.Answers(index, 0x1008, n) ensures n == 0 {
      assert KeyOf(inner) in s.tbs && Start(s.tbs[KeyOf(inner)]) <= 0x1008;
      var k := PicksLast(s, index, 0x1008, n);
      assert k == KeyOf(inner);
    }
  }

  // ---- Numbers ----

  /** Extends a tier-0 run by one event. */
  lemma Extend(c: Config, t: Trace, states: seq<State>, ev: Event, s: State) returns (t': Trace, states': seq<State>)
    requires Execution(c, t, states) && Next(c, Now(t, states), ev, s)
    ensures t' == t + [ev] && Execution(c, t', states') && Now(t', states') == s
    ensures FirstEntries(t') ==
            if ev.Enter? && KeyOf(ev.tb) !in FirstEntries(t) then FirstEntries(t) + [KeyOf(ev.tb)] else FirstEntries(t)
  {
    ExecutionExtends(c, t, states, ev, s);
    FirstEntriesStep(t, ev);
    t', states' := t + [ev], states + [s];
  }

  /** Two vCPUs at tier 0 with nothing under way; `k` can still be numbered on vCPU `v`. */
  ghost predicate CanNumber(s: State, v: nat, tb: Tb) {
    && v < |s.vcpus| && Settled(s.vcpus[v]) && Known(s.tbs, tb)
    && KeyOf(tb) in s.armed && Get(s.vcpus[v].exec, KeyOf(tb)) == 0
  }

  /** A state after vCPU `v` has entered the block, its callback still to come. */
  function Entering(s: State, v: nat, tb: Tb): State
    requires v < |s.vcpus|
  {
    var u := s.vcpus[v];
    s.(vcpus := s.vcpus[v := u.(exec := Bump(u.exec, KeyOf(tb), 1), numbering := Some(Numbering(KeyOf(tb), None)),
                                current := Some(tb), next := 0)])
  }

  function Drawing(s: State, v: nat, tb: Tb): State
    requires v < |s.vcpus|
  {
    s.(nextSeq := s.nextSeq + 1,
       vcpus := s.vcpus[v := s.vcpus[v].(numbering := Some(Numbering(KeyOf(tb), Some(s.nextSeq))))])
  }

  function StoringNumber(s: State, v: nat, tb: Tb, n: nat): State
    requires v < |s.vcpus|
  {
    s.(firstSeen := s.firstSeen[KeyOf(tb) := n], vcpus := s.vcpus[v := s.vcpus[v].(numbering := None)])
  }

  /** What a first run leaves behind. */
  ghost predicate RanFirst(s: State, v: nat, tb: Tb, s': State) {
    && v < |s.vcpus| == |s'.vcpus| && s'.tbs == s.tbs && s'.armed == s.armed
    && s'.nextSeq == s.nextSeq + 1 && s'.firstSeen == s.firstSeen[KeyOf(tb) := s.nextSeq]
    && Settled(s'.vcpus[v]) && s'.vcpus[v].exec == Bump(s.vcpus[v].exec, KeyOf(tb), 1)
    && forall w | 0 <= w < |s.vcpus| && w != v :: s'.vcpus[w] == s.vcpus[w]
  }

  lemma LeftBehind(s: State, v: nat, tb: Tb)
    requires CanNumber(s, v, tb)
    ensures RanFirst(s, v, tb, StoringNumber(Drawing(Entering(s, v, tb), v, tb), v, tb, s.nextSeq))
  {
  }

  /** A first run of a block, number and all, with no other vCPU in between. */
  lemma RunAndNumber(c: Config, t: Trace, states: seq<State>, v: nat, tb: Tb) returns (t': Trace, states': seq<State>)
    requires c.tier == 0 && Execution(c, t, states) && CanNumber(Now(t, states), v, tb)
    ensures Execution(c, t', states')
    ensures RanFirst(Now(t, states), v, tb, Now(t', states'))
    ensures FirstEntries(t') ==
            if KeyOf(tb) !in FirstEntries(t) then FirstEntries(t) + [KeyOf(tb)] else FirstEntries(t)
  {
    LeftBehind(Now(t, states), v, tb);
    t', states' := RunStepByStep(c, t, states, v, tb);
  }

  lemma RunStepByStep(c: Config, t: Trace, states: seq<State>, v: nat, tb: Tb) returns (t': Trace, states': seq<State>)
    requires c.tier == 0 && Execution(c, t, states) && CanNumber(Now(t, states), v, tb)
    ensures Execution(c, t', states')
    ensures Now(t', states') == StoringNumber(Drawing(Entering(Now(t, states), v, tb), v, tb), v, tb,
            Now(t, states).nextSeq)
    ensures FirstEntries(t') ==
            if KeyOf(tb) !in FirstEntries(t) then FirstEntries(t) + [KeyOf(tb)] else FirstEntries(t)
  {
    var s := Now(t, states);
    var s1 := Entering(s, v, tb);
    assert Enters(c, s, v, tb, s1);
    t', states' := Extend(c, t, states, Enter(v, tb), s1);
    var s2 := Drawing(s1, v, tb);
    t', states' := Extend(c, t', states', TakeNumber(v), s2);
    t', states' := Extend(c, t', states', StoreNumber(v), StoringNumber(s2, v, tb, s.nextSeq));
  }

  /** Both blocks translated, nothing run. */
  lemma TwoBlocks(a: Tb, b: Tb) returns (c: Config, t: Trace, states: seq<State>)
    requires KeyOf(a) != KeyOf(b)
    ensures c == Config(0, 1, false, 2) && Execution(c, t, states) && FirstEntries(t) == []
    ensures var s := Now(t, states);
            && s.vcpus == [FreshVcpu(), FreshVcpu()] && Known(s.tbs, a) && Known(s.tbs, b)
            && KeyOf(a) in s.armed && KeyOf(b) in s.armed && s.nextSeq == 1
  {
    c := Config(0, 1, false, 2);
    var s0 := Init(c);
    var s1 := s0.(tbs := s0.tbs[KeyOf(a) := a], armed := s0.armed + {KeyOf(a)},
        firstSeen := s0.firstSeen[KeyOf(a) := 0]);
    var s2 := s1.(tbs := s1.tbs[KeyOf(b) := b], armed := s1.armed + {KeyOf(b)},
        firstSeen := s1.firstSeen[KeyOf(b) := 0]);
    t, states := Extend(c, [], [s0], Translate(a), s1);
    t, states := Extend(c, t, states, Translate(b), s2);
  }

  /** Blocks A and B run on vCPU 0; vCPU 1 has run nothing. */
  lemma TwoBlocksInOrder(a: Tb, b: Tb) returns (c: Config, t: Trace, states: seq<State>)
    requires KeyOf(a) != KeyOf(b)
    ensures c == Config(0, 1, false, 2) && Execution(c, t, states) && FirstEntries(t) == [KeyOf(a), KeyOf(b)]
    ensures var s := Now(t, states);
            && |s.vcpus| == 2 && Settled(s.vcpus[0]) && CanNumber(s, 1, a) && s.nextSeq == 3
            && Get(s.firstSeen, KeyOf(b)) == 2
  {
    c, t, states := OneOfTwo(a, b);
    t, states := RunAndNumber(c, t, states, 0, b);
  }

  lemma OneOfTwo(a: Tb, b: Tb) returns (c: Config, t: Trace, states: seq<State>)
    requires KeyOf(a) != KeyOf(b)
    ensures c == Config(0, 1, false, 2) && Execution(c, t, states) && FirstEntries(t) == [KeyOf(a)]
    ensures |Now(t, states).vcpus| == 2 && Now(t, states).nextSeq == 2
    ensures CanNumber(Now(t, states), 0, b) && CanNumber(Now(t, states), 1, a)
  {
    c, t, states := TwoBlocks(a, b);
    t, states := RunAndNumber(c, t, states, 0, a);
  }

  /** Two vCPUs: block A runs before block B, yet ends up numbered after it. */
  lemma SecondVcpuRenumbers() returns (c: Config, t: Trace, states: seq<State>, a: Tb, b: Tb)
    ensures Execution(c, t, states) && Quiet(states[|t|]) && FirstEntries(t) == [KeyOf(a), KeyOf(b)]
    ensures Get(states[|t|].firstSeen, KeyOf(a)) == 3 && Get(states[|t|].firstSeen, KeyOf(b)) == 2
  {
    a, b := OneInsn(0x1000), OneInsn(0x2000);
    c, t, states := TwoBlocksInOrder(a, b);
    t, states := RunAndNumber(c, t, states, 1, a);
  }

  /** What each of two vCPUs is about to do with a number. */
  predicate Racing(s: State, first: Option<Numbering>, second: Option<Numbering>) {
    && |s.vcpus| == 2 && s.vcpus[0].numbering == first && s.vcpus[1].numbering == second
    && s.vcpus[0].flight.None? && s.vcpus[1].flight.None?
  }

  lemma BothEnter(a: Tb) returns (c: Config, t: Trace, states: seq<State>)
    requires KeyOf(a) != KeyOf(OneInsn(0x2000))
    ensures Execution(c, t, states) && Now(t, states).nextSeq == 1
    ensures Racing(Now(t, states), Some(Numbering(KeyOf(a), None)), Some(Numbering(KeyOf(a), None)))
  {
    c, t, states := TwoBlocks(a, OneInsn(0x2000));
    var s0 := Now(t, states);
    var s1 := Entering(s0, 0, a);
    assert Enters(c, s0, 0, a, s1);
    t, states := Extend(c, t, states, Enter(0, a), s1);
    var s2 := Entering(s1, 1, a);
    assert Enters(c, s1, 1, a, s2);
    t, states := Extend(c, t, states, Enter(1, a), s2);
  }

  lemma BothDraw(a: Tb) returns (c: Config, t: Trace, states: seq<State>)
    requires KeyOf(a) != KeyOf(OneInsn(0x2000))
    ensures Execution(c, t, states) && Now(t, states).nextSeq == 3
    ensures Racing(Now(t, states), Some(Numbering(KeyOf(a), Some(1))), Some(Numbering(KeyOf(a), Some(2))))
  {
    c, t, states := BothEnter(a);
    t, states := Extend(c, t, states, TakeNumber(0), Drawing(Now(t, states), 0, a));
    t, states := Extend(c, t, states, TakeNumber(1), Drawing(Now(t, states), 1, a));
  }

  /** Two vCPUs race for one block: the later number is stored first, and the earlier one overwrites it. */
  lemma EarlierNumberWins() returns (c: Config, t: Trace, states: seq<State>, a: Tb)
    ensures Execution(c, t, states) && Quiet(states[|t|])
    ensures Get(states[|t|].firstSeen, KeyOf(a)) == 1 && states[|t|].nextSeq == 3
  {
    a := OneInsn(0x1000);
    c, t, states := EarlierStoredLast(a);
  }

  lemma EarlierStoredLast(a: Tb) returns (c: Config, t: Trace, states: seq<State>)
    requires KeyOf(a) != KeyOf(OneInsn(0x2000))
    ensures Execution(c, t, states) && Quiet(Now(t, states))
    ensures Get(Now(t, states).firstSeen, KeyOf(a)) == 1 && Now(t, states).nextSeq == 3
  {
    c, t, states := BothDraw(a);
    t, states := StoreNext(c, t, states, 1, a, 2);
    t, states := StoreNext(c, t, states, 0, a, 1);
  }

  /** A vCPU stores the number it has drawn. */
  lemma StoreNext(c: Config, t: Trace, states: seq<State>, v: nat, tb: Tb, n: nat)
      returns (t': Trace, states': seq<State>)
    requires Execution(c, t, states) && v < |Now(t, states).vcpus|
    requires Now(t, states).vcpus[v].numbering == Some(Numbering(KeyOf(tb), Some(n)))
    ensures Execution(c, t', states') && Now(t', states').nextSeq == Now(t, states).nextSeq
    ensures Now(t', states').firstSeen == Now(t, states).firstSeen[KeyOf(tb) := n]
    ensures Now(t', states').vcpus == Now(t, states).vcpus[v := Now(t, states).vcpus[v].(numbering := None)]
  {
    var s := StoringNumber(Now(t, states), v, tb, n);
    ExecutionExtends(c, t, states, StoreNumber(v), s);
    t', states' := t + [StoreNumber(v)], states + [s];
  }

  /** A block retranslated before its first run is executed but never numbered. */
  lemma EarlyRetranslationLosesNumber() returns (c: Config, t: Trace, states: seq<State>, a: Tb)
    ensures Execution(c, t, states) && Quiet(states[|t|]) && FirstEntries(t) == [KeyOf(a)]
    ensures Get(states[|t|].firstSeen, KeyOf(a)) == 0
  {
    c, a := Config(0, 1, false, 1), OneInsn(0x1000);
    var s0, k := Init(c), KeyOf(a);
    var s1 := s0.(tbs := s0.tbs[k := a], armed := s0.armed + {k}, firstSeen := s0.firstSeen[k := 0]);
    var s2 := s1.(armed := s1.armed - {k});
    var u := s2.vcpus[0];
    var s3 := s2.(vcpus := s2.vcpus[0 := u.(exec := Bump(u.exec, k, 1), current := Some(a), next := 0)]);
    t, states := Extend(c, [], [s0], Translate(a), s1);
    t, states := Extend(c, t, states, Translate(a), s2);
    assert Enters(c, s2, 0, a, s3);
    t, states := Extend(c, t, states, Enter(0, a), s3);
  }
}
