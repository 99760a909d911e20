/** Writing down runs of one vCPU in bounded mode, block by block. */
module ExampleRuns {
  import opened Words
  import opened Counting
  import opened EdgeStorage
  import opened Decoder
  import opened GuestTrace
  import opened Profiler
  import opened ControlLaws

  /** Nothing is under way. */
  ghost predicate Ready(c: Config, t: Trace, states: seq<State>) {
    && c.tier >= 1 && c.vcpus == 1 && !c.streaming && Execution(c, t, states)
    && |states[|t|].vcpus| == 1 && Settled(states[|t|].vcpus[0])
  }

  function Now(t: Trace, states: seq<State>): State
    requires |states| == |t| + 1
  {
    states[|t|]
  }

  lemma Begin(c: Config) returns (states: seq<State>)
    requires c.tier >= 1 && c.vcpus == 1 && !c.streaming
    ensures Ready(c, [], states) && states == [Init(c)]
  {
    states := [Init(c)];
  }

  /** Translates a new block. */
  lemma Load(c: Config, t: Trace, states: seq<State>, tb: Tb) returns (states': seq<State>)
    requires Ready(c, t, states) && KeyOf(tb) !in Now(t, states).tbs
    ensures Ready(c, t + [Translate(tb)], states')
    ensures Now(t + [Translate(tb)], states').vcpus == Now(t, states).vcpus
    ensures Now(t + [Translate(tb)], states').tbs == Now(t, states).tbs[KeyOf(tb) := tb]
  {
    var s, k := Now(t, states), KeyOf(tb);
    var s' := s.(tbs := s.tbs[k := tb], armed := s.armed + {k}, firstSeen := s.firstSeen[k := 0]);
    ExecutionExtends(c, t, states, Translate(tb), s');
    states' := states + [s'];
  }

  /** What a visit leaves in the edge table: the taken branch recorded, and pruned if need be to `edges`. */
  ghost predicate Leaves(c: Config, u: Vcpu, tb: Tb, edges: EdgeCounts) {
    if Fires(c, u, tb) then TopNRecorded(u.edges, Edge(u.lastTbEnd, Start(tb)), edges, c.topN) else edges == u.edges
  }

  predicate Silent(rest: Trace) {
    forall i | 0 <= i < |rest| :: !rest[i].Enter? && !rest[i].Translate?
  }

  /** Enters a known block and runs it to its last instruction. */
  lemma Visit(c: Config, t: Trace, states: seq<State>, tb: Tb, edges: EdgeCounts)
        returns (rest: Trace, states': seq<State>)
    requires Ready(c, t, states) && KeyOf(tb) in Now(t, states).tbs && Now(t, states).tbs[KeyOf(tb)] == tb
    requires Leaves(c, Now(t, states).vcpus[0], tb, edges)
    ensures Silent(rest) && Ready(c, t + [Enter(0, tb)] + rest, states')
    ensures var s' := Now(t + [Enter(0, tb)] + rest, states');
            && s'.tbs == Now(t, states).tbs && s'.vcpus[0].edges == edges
            && s'.vcpus[0].lastTbEnd == End(tb) && s'.vcpus[0].fallThrough == FallThrough(tb)
  {
    var t1 := t + [Enter(0, tb)];
    var states1 := ComeIn(c, t, states, tb, edges);
    var numbered, states2 := FinishNumbering(c, t1, states1);
    var reached, states3 := ReachRest(c, t1 + numbered, states2, tb);
    rest, states' := numbered + reached, states3;
    assert t1 + numbered + reached == t1 + rest;
  }

  lemma ComeIn(c: Config, t: Trace, states: seq<State>, tb: Tb, edges: EdgeCounts) returns (states': seq<State>)
    requires Ready(c, t, states) && KeyOf(tb) in Now(t, states).tbs && Now(t, states).tbs[KeyOf(tb)] == tb
    requires Leaves(c, Now(t, states).vcpus[0], tb, edges)
    ensures Execution(c, t + [Enter(0, tb)], states')
    ensures var s' := Now(t + [Enter(0, tb)], states');
            && |s'.vcpus| == 1 && s'.tbs == Now(t, states).tbs && s'.vcpus[0].edges == edges
            && s'.vcpus[0].flight == None
            && (s'.vcpus[0].numbering.Some? ==> s'.vcpus[0].numbering.value.taken == None)
            && s'.vcpus[0].current == Some(tb) && s'.vcpus[0].next == 0
  {
    var s, k := Now(t, states), KeyOf(tb);
    var u := CameIn(c, s.vcpus[0], tb, Numbers(s, 0, k), edges);
    var s' := s.(vcpus := s.vcpus[0 := u]);
    assert Enters(c, s, 0, tb, s');
    ExecutionExtends(c, t, states, Enter(0, tb), s');
    states' := states + [s'];
  }

  lemma CameIn(c: Config, u: Vcpu, tb: Tb, first: bool, edges: EdgeCounts) returns (u': Vcpu)
    requires Settled(u) && !c.streaming && Leaves(c, u, tb, edges)
    ensures Arrives(c, u, tb, first, u')
    ensures u'.edges == edges && u'.flight == None && u'.current == Some(tb) && u'.next == 0
    ensures u'.numbering == if first then Some(Numbering(KeyOf(tb), None)) else None
  {
    u' := u.(
      exec := Bump(u.exec, KeyOf(tb), 1), edges := edges,
      numbering := if first then Some(Numbering(KeyOf(tb), None)) else None,
      indirect := if Fires(c, u, tb) && c.tier >= 2 && u.pending != 0
                  then Bump(u.indirect, Edge(u.pending, Start(tb)), 1) else u.indirect,
      pending := if c.tier >= 2 then 0 else u.pending,
      current := Some(tb), next := 0);
  }

  /** Draws and stores the number, if one is due. */
  lemma FinishNumbering(c: Config, t: Trace, states: seq<State>) returns (rest: Trace, states': seq<State>)
    requires Execution(c, t, states) && |Now(t, states).vcpus| == 1
    requires Now(t, states).vcpus[0].flight == None
    requires Now(t, states).vcpus[0].numbering.Some? ==> Now(t, states).vcpus[0].numbering.value.taken == None
    ensures Silent(rest) && Execution(c, t + rest, states')
    ensures var s, s' := Now(t, states), Now(t + rest, states');
            s'.tbs == s.tbs && s'.vcpus == [s.vcpus[0].(numbering := None)]
  {
    var s := Now(t, states);
    var u := s.vcpus[0];
    if u.numbering.None? {
      rest, states' := [], states;
      assert t + rest == t && s.vcpus == [u];
    } else {
      var n := u.numbering.value.(taken := Some(s.nextSeq));
      var s1 := s.(nextSeq := s.nextSeq + 1, vcpus := s.vcpus[0 := u.(numbering := Some(n))]);
      ExecutionExtends(c, t, states, TakeNumber(0), s1);
      var s2 := s1.(firstSeen := s1.firstSeen[n.key := s.nextSeq], vcpus := s1.vcpus[0 := u.(numbering := None)]);
      assert StoresNumber(s1, 0, s2);
      ExecutionExtends(c, t + [TakeNumber(0)], states + [s1], StoreNumber(0), s2);
      rest, states' := [TakeNumber(0), StoreNumber(0)], states + [s1] + [s2];
      assert t + [TakeNumber(0)] + [StoreNumber(0)] == t + rest;
    }
  }

  /** Reaches the remaining instructions of the block the vCPU is in. */
  lemma {:induction false} ReachRest(c: Config, t: Trace, states: seq<State>, tb: Tb)
        returns (rest: Trace, states': seq<State>)
    requires c.tier >= 1 && c.vcpus == 1 && !c.streaming && Execution(c, t, states)
    requires |Now(t, states).vcpus| == 1 && Settled(Now(t, states).vcpus[0])
    requires Now(t, states).vcpus[0].current == Some(tb) && Now(t, states).vcpus[0].next < |tb.insns|
    ensures Silent(rest) && Ready(c, t + rest, states')
    ensures var s, s' := Now(t, states), Now(t + rest, states');
            && s'.tbs == s.tbs && s'.vcpus[0].edges == s.vcpus[0].edges
            && s'.vcpus[0].lastTbEnd == End(tb) && s'.vcpus[0].fallThrough == FallThrough(tb)
    decreases |tb.insns| - Now(t, states).vcpus[0].next
  {
    var s := Now(t, states);
    var i := s.vcpus[0].next;
    var s1 := s.(vcpus := s.vcpus[0 := Stored(c, s.vcpus[0], tb, i)]);
    ExecutionExtends(c, t, states, Reach(0, tb, i), s1);
    var t1 := t + [Reach(0, tb, i)];
    if i == |tb.insns| - 1 {
      rest, states' := [Reach(0, tb, i)], states + [s1];
    } else {
      var more;
      more, states' := ReachRest(c, t1, states + [s1], tb);
      rest := [Reach(0, tb, i)] + more;
      assert t1 + more == t + rest;
    }
  }

  // ---- What a visit adds to the naive counts ----

  ghost predicate EntersOnly(p: Pattern) {
    forall t, ev :: p(t, ev) ==> ev.Enter?
  }

  lemma {:induction false} SilentCount(t: Trace, rest: Trace, p: Pattern)
    requires Silent(rest) && EntersOnly(p)
    ensures Count(t + rest, p) == Count(t, p)
    decreases |rest|
  {
    if rest == [] {
      assert t + rest == t;
    } else {
      var n := |rest| - 1;
      SilentCount(t, rest[..n], p);
      CountStep(t + rest[..n], rest[n], p);
      assert t + rest[..n] + [rest[n]] == t + rest;
    }
  }

  lemma VisitCount(t: Trace, tb: Tb, rest: Trace, p: Pattern)
    requires Silent(rest) && EntersOnly(p)
    ensures Count(t + [Enter(0, tb)] + rest, p) == Count(t, p) + (if p(t, Enter(0, tb)) then 1 else 0)
  {
    SilentCount(t + [Enter(0, tb)], rest, p);
    CountStep(t, Enter(0, tb), p);
  }

  lemma LoadCount(t: Trace, tb: Tb, p: Pattern)
    requires EntersOnly(p)
    ensures Count(t + [Translate(tb)], p) == Count(t, p)
  {
    CountStep(t, Translate(tb), p);
  }

  /** How the vCPU comes to its next block, read off its scoreboard. */
  lemma ArrivalByScoreboard(c: Config, t: Trace, states: seq<State>, tb: Tb)
    requires Ready(c, t, states)
    ensures var u := Now(t, states).vcpus[0];
            ArrivalOf(t, 0, tb) ==
            if u.lastTbEnd == 0 && u.fallThrough == 0 && LastFinished(t, 0) == None then Unattributed
            else if u.fallThrough == Start(tb) then Fell(u.lastTbEnd)
            else if u.lastTbEnd == 0 then Unattributed else Branched(u.lastTbEnd)
  {
    ControlAlways(c, t, states);
    assert Tracks(c, t, 0, Now(t, states).vcpus[0]);
  }

  /** An AArch64 NOP. */
  const NOP: seq<bv8> := [0x1F, 0x20, 0x03, 0xD5]

  function OneInsn(addr: u64): Tb {
    TbCode([Insn(addr, 4, NOP, Other)])
  }

  function TwoInsns(addr: u64): Tb
    requires addr + 4 < TWO_64
  {
    TbCode([Insn(addr, 4, NOP, Other), Insn(addr + 4, 4, NOP, Other)])
  }
}
