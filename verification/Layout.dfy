/** Blocks whose instructions lie one after the other: where they end, and what comes next. */
module Layout {
  import opened Words
  import opened GuestTrace
  import opened Profiler
  import opened ControlLaws
  import opened FallThroughs

  /** Every instruction starts where the one before it stops. */
  predicate Contiguous(insns: seq<Insn>) {
    forall i | 0 <= i < |insns| - 1 ::
      insns[i + 1].addr == (insns[i].addr + insns[i].size) % 0x1_0000_0000_0000_0000
  }

  /** The bytes the instructions take. */
  function Sizes(insns: seq<Insn>): nat {
    if insns == [] then 0 else Sizes(insns[..|insns| - 1]) + insns[|insns| - 1].size
  }

  /** The address `n` bytes after `a`. */
  function Plus(a: u64, n: nat): u64 {
    (a + n) % 0x1_0000_0000_0000_0000
  }

  lemma PlusTwice(a: u64, m: nat, n: nat)
    ensures Plus(Plus(a, m), n) == Plus(a, m + n)
  {
  }

  lemma ContiguousFront(insns: seq<Insn>)
    requires |insns| > 1 && Contiguous(insns)
    ensures Contiguous(insns[..|insns| - 1])
    ensures insns[|insns| - 1].addr == Plus(insns[|insns| - 2].addr, insns[|insns| - 2].size)
  {
    var n := |insns| - 2;
    assert insns[n + 1].addr == (insns[n].addr + insns[n].size) % 0x1_0000_0000_0000_0000;
  }

  lemma {:induction false} LastAddress(insns: seq<Insn>)
    requires insns != [] && Contiguous(insns)
    ensures insns[|insns| - 1].addr == Plus(insns[0].addr, Sizes(insns[..|insns| - 1]))
  {
    if |insns| > 1 {
      var front := insns[..|insns| - 1];
      var last := front[|front| - 1];
      ContiguousFront(insns);
      LastAddress(front);
      PlusTwice(insns[0].addr, Sizes(front[..|front| - 1]), last.size);
    }
  }

  /**
   The last instruction of a contiguous block is as far from its start as the instructions before it take,
   and the block falls through to the address right after all of them, modulo 2^64.
   */
  lemma EndAndFallThrough(tb: Tb)
    requires Contiguous(tb.insns)
    ensures End(tb) == (Start(tb) + Sizes(tb.insns[..|tb.insns| - 1])) % 0x1_0000_0000_0000_0000
    ensures FallThrough(tb) == (Start(tb) + Sizes(tb.insns)) % 0x1_0000_0000_0000_0000
  {
    var last := tb.insns[|tb.insns| - 1];
    LastAddress(tb.insns);
    PlusTwice(Start(tb), Sizes(tb.insns[..|tb.insns| - 1]), last.size);
    assert FallThrough(tb) == Plus(last.addr, last.size);
  }

  /** Having finished a contiguous block, a vCPU falls into the block that starts right after it, and no other. */
  lemma NextIsFellInto(t: Trace, v: nat, p: Tb, tb: Tb)
    requires LastFinished(t, v) == Some(p) && Contiguous(p.insns)
    ensures ArrivalOf(t, v, tb) == Fell(End(p)) <==>
            Start(tb) == (Start(p) + Sizes(p.insns)) % 0x1_0000_0000_0000_0000
    ensures ArrivalOf(t, v, tb) == Branched(End(p)) <==>
            Start(tb) != (Start(p) + Sizes(p.insns)) % 0x1_0000_0000_0000_0000 && End(p) != 0
  {
    EndAndFallThrough(p);
  }

  /** The scoreboard of a vCPU that has finished a contiguous block. */
  lemma StoredAddresses(c: Config, t: Trace, states: seq<State>, v: nat, p: Tb)
    requires c.tier >= 1 && v < c.vcpus && Execution(c, t, states)
    requires LastFinished(t, v) == Some(p) && Contiguous(p.insns)
    ensures |states[|t|].vcpus| == c.vcpus
    ensures var u := states[|t|].vcpus[v];
            && u.lastTbEnd == (Start(p) + Sizes(p.insns[..|p.insns| - 1])) % 0x1_0000_0000_0000_0000
            && u.fallThrough == (Start(p) + Sizes(p.insns)) % 0x1_0000_0000_0000_0000
  {
    ControlAlways(c, t, states);
    assert Tracks(c, t, v, states[|t|].vcpus[v]);
    EndAndFallThrough(p);
  }

  /** Entering the block right after a contiguous one records nothing: no branch, no flush, no indirect call. */
  lemma SequentialEntryRecordsNothing(c: Config, t: Trace, states: seq<State>, v: nat, p: Tb, tb: Tb, s': State)
    requires c.tier >= 1 && v < c.vcpus && Execution(c, t, states) && Next(c, states[|t|], Enter(v, tb), s')
    requires LastFinished(t, v) == Some(p) && Contiguous(p.insns)
    requires Start(tb) == (Start(p) + Sizes(p.insns)) % 0x1_0000_0000_0000_0000
    ensures |states[|t|].vcpus| == |s'.vcpus| == c.vcpus
    ensures var u, u' := states[|t|].vcpus[v], s'.vcpus[v];
            u'.edges == u.edges && u'.flight == None && u'.indirect == u.indirect
  {
    StoredAddresses(c, t, states, v, p);
  }

  ghost predicate AllContiguous(tbs: map<TbKey, Tb>) {
    forall k | k in tbs :: Contiguous(tbs[k].insns)
  }

  /** The exit computation finds a predecessor exactly where some block stops. */
  lemma PredecessorsByLayout(tbs: map<TbKey, Tb>, a: u64)
    requires AllContiguous(tbs)
    ensures HasPredecessor(tbs, a) <==>
            exists k | k in tbs :: a == (Start(tbs[k]) + Sizes(tbs[k].insns)) % 0x1_0000_0000_0000_0000
  {
    forall k | k in tbs
      ensures FallThrough(tbs[k]) == (Start(tbs[k]) + Sizes(tbs[k].insns)) % 0x1_0000_0000_0000_0000
    {
      EndAndFallThrough(tbs[k]);
    }
  }
}
