/** From the bytes of an indirect branch, reached and taken, to its record in the parsed profile. */
module IndirectCode {
  import opened Words
  import opened EdgeStorage
  import opened Decoder
  import opened BranchEncoding
  import opened IndirectRoundTrip
  import opened Decoding
  import opened GuestTrace
  import opened Profiler
  import opened ControlLaws
  import opened LogFormat
  import opened NativeParser
  import opened EndToEnd

  lemma {:induction false} EnteredBefore(t: Trace, v: nat) returns (i: nat)
    requires LastEntered(t, v).Some?
    ensures i < |t| && t[i] == Enter(v, LastEntered(t, v).value)
  {
    var ev := t[|t| - 1];
    if ev.Enter? && ev.vcpu == v {
      i := |t| - 1;
    } else {
      i := EnteredBefore(t[..|t| - 1], v);
    }
  }

  lemma {:induction false} ReachedIsEntered(t: Trace, j: nat)
    requires StaysInTb(t) && j < |t| && t[j].Reach?
    ensures LastEntered(t[..j], t[j].vcpu) == Some(t[j].tb)
  {
    if j < |t| - 1 {
      ReachedIsEntered(t[..|t| - 1], j);
      assert t[..|t| - 1][..j] == t[..j];
    }
  }

  /** A block that a vCPU reaches an instruction of has been translated, and so decoded. */
  lemma ReachedIsDecoded(arch: Arch, c: Config, t: Trace, states: seq<State>, j: nat)
    requires Execution(c, t, states) && AllDecoded(arch, t) && j < |t| && t[j].Reach?
    ensures Decoded(arch, t[j].tb)
  {
    ControlAlways(c, t, states);
    KnownAreTranslated(c, t, states);
    ReachedIsEntered(t, j);
    var i := EnteredBefore(t[..j], t[j].vcpu);
    assert t[i] == Enter(t[j].vcpu, t[j].tb);
    assert Translated(t, t[j].tb);
  }

  /** Event `j`: a vCPU reaches this instruction. */
  predicate ReachesAt(t: Trace, j: nat, v: nat, insn: Insn) {
    && j < |t| && t[j].Reach? && t[j].vcpu == v
    && t[j].i < |t[j].tb.insns| && t[j].tb.insns[t[j].i] == insn
  }

  /** Event `i`: the vCPU enters a block at `target` by a branch, having done nothing since event `j` to forget it. */
  predicate LeavesFor(t: Trace, j: nat, i: nat, v: nat, target: u64) {
    && j < i < |t| && t[i].Enter? && t[i].vcpu == v && Start(t[i].tb) == target
    && ArrivalOf(t[..i], v, t[i].tb).Branched?
    && forall m | j < m < i :: !Supersedes(t[m], v)
  }

  lemma TakenIsCounted(t: Trace, j: nat, i: nat, v: nat, insn: Insn, target: u64)
    requires ReachesAt(t, j, v, insn) && LeavesFor(t, j, i, v, target)
    requires insn.cls.Indirect? && insn.addr != 0
    ensures Count(t, IndirectTaken(Is(Edge(insn.addr, target)))) >= 1
  {
    var before, e := t[..i], Edge(insn.addr, target);
    StaysPending(before, v, j);
    assert Is(e)(Edge(insn.addr, target));
    assert IndirectTaken(Is(e))(before, t[i]);
    MatchIsCounted(t, IndirectTaken(Is(e)), i);
  }

  /**
   An instruction whose bytes are an indirect branch, reached at a nonzero address and followed by a branch
   entry of the same vCPU, is in the profile's indirect calls with the address it went to.
   */
  lemma IndirectCodeIsProfiled(c: Config, t: Trace, states: seq<State>, h: FileHeader, during: seq<Call>,
                               d: Dump, wallTime: u64, p: ProfileData, arch: Arch,
                               j: nat, i: nat, v: nat, insn: Insn, target: u64)
    requires CompleteRun(c, t, states, h, during, d, wallTime, p) && c.tier >= 2 && AllDecoded(arch, t)
    requires ReachesAt(t, j, v, insn) && LeavesFor(t, j, i, v, target) && insn.addr != 0
    requires Classify(arch, insn.code, insn.addr, insn.size) == Indirect
    ensures TotalIf(p.indirectCalls, Is(Edge(insn.addr, target))) >= 1
  {
    ReachedIsDecoded(arch, c, t, states, j);
    assert DecodedInsn(arch, insn);
    TakenIsCounted(t, j, i, v, insn, target);
    IndirectCallsEndToEnd(c, t, states, h, during, d, wallTime, p, Edge(insn.addr, target));
  }

  /** The bytes of a RISC-V JALR; `ret` is the one with rd = x0, rs1 = x1 and no offset. */
  ghost predicate IsJalr(insn: Insn, rd: bv32, rs1: bv32, imm: bv32) {
    insn.code == Bytes32(EncodeJalr(rd, rs1, imm))
  }

  /** In particular a RISC-V JALR: an indirect call, jump or return. */
  lemma JalrIsProfiled(c: Config, t: Trace, states: seq<State>, h: FileHeader, during: seq<Call>,
                       d: Dump, wallTime: u64, p: ProfileData, j: nat, i: nat, v: nat, insn: Insn, target: u64,
                       rd: bv32, rs1: bv32, imm: bv32)
    requires CompleteRun(c, t, states, h, during, d, wallTime, p) && c.tier >= 2 && AllDecoded(Riscv, t)
    requires ReachesAt(t, j, v, insn) && LeavesFor(t, j, i, v, target) && insn.addr != 0
    requires IsJalr(insn, rd, rs1, imm)
    ensures TotalIf(p.indirectCalls, Is(Edge(insn.addr, target))) >= 1
  {
    JalrRoundTrip(rd, rs1, imm, insn.addr, insn.size);
    IndirectCodeIsProfiled(c, t, states, h, during, d, wallTime, p, Riscv, j, i, v, insn, target);
  }

  /** And an AArch64 BLR, BR or RET. */
  lemma RegisterBranchIsProfiled(c: Config, t: Trace, states: seq<State>, h: FileHeader, during: seq<Call>,
                                 d: Dump, wallTime: u64, p: ProfileData,
                                 j: nat, i: nat, v: nat, insn: Insn, target: u64, kind: RegisterBranch, rn: bv32)
    requires CompleteRun(c, t, states, h, during, d, wallTime, p) && c.tier >= 2 && AllDecoded(Aarch64, t)
    requires ReachesAt(t, j, v, insn) && LeavesFor(t, j, i, v, target) && insn.addr != 0
    requires insn.code == Bytes32(EncodeRegisterBranch(kind, rn))
    ensures TotalIf(p.indirectCalls, Is(Edge(insn.addr, target))) >= 1
  {
    RegisterBranchRoundTrip(kind, rn, insn.addr, insn.size);
    IndirectCodeIsProfiled(c, t, states, h, during, d, wallTime, p, Aarch64, j, i, v, insn, target);
  }
}
