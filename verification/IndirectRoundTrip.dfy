/** Encoding a jump or call through a register and classifying the bytes gives an indirect branch. */
module IndirectRoundTrip {
  import opened Words
  import opened Decoder
  import opened BranchEncoding
  import opened BranchRoundTrip

  // ---- RISC-V ----

  lemma JalrOpcode(rd: bv32, rs1: bv32, imm: bv32)
    ensures EncodeJalr(rd, rs1, imm) & 0x7F == 0x67
  {
  }

  lemma JalrIsLong(insn: bv32)
    requires insn & 0x7F == 0x67
    ensures insn & 3 == 3
  {
  }

  lemma JalrTaken(insn: bv32, pc: u64)
    requires insn & 0x7F == 0x67
    ensures ClassifyRiscv32(insn, pc) == Indirect
  {
  }

  lemma JalrBytes(insn: bv32, pc: u64, size: nat)
    requires insn & 0x7F == 0x67
    ensures Classify(Riscv, Bytes32(insn), pc, size) == Indirect
  {
    JalrIsLong(insn);
    RiscvWord(insn, pc, size);
    JalrTaken(insn, pc);
  }

  /** JALR of every register and immediate: indirect calls, jumps and returns. */
  lemma JalrRoundTrip(rd: bv32, rs1: bv32, imm: bv32, pc: u64, size: nat)
    ensures Classify(Riscv, Bytes32(EncodeJalr(rd, rs1, imm)), pc, size) == Indirect
  {
    JalrOpcode(rd, rs1, imm);
    JalrBytes(EncodeJalr(rd, rs1, imm), pc, size);
  }

  lemma CjrOpcode(link: bool, rs1: bv16)
    ensures EncodeCjr(link, rs1) & 0xF07F == if link then 0x9002 else 0x8002
  {
  }

  lemma CjrIsShort(insn: bv16, link: bool)
    requires insn & 0xF07F == if link then 0x9002 else 0x8002
    ensures insn & 3 != 3
  {
  }

  lemma CjrTaken(insn: bv16, link: bool, pc: u64)
    requires insn & 0xF07F == if link then 0x9002 else 0x8002
    ensures ClassifyRiscv16(insn, pc) == Indirect
  {
  }

  lemma CjrBytes(insn: bv16, link: bool, pc: u64, size: nat)
    requires insn & 0xF07F == if link then 0x9002 else 0x8002
    ensures Classify(Riscv, Bytes16(insn), pc, size) == Indirect
  {
    CjrIsShort(insn, link);
    RiscvHalf(insn, pc, size);
    CjrTaken(insn, link, pc);
  }

  /** C.JR and C.JALR of every register. */
  lemma CjrRoundTrip(link: bool, rs1: bv16, pc: u64, size: nat)
    ensures Classify(Riscv, Bytes16(EncodeCjr(link, rs1)), pc, size) == Indirect
  {
    CjrOpcode(link, rs1);
    CjrBytes(EncodeCjr(link, rs1), link, pc, size);
  }

  // ---- AArch64 ----

  predicate IsRegisterBranch(insn: bv32) {
    || insn & 0xFFFF_FC1F == 0xD63F_0000
    || insn & 0xFFFF_FC1F == 0xD61F_0000
    || insn & 0xFFFF_FC1F == 0xD65F_0000
  }

  lemma RegisterBranchOpcode(kind: RegisterBranch, rn: bv32)
    ensures IsRegisterBranch(EncodeRegisterBranch(kind, rn))
  {
  }

  lemma RegisterBranchTaken(insn: bv32, pc: u64)
    requires IsRegisterBranch(insn)
    ensures ClassifyAarch64(insn, pc) == Indirect
  {
  }

  /** BLR, BR and RET of every register. */
  lemma RegisterBranchRoundTrip(kind: RegisterBranch, rn: bv32, pc: u64, size: nat)
    ensures Classify(Aarch64, Bytes32(EncodeRegisterBranch(kind, rn)), pc, size) == Indirect
  {
    var insn := EncodeRegisterBranch(kind, rn);
    BytesRoundTrip32(insn);
    RegisterBranchOpcode(kind, rn);
    RegisterBranchTaken(insn, pc);
  }

  // ---- Hexagon ----

  predicate IsHexRegister(insn: bv32) {
    (insn >> 14) & 3 != 0 && insn & 0xFC00_0000 == 0x5000_0000
  }

  lemma HexRegisterOpcode(call: bool, rs: bv32, parse: bv32, rest: bv32)
    requires parse & 3 != 0
    ensures IsHexRegister(EncodeHexRegister(call, rs, parse, rest))
  {
  }

  lemma HexRegisterTaken(insn: bv32, pc: u64)
    requires IsHexRegister(insn)
    ensures ClassifyHexagon(insn, pc) == Indirect
  {
  }

  lemma HexRegisterBytes(insn: bv32, pc: u64, size: nat)
    requires IsHexRegister(insn)
    ensures Classify(Hexagon, Bytes32(insn), pc, size) == Indirect
  {
    BytesRoundTrip32(insn);
    HexRegisterTaken(insn, pc);
  }

  /** Hexagon callr and jumpr of every register, under every non-duplex parse-bit value. */
  lemma HexRegisterRoundTrip(call: bool, rs: bv32, parse: bv32, rest: bv32, pc: u64, size: nat)
    requires parse & 3 != 0
    ensures Classify(Hexagon, Bytes32(EncodeHexRegister(call, rs, parse, rest)), pc, size) == Indirect
  {
    HexRegisterOpcode(call, rs, parse, rest);
    HexRegisterBytes(EncodeHexRegister(call, rs, parse, rest), pc, size);
  }

  // ---- x86 ----

  lemma ModRmField(call: bool, mode: bv8, rm: bv8)
    ensures (IndirectModRm(call, mode, rm) >> 3) & 7 == if call then 2 else 4
  {
  }

  lemma FfIndirect(b: seq<bv8>, next: u64)
    requires 2 <= |b| && b[0] == 0xFF && ((b[1] >> 3) & 7 == 2 || (b[1] >> 3) & 7 == 4)
    ensures ClassifyX86Opcode(b, next) == Indirect
  {
  }

  /** CALL r/m and JMP r/m after any run of prefixes, whatever the operand and what follows. */
  lemma X86IndirectRoundTrip(p: seq<bv8>, call: bool, mode: bv8, rm: bv8, rest: seq<bv8>, pc: u64, size: nat)
    requires forall i :: 0 <= i < |p| ==> PrefixByte(p[i])
    ensures Classify(X86, p + [0xFF, IndirectModRm(call, mode, rm)] + rest, pc, size) == Indirect
  {
    var b: seq<bv8> := [0xFF, IndirectModRm(call, mode, rm)] + rest;
    assert p + [0xFF, IndirectModRm(call, mode, rm)] + rest == p + b;
    AfterPrefixes(p, b, pc, size);
    ModRmField(call, mode, rm);
    FfIndirect(b, Wrap64(pc + size));
  }
}
