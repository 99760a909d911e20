/** Opcode-based classification of guest instructions (tier 2). */
module Decoder {
  import opened Words

  /** Instruction classification for call and branch tracking. */
  datatype InsnClass = Direct(target: u64) | Indirect | Other

  datatype Arch = Hexagon | Aarch64 | Riscv | X86 | UnknownArch

  /** A 64-bit word read as an `i64`. */
  function Signed(x: bv64): int {
    if x & 0x8000_0000_0000_0000 == 0 then x as int else x as int - 0x1_0000_0000_0000_0000
  }

  /** The address at a signed offset from `pc`, modulo 2^64. */
  function Target(pc: u64, offset: bv64): u64 {
    Wrap64(pc + Signed(offset))
  }

  /** A 32-bit value's arithmetic shift right, as on `i32`. */
  function Asr(x: bv32, n: bv6): bv32
    requires n < 32
  {
    if x & 0x8000_0000 == 0 then x >> n else !(!x >> n)
  }

  /** Widening an `i32` to `i64`. */
  function Widen(x: bv32): bv64 {
    if x & 0x8000_0000 == 0 then x as bv64 else x as bv64 | 0xFFFF_FFFF_0000_0000
  }

  function Times4(x: bv64): bv64 {
    x << 2
  }

  function Word32(b: seq<bv8>): bv32
    requires |b| >= 4
  {
    b[0] as bv32 | (b[1] as bv32 << 8) | (b[2] as bv32 << 16) | (b[3] as bv32 << 24)
  }

  function Word16(b: seq<bv8>): bv16
    requires |b| >= 2
  {
    b[0] as bv16 | (b[1] as bv16 << 8)
  }

  /** The classification of the bytes `b` of the `size`-byte instruction at `pc`. */
  ghost function Classify(arch: Arch, b: seq<bv8>, pc: u64, size: nat): InsnClass {
    match arch
    case Hexagon => if |b| < 4 then Other else ClassifyHexagon(Word32(b), pc)
    case Aarch64 => if |b| < 4 then Other else ClassifyAarch64(Word32(b), pc)
    case Riscv => ClassifyRiscv(b, pc)
    case X86 => ClassifyX86(b, Wrap64(pc + size))
    case UnknownArch => Other
  }

  // ---- Hexagon ----

  function ClassifyHexagon(insn: bv32, pc: u64): InsnClass {
    if (insn >> 14) & 3 == 0 then Other
    else if insn & 0xFC00_0000 == 0x5000_0000 then Indirect
    else if insn & 0xFE00_0000 == 0x5A00_0000 then Direct(Target(pc, HexR22Offset(insn)))
    else if insn & 0xFE00_0000 == 0x5800_0000 then Direct(Target(pc, HexR22Offset(insn)))
    else if insn & 0xFF00_0000 == 0x5D00_0000 then Direct(Target(pc, HexR15Offset(insn)))
    else Other
  }

  /** 22 bits at insn[24, 23:16, 13:8, 7:1]. */
  function HexR22Imm(insn: bv32): bv32 {
    (((insn >> 24) & 1) << 21) | (((insn >> 16) & 0xFF) << 13) | (((insn >> 8) & 0x3F) << 7) | ((insn >> 1) & 0x7F)
  }

  function HexR22Offset(insn: bv32): bv64 {
    Times4(Widen(Asr(HexR22Imm(insn) << 10, 10)))
  }

  /** 15 bits at insn[23:22, 20:16, 13, 7:1]. */
  function HexR15Imm(insn: bv32): bv32 {
    (((insn >> 22) & 0x3) << 13) | (((insn >> 16) & 0x1F) << 8) | (((insn >> 13) & 1) << 7) | ((insn >> 1) & 0x7F)
  }

  function HexR15Offset(insn: bv32): bv64 {
    Times4(Widen(Asr(HexR15Imm(insn) << 17, 17)))
  }

  // ---- AArch64 ----

  function ClassifyAarch64(insn: bv32, pc: u64): InsnClass {
    if insn & 0xFC00_0000 == 0x9400_0000 then Direct(Target(pc, Aarch64Imm26Offset(insn)))
    else if insn & 0xFC00_0000 == 0x1400_0000 then Direct(Target(pc, Aarch64Imm26Offset(insn)))
    else if insn & 0xFFFF_FC1F == 0xD63F_0000 then Indirect
    else if insn & 0xFFFF_FC1F == 0xD61F_0000 then Indirect
    else if insn & 0xFFFF_FC1F == 0xD65F_0000 then Indirect
    else Other
  }

  function Aarch64Imm26(insn: bv32): bv32 {
    insn & 0x03FF_FFFF
  }

  function Aarch64Imm26Offset(insn: bv32): bv64 {
    Times4(Widen(Asr(Aarch64Imm26(insn) << 6, 6)))
  }

  // ---- RISC-V ----

  function ClassifyRiscv(b: seq<bv8>, pc: u64): InsnClass {
    if |b| < 2 then Other
    else if b[0] & 0x03 == 0x03 then
      if |b| < 4 then Other else ClassifyRiscv32(Word32(b), pc)
    else ClassifyRiscv16(Word16(b), pc)
  }

  function ClassifyRiscv32(insn: bv32, pc: u64): InsnClass {
    var opcode := insn & 0x7F;
    if opcode == 0x6F then Direct(Target(pc, RiscvJalOffset(insn)))
    else if opcode == 0x67 then Indirect
    else Other
  }

  function ClassifyRiscv16(insn: bv16, pc: u64): InsnClass {
    if insn & 0xE003 == 0xA001 then Direct(Target(pc, RiscvCjOffset(insn)))
    else if insn & 0xE003 == 0x2001 then Direct(Target(pc, RiscvCjOffset(insn)))
    else if insn & 0xF07F == 0x8002 then Indirect
    else if insn & 0xF07F == 0x9002 then Indirect
    else Other
  }

  /** imm[20|10:1|11|19:12] at insn[31|30:21|20|19:12]. */
  function RiscvJalImm(insn: bv32): bv32 {
    (((insn >> 31) & 1) << 20) | (((insn >> 12) & 0xFF) << 12)
    | (((insn >> 20) & 1) << 11) | (((insn >> 21) & 0x3FF) << 1)
  }

  function RiscvJalOffset(insn: bv32): bv64 {
    Widen(Asr(RiscvJalImm(insn) << 11, 11))
  }

  /** offset[11|4|9:8|10|6|7|3:1|5] at insn[12:2]. */
  function RiscvCjImm(insn: bv16): bv32 {
    var w := insn as bv32;
    (((w >> 12) & 1) << 11) | (((w >> 11) & 1) << 4) | (((w >> 9) & 3) << 8) | (((w >> 8) & 1) << 10)
    | (((w >> 7) & 1) << 6) | (((w >> 6) & 1) << 7) | (((w >> 3) & 7) << 1) | (((w >> 2) & 1) << 5)
  }

  function RiscvCjOffset(insn: bv16): bv64 {
    Widen(Asr(RiscvCjImm(insn) << 20, 20))
  }

  // ---- x86 ----

  /** Legacy prefixes, and the REX prefixes 0x40 to 0x4F. */
  predicate IsPrefix(c: bv8) {
    c in {0x66, 0x67, 0x26, 0x2E, 0x36, 0x3E, 0x64, 0x65, 0xF0, 0xF2, 0xF3} || c & 0xF0 == 0x40
  }

  /** How many bytes precede the opcode. */
  function Prefixes(b: seq<bv8>): nat {
    if b == [] || !IsPrefix(b[0]) then 0 else 1 + Prefixes(b[1..])
  }

  function Widen8(x: bv8): bv64 {
    if x & 0x80 == 0 then x as bv64 else x as bv64 | 0xFFFF_FFFF_FFFF_FF00
  }

  /** The class of an instruction from its opcode byte on. */
  function ClassifyX86Opcode(b: seq<bv8>, next: u64): InsnClass
    requires b != []
  {
    if b[0] == 0xE8 && 5 <= |b| then Direct(Target(next, Widen(Word32(b[1..]))))
    else if b[0] == 0xE9 && 5 <= |b| then Direct(Target(next, Widen(Word32(b[1..]))))
    else if b[0] == 0xEB && 2 <= |b| then Direct(Target(next, Widen8(b[1])))
    else if b[0] == 0xFF && 2 <= |b| && (b[1] >> 3) & 7 == 2 then Indirect
    else if b[0] == 0xFF && 2 <= |b| && (b[1] >> 3) & 7 == 4 then Indirect
    else Other
  }

  ghost function ClassifyX86(b: seq<bv8>, next: u64): InsnClass {
    if Prefixes(b) < |b| then ClassifyX86Opcode(b[Prefixes(b)..], next) else Other
  }

  lemma PrefixesStep(b: seq<bv8>, i: nat)
    requires i < |b|
    ensures Prefixes(b[i..]) == if IsPrefix(b[i]) then 1 + Prefixes(b[i + 1..]) else 0
  {
    assert b[i..][1..] == b[i + 1..];
  }

  /** x86 instructions are classified after skipping their prefixes. */
  method ScanX86(b: seq<bv8>, pc: u64, size: nat) returns (c: InsnClass)
    ensures c == Classify(X86, b, pc, size)
  {
    var i := 0;
    while i < |b| && IsPrefix(b[i])
      invariant 0 <= i <= |b|
      invariant Prefixes(b) == i + Prefixes(b[i..])
    {
      PrefixesStep(b, i);
      i := i + 1;
    }
    if i >= |b| {
      return Other;
    }
    PrefixesStep(b, i);
    c := ClassifyX86Opcode(b[i..], Wrap64(pc + size));
  }

  /** The class of one instruction, whatever the guest. */
  method ClassifyInstruction(arch: Arch, b: seq<bv8>, pc: u64, size: nat) returns (c: InsnClass)
    ensures c == Classify(arch, b, pc, size)
  {
    match arch {
      case Hexagon => c := if |b| < 4 then Other else ClassifyHexagon(Word32(b), pc);
      case Aarch64 => c := if |b| < 4 then Other else ClassifyAarch64(Word32(b), pc);
      case Riscv => c := ClassifyRiscv(b, pc);
      case X86 => c := ScanX86(b, pc, size);
      case UnknownArch => c := Other;
    }
  }
}
