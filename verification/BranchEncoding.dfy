/** The branch encoders, as the architecture manuals give them. */
module BranchEncoding {
  import opened SignExtension

  function Bytes32(insn: bv32): seq<bv8> {
    [(insn & 0xFF) as bv8, ((insn >> 8) & 0xFF) as bv8, ((insn >> 16) & 0xFF) as bv8, ((insn >> 24) & 0xFF) as bv8]
  }

  function Bytes16(insn: bv16): seq<bv8> {
    [(insn & 0xFF) as bv8, ((insn >> 8) & 0xFF) as bv8]
  }

  /** The low 32 bits of the offset counted in 4-byte words. */
  function WordOffset(offset: bv64): bv32 {
    Low32(offset >> 2)
  }

  function JalWord(rd: bv32, o: bv32): bv32 {
    (((o >> 20) & 1) << 31) | (((o >> 1) & 0x3FF) << 21) | (((o >> 11) & 1) << 20) | (((o >> 12) & 0xFF) << 12)
    | ((rd & 0x1F) << 7) | 0x6F
  }

  /** RISC-V JAL rd, offset: section 2.5 of the Unprivileged ISA (20191213). */
  function EncodeJal(rd: bv32, offset: bv64): bv32 {
    JalWord(rd, Low32(offset))
  }

  function CjWord(link: bool, o: bv16): bv16 {
    (((o >> 11) & 1) << 12) | (((o >> 4) & 1) << 11) | (((o >> 8) & 3) << 9) | (((o >> 10) & 1) << 8)
    | (((o >> 6) & 1) << 7) | (((o >> 7) & 1) << 6) | (((o >> 1) & 7) << 3) | (((o >> 5) & 1) << 2)
    | (if link then 0x2001 else 0xA001)
  }

  /** RISC-V C.J offset (`link` false) or, on RV32, C.JAL offset: section 16.4. */
  function EncodeCj(link: bool, offset: bv64): bv16 {
    CjWord(link, (offset & 0xFFFF) as bv16)
  }

  function BWord(link: bool, o: bv32): bv32 {
    (o & 0x03FF_FFFF) | (if link then 0x9400_0000 else 0x1400_0000)
  }

  /** AArch64 B (`link` false) and BL: section C6.2 of the Arm ARM. */
  function EncodeB(link: bool, offset: bv64): bv32 {
    BWord(link, WordOffset(offset))
  }

  function HexR22Word(call: bool, o: bv32, parse: bv32, low: bv32): bv32 {
    (((o >> 21) & 1) << 24) | (((o >> 13) & 0xFF) << 16) | (((o >> 7) & 0x3F) << 8) | ((o & 0x7F) << 1)
    | ((parse & 3) << 14) | (low & 1) | (if call then 0x5A00_0000 else 0x5800_0000)
  }

  /** Hexagon J2_call and J2_jump (r22:2) with the packet-parse bits and the low bit. */
  function EncodeHexR22(call: bool, offset: bv64, parse: bv32, low: bv32): bv32 {
    HexR22Word(call, WordOffset(offset), parse, low)
  }

  function HexR15Word(o: bv32, parse: bv32, rest: bv32): bv32 {
    (((o >> 13) & 3) << 22) | (((o >> 8) & 0x1F) << 16) | (((o >> 7) & 1) << 13) | ((o & 0x7F) << 1)
    | ((parse & 3) << 14) | (rest & 0x0020_1F01) | 0x5D00_0000
  }

  /** Hexagon J2_callt and J2_callf (r15:2); `rest` fills the bits the immediate leaves free. */
  function EncodeHexR15(offset: bv64, parse: bv32, rest: bv32): bv32 {
    HexR15Word(WordOffset(offset), parse, rest)
  }

  // ---- Jumps and calls through a register or through memory ----

  /** RISC-V JALR rd, imm(rs1): section 2.5 of the Unprivileged ISA (20191213). */
  function EncodeJalr(rd: bv32, rs1: bv32, imm: bv32): bv32 {
    ((imm & 0xFFF) << 20) | ((rs1 & 0x1F) << 15) | ((rd & 0x1F) << 7) | 0x67
  }

  /** RISC-V C.JR rs1 (`link` false) or C.JALR rs1: section 16.4. */
  function EncodeCjr(link: bool, rs1: bv16): bv16 {
    ((rs1 & 0x1F) << 7) | (if link then 0x9002 else 0x8002)
  }

  datatype RegisterBranch = Blr | Br | Ret

  /** AArch64 BLR, BR and RET of register `rn`: section C6.2 of the Arm ARM. */
  function EncodeRegisterBranch(kind: RegisterBranch, rn: bv32): bv32 {
    ((rn & 0x1F) << 5) | (match kind case Blr => 0xD63F_0000 case Br => 0xD61F_0000 case Ret => 0xD65F_0000)
  }

  /** Hexagon J2_callr (`call`) and J2_jumpr of register `rs`; `rest` fills the bits the encoding leaves free. */
  function EncodeHexRegister(call: bool, rs: bv32, parse: bv32, rest: bv32): bv32 {
    ((rs & 0x1F) << 16) | ((parse & 3) << 14) | (rest & 0x3FFF) | (if call then 0x50A0_0000 else 0x5280_0000)
  }

  /** The ModRM byte of x86 CALL r/m (FF /2) or JMP r/m (FF /4), whatever the operand. */
  function IndirectModRm(call: bool, mode: bv8, rm: bv8): bv8 {
    (mode << 6) | (if call then 0x10 else 0x20) | (rm & 7)
  }

  /** The bytes that may precede an x86 opcode: the legacy prefixes and REX. */
  predicate PrefixByte(c: bv8) {
    || c == 0xF0 || c == 0xF2 || c == 0xF3                                            // lock and repeat
    || c == 0x26 || c == 0x2E || c == 0x36 || c == 0x3E || c == 0x64 || c == 0x65     // segment overrides
    || c == 0x66 || c == 0x67                                                         // operand and address size
    || 0x40 <= c <= 0x4F                                                              // REX
  }
}
