/** Nothing but branches is classified as a branch: every word so classified is the encoding of one. */
module DecoderConverse {
  import opened Words
  import opened Decoder
  import opened SignExtension
  import opened BranchEncoding
  import opened BranchRoundTrip

  // ---- Fields from offsets ----

  lemma WordsNonNegative(y: bv32)
    ensures WordOffset(Times4(y as bv64)) == y
  {
  }

  lemma WordsNegative(y: bv32)
    ensures WordOffset(Times4(y as bv64 | 0xFFFF_FFFF_0000_0000)) == y
  {
  }

  lemma LowNonNegative(y: bv32)
    ensures Low32(y as bv64) == y
  {
  }

  lemma LowNegative(y: bv32)
    ensures Low32(y as bv64 | 0xFFFF_FFFF_0000_0000) == y
  {
  }

  lemma SignIs26(x: bv32)
    requires x & 0x03FF_FFFF == x && x & 0xFE000000 != 0
    ensures x & 0xFE000000 == 0x02000000
  {
  }

  lemma Masked26(x: bv32)
    requires x & 0x03FF_FFFF == x
    ensures (x | 0xFC000000) & 0x03FF_FFFF == x
  {
  }

  lemma Words26(x: bv32)
    requires x & 0x03FF_FFFF == x
    ensures WordOffset(Times4(Widen(Asr(x << 6, 6)))) & 0x03FF_FFFF == x
  {
    if x & 0xFE000000 == 0 {
      ExtendNonNegative26(x);
      WordsNonNegative(x);
    } else {
      SignIs26(x);
      ExtendNegative26(x);
      WordsNegative(x | 0xFC000000);
      Masked26(x);
    }
  }

  lemma SignIs22(x: bv32)
    requires x & 0x003F_FFFF == x && x & 0xFFE00000 != 0
    ensures x & 0xFFE00000 == 0x00200000
  {
  }

  lemma Masked22(x: bv32)
    requires x & 0x003F_FFFF == x
    ensures (x | 0xFFC00000) & 0x003F_FFFF == x
  {
  }

  lemma Words22(x: bv32)
    requires x & 0x003F_FFFF == x
    ensures WordOffset(Times4(Widen(Asr(x << 10, 10)))) & 0x003F_FFFF == x
  {
    if x & 0xFFE00000 == 0 {
      ExtendNonNegative22(x);
      WordsNonNegative(x);
    } else {
      SignIs22(x);
      ExtendNegative22(x);
      WordsNegative(x | 0xFFC00000);
      Masked22(x);
    }
  }

  lemma SignIs15(x: bv32)
    requires x & 0x7FFF == x && x & 0xFFFFC000 != 0
    ensures x & 0xFFFFC000 == 0x00004000
  {
  }

  lemma Masked15(x: bv32)
    requires x & 0x7FFF == x
    ensures (x | 0xFFFF8000) & 0x7FFF == x
  {
  }

  lemma Words15(x: bv32)
    requires x & 0x7FFF == x
    ensures WordOffset(Times4(Widen(Asr(x << 17, 17)))) & 0x7FFF == x
  {
    if x & 0xFFFFC000 == 0 {
      ExtendNonNegative15(x);
      WordsNonNegative(x);
    } else {
      SignIs15(x);
      ExtendNegative15(x);
      WordsNegative(x | 0xFFFF8000);
      Masked15(x);
    }
  }

  lemma SignIs21(x: bv32)
    requires x & 0x1F_FFFF == x && x & 0xFFF00000 != 0
    ensures x & 0xFFF00000 == 0x00100000
  {
  }

  lemma Masked21(x: bv32)
    requires x & 0x1F_FFFF == x
    ensures (x | 0xFFE00000) & 0x1F_FFFF == x
  {
  }

  lemma Low21(x: bv32)
    requires x & 0x1F_FFFF == x
    ensures Low32(Widen(Asr(x << 11, 11))) & 0x1F_FFFF == x
  {
    if x & 0xFFF00000 == 0 {
      ExtendNonNegative21(x);
      LowNonNegative(x);
    } else {
      SignIs21(x);
      ExtendNegative21(x);
      LowNegative(x | 0xFFE00000);
      Masked21(x);
    }
  }

  lemma SignIs12(x: bv32)
    requires x & 0xFFF == x && x & 0xFFFFF800 != 0
    ensures x & 0xFFFFF800 == 0x00000800
  {
  }

  lemma Masked12(x: bv32)
    requires x & 0xFFF == x
    ensures (x | 0xFFFFF000) & 0xFFF == x
  {
  }

  lemma Low12(x: bv32)
    requires x & 0xFFF == x
    ensures Low32(Widen(Asr(x << 20, 20))) & 0xFFF == x
  {
    if x & 0xFFFFF800 == 0 {
      ExtendNonNegative12(x);
      LowNonNegative(x);
    } else {
      SignIs12(x);
      ExtendNegative12(x);
      LowNegative(x | 0xFFFFF000);
      Masked12(x);
    }
  }

  lemma Fits26(x: bv32)
    ensures Fits(Times4(Widen(Asr(x << 6, 6))), 0xFFFF_FFFF_F800_0000)
  {
  }

  lemma Aligned26(x: bv32)
    ensures Times4(Widen(Asr(x << 6, 6))) & 3 == 0
  {
  }

  /** The offset an immediate of 26 bits stands for. */
  lemma Extended26(x: bv32) returns (offset: bv64)
    requires x & 0x03FF_FFFF == x
    ensures SignedRange(offset, 0x8000000) && offset & 3 == 0
    ensures WordOffset(offset) & 0x03FF_FFFF == x
  {
    offset := Times4(Widen(Asr(x << 6, 6)));
    Words26(x);
    Aligned26(x);
    Fits26(x);
    Range28(offset);
  }

  lemma Fits22(x: bv32)
    ensures Fits(Times4(Widen(Asr(x << 10, 10))), 0xFFFF_FFFF_FF80_0000)
  {
  }

  lemma Aligned22(x: bv32)
    ensures Times4(Widen(Asr(x << 10, 10))) & 3 == 0
  {
  }

  /** The offset an immediate of 22 bits stands for. */
  lemma Extended22(x: bv32) returns (offset: bv64)
    requires x & 0x003F_FFFF == x
    ensures SignedRange(offset, 0x800000) && offset & 3 == 0
    ensures WordOffset(offset) & 0x003F_FFFF == x
  {
    offset := Times4(Widen(Asr(x << 10, 10)));
    Words22(x);
    Aligned22(x);
    Fits22(x);
    Range24(offset);
  }

  lemma Fits15(x: bv32)
    ensures Fits(Times4(Widen(Asr(x << 17, 17))), 0xFFFF_FFFF_FFFF_0000)
  {
  }

  lemma Aligned15(x: bv32)
    ensures Times4(Widen(Asr(x << 17, 17))) & 3 == 0
  {
  }

  /** The offset an immediate of 15 bits stands for. */
  lemma Extended15(x: bv32) returns (offset: bv64)
    requires x & 0x7FFF == x
    ensures SignedRange(offset, 0x10000) && offset & 3 == 0
    ensures WordOffset(offset) & 0x7FFF == x
  {
    offset := Times4(Widen(Asr(x << 17, 17)));
    Words15(x);
    Aligned15(x);
    Fits15(x);
    Range17(offset);
  }

  lemma Fits21(x: bv32)
    ensures Fits(Widen(Asr(x << 11, 11)), 0xFFFF_FFFF_FFF0_0000)
  {
  }

  lemma Even21(x: bv32)
    requires x & 1 == 0
    ensures Widen(Asr(x << 11, 11)) & 1 == 0
  {
  }

  /** The offset an immediate of 21 bits stands for. */
  lemma Extended21(x: bv32) returns (offset: bv64)
    requires x & 0x1F_FFFF == x && x & 1 == 0
    ensures SignedRange(offset, 0x100000) && offset & 1 == 0
    ensures Low32(offset) & 0x1F_FFFF == x
  {
    offset := Widen(Asr(x << 11, 11));
    Low21(x);
    Even21(x);
    Fits21(x);
    Range21(offset);
  }

  lemma Fits12(x: bv32)
    ensures Fits(Widen(Asr(x << 20, 20)), 0xFFFF_FFFF_FFFF_F800)
  {
  }

  lemma Even12(x: bv32)
    requires x & 1 == 0
    ensures Widen(Asr(x << 20, 20)) & 1 == 0
  {
  }

  /** The offset an immediate of 12 bits stands for. */
  lemma Extended12(x: bv32) returns (offset: bv64)
    requires x & 0xFFF == x && x & 1 == 0
    ensures SignedRange(offset, 0x800) && offset & 1 == 0
    ensures Low32(offset) & 0xFFF == x
  {
    offset := Widen(Asr(x << 20, 20));
    Low12(x);
    Even12(x);
    Fits12(x);
    Range12(offset);
  }

  // ---- AArch64 ----

  lemma Imm26IsField(insn: bv32)
    ensures Aarch64Imm26(insn) & 0x03FF_FFFF == Aarch64Imm26(insn)
  {
  }

  lemma BWordOf(link: bool, insn: bv32, o: bv32)
    requires insn & 0xFC00_0000 == (if link then 0x9400_0000 else 0x1400_0000)
    requires o & 0x03FF_FFFF == Aarch64Imm26(insn)
    ensures BWord(link, o) == insn
  {
  }

  lemma BOpcodeOf(insn: bv32, pc: u64)
    requires ClassifyAarch64(insn, pc).Direct?
    ensures insn & 0xFC00_0000 == 0x9400_0000 || insn & 0xFC00_0000 == 0x1400_0000
  {
  }

  lemma BEncoded(link: bool, insn: bv32, offset: bv64)
    requires insn & 0xFC00_0000 == (if link then 0x9400_0000 else 0x1400_0000)
    requires WordOffset(offset) & 0x03FF_FFFF == Aarch64Imm26(insn)
    ensures EncodeB(link, offset) == insn
  {
    BWordOf(link, insn, WordOffset(offset));
  }

  lemma IsB(link: bool, insn: bv32) returns (offset: bv64)
    requires insn & 0xFC00_0000 == (if link then 0x9400_0000 else 0x1400_0000)
    ensures SignedRange(offset, 0x8000000) && offset & 3 == 0 && insn == EncodeB(link, offset)
  {
    Imm26IsField(insn);
    offset := Extended26(Aarch64Imm26(insn));
    BEncoded(link, insn, offset);
  }

  /** A word classified as direct is a B or BL. */
  lemma DirectIsB(insn: bv32, pc: u64) returns (link: bool, offset: bv64)
    requires ClassifyAarch64(insn, pc).Direct?
    ensures SignedRange(offset, 0x8000000) && offset & 3 == 0 && insn == EncodeB(link, offset)
  {
    BOpcodeOf(insn, pc);
    link := insn & 0xFC00_0000 == 0x9400_0000;
    offset := IsB(link, insn);
  }

  lemma RegisterBranchOf(insn: bv32, kind: RegisterBranch)
    requires insn & 0xFFFF_FC1F == match kind case Blr => 0xD63F_0000 case Br => 0xD61F_0000 case Ret => 0xD65F_0000
    ensures insn == EncodeRegisterBranch(kind, (insn >> 5) & 0x1F)
  {
  }

  /** A word classified as indirect is a BLR, BR or RET. */
  lemma IndirectIsRegisterBranch(insn: bv32, pc: u64) returns (kind: RegisterBranch, rn: bv32)
    requires ClassifyAarch64(insn, pc) == Indirect
    ensures rn <= 31 && insn == EncodeRegisterBranch(kind, rn)
  {
    kind := if insn & 0xFFFF_FC1F == 0xD63F_0000 then Blr else if insn & 0xFFFF_FC1F == 0xD61F_0000 then Br else Ret;
    rn := (insn >> 5) & 0x1F;
    RegisterBranchOf(insn, kind);
  }

  // ---- RISC-V ----

  lemma JalImmIsField(insn: bv32)
    ensures RiscvJalImm(insn) & 0x1F_FFFF == RiscvJalImm(insn)
    ensures RiscvJalImm(insn) & 1 == 0
  {
  }

  lemma JalWordOf(insn: bv32, o: bv32)
    requires insn & 0x7F == 0x6F && o & 0x1F_FFFF == RiscvJalImm(insn)
    ensures JalWord((insn >> 7) & 0x1F, o) == insn
  {
  }

  lemma LongOpcode(insn: bv32, pc: u64)
    ensures ClassifyRiscv32(insn, pc).Direct? ==> insn & 0x7F == 0x6F
    ensures ClassifyRiscv32(insn, pc) == Indirect ==> insn & 0x7F == 0x67
  {
  }

  lemma JalEncoded(insn: bv32, offset: bv64)
    requires insn & 0x7F == 0x6F && Low32(offset) & 0x1F_FFFF == RiscvJalImm(insn)
    ensures EncodeJal((insn >> 7) & 0x1F, offset) == insn
  {
    JalWordOf(insn, Low32(offset));
  }

  lemma IsJal(insn: bv32) returns (offset: bv64)
    requires insn & 0x7F == 0x6F
    ensures SignedRange(offset, 0x100000) && offset & 1 == 0 && insn == EncodeJal((insn >> 7) & 0x1F, offset)
  {
    JalImmIsField(insn);
    offset := Extended21(RiscvJalImm(insn));
    JalEncoded(insn, offset);
  }

  /** A 32-bit word classified as direct is a JAL. */
  lemma DirectIsJal(insn: bv32, pc: u64) returns (rd: bv32, offset: bv64)
    requires ClassifyRiscv32(insn, pc).Direct?
    ensures SignedRange(offset, 0x100000) && offset & 1 == 0 && insn == EncodeJal(rd, offset)
  {
    LongOpcode(insn, pc);
    rd := (insn >> 7) & 0x1F;
    offset := IsJal(insn);
  }

  lemma JalrWordOf(insn: bv32)
    requires insn & 0x7F == 0x67
    ensures insn == EncodeJalr((insn >> 7) & 0x1F, (insn >> 15) & 0x1F, insn >> 20) | (((insn >> 12) & 7) << 12)
  {
  }

  /** A 32-bit word classified as indirect is a JALR, but for the function bits, which are not looked at. */
  lemma IndirectIsJalr(insn: bv32, pc: u64) returns (rd: bv32, rs1: bv32, imm: bv32, funct3: bv32)
    requires ClassifyRiscv32(insn, pc) == Indirect
    ensures rd <= 31 && rs1 <= 31 && imm <= 0xFFF && funct3 <= 7
    ensures insn == EncodeJalr(rd, rs1, imm) | (funct3 << 12)
  {
    LongOpcode(insn, pc);
    rd, rs1, imm, funct3 := (insn >> 7) & 0x1F, (insn >> 15) & 0x1F, insn >> 20, (insn >> 12) & 7;
    JalrWordOf(insn);
  }

  lemma CjImmIsField(insn: bv16)
    ensures RiscvCjImm(insn) & 0xFFF == RiscvCjImm(insn)
    ensures RiscvCjImm(insn) & 1 == 0
  {
  }

  lemma CjWordOf(link: bool, insn: bv16, offset: bv64)
    requires insn & 0xE003 == (if link then 0x2001 else 0xA001)
    requires Low32(offset) & 0xFFF == RiscvCjImm(insn)
    ensures EncodeCj(link, offset) == insn
  {
  }

  lemma ShortOpcode(insn: bv16, pc: u64)
    ensures ClassifyRiscv16(insn, pc).Direct? ==> insn & 0xE003 == 0xA001 || insn & 0xE003 == 0x2001
    ensures ClassifyRiscv16(insn, pc) == Indirect ==> insn & 0xF07F == 0x8002 || insn & 0xF07F == 0x9002
  {
  }

  lemma IsCj(link: bool, insn: bv16) returns (offset: bv64)
    requires insn & 0xE003 == (if link then 0x2001 else 0xA001)
    ensures SignedRange(offset, 0x800) && offset & 1 == 0 && insn == EncodeCj(link, offset)
  {
    CjImmIsField(insn);
    offset := Extended12(RiscvCjImm(insn));
    CjWordOf(link, insn, offset);
  }

  /** A 16-bit word classified as direct is a C.J or C.JAL. */
  lemma DirectIsCj(insn: bv16, pc: u64) returns (link: bool, offset: bv64)
    requires ClassifyRiscv16(insn, pc).Direct?
    ensures SignedRange(offset, 0x800) && offset & 1 == 0 && insn == EncodeCj(link, offset)
  {
    ShortOpcode(insn, pc);
    link := insn & 0xE003 == 0x2001;
    offset := IsCj(link, insn);
  }

  lemma CjrWordOf(insn: bv16, link: bool)
    requires insn & 0xF07F == if link then 0x9002 else 0x8002
    ensures insn == EncodeCjr(link, (insn >> 7) & 0x1F)
  {
  }

  /** A 16-bit word classified as indirect is a C.JR or C.JALR; register 0 included, which is reserved or C.EBREAK. */
  lemma IndirectIsCjr(insn: bv16, pc: u64) returns (link: bool, rs1: bv16)
    requires ClassifyRiscv16(insn, pc) == Indirect
    ensures rs1 <= 31 && insn == EncodeCjr(link, rs1)
  {
    ShortOpcode(insn, pc);
    link, rs1 := insn & 0xF07F == 0x9002, (insn >> 7) & 0x1F;
    CjrWordOf(insn, link);
  }

  // ---- Hexagon ----

  lemma HexR22IsField(insn: bv32)
    ensures HexR22Imm(insn) & 0x003F_FFFF == HexR22Imm(insn)
  {
  }

  lemma HexR22WordOf(call: bool, insn: bv32, o: bv32)
    requires insn & 0xFE00_0000 == (if call then 0x5A00_0000 else 0x5800_0000)
    requires o & 0x003F_FFFF == HexR22Imm(insn)
    ensures HexR22Word(call, o, insn >> 14, insn) == insn
  {
  }

  lemma HexR15IsField(insn: bv32)
    ensures HexR15Imm(insn) & 0x7FFF == HexR15Imm(insn)
  {
  }

  lemma HexR15WordOf(insn: bv32, o: bv32)
    requires insn & 0xFF00_0000 == 0x5D00_0000 && o & 0x7FFF == HexR15Imm(insn)
    ensures HexR15Word(o, insn >> 14, insn) == insn
  {
  }

  lemma HexOpcode(insn: bv32, pc: u64)
    ensures ClassifyHexagon(insn, pc).Direct? ==> IsHexR22(insn) || IsHexR15(insn)
    ensures ClassifyHexagon(insn, pc) == Indirect ==> (insn >> 14) & 3 != 0 && insn >> 26 == 0x14
  {
  }

  lemma HexR22Encoded(call: bool, insn: bv32, offset: bv64)
    requires insn & 0xFE00_0000 == (if call then 0x5A00_0000 else 0x5800_0000)
    requires WordOffset(offset) & 0x003F_FFFF == HexR22Imm(insn)
    ensures EncodeHexR22(call, offset, insn >> 14, insn) == insn
  {
    HexR22WordOf(call, insn, WordOffset(offset));
  }

  lemma HexR15Encoded(insn: bv32, offset: bv64)
    requires insn & 0xFF00_0000 == 0x5D00_0000 && WordOffset(offset) & 0x7FFF == HexR15Imm(insn)
    ensures EncodeHexR15(offset, insn >> 14, insn) == insn
  {
    HexR15WordOf(insn, WordOffset(offset));
  }

  lemma IsR22(insn: bv32) returns (call: bool, offset: bv64)
    requires IsHexR22(insn)
    ensures SignedRange(offset, 0x800000) && offset & 3 == 0 && (insn >> 14) & 3 != 0
    ensures insn == EncodeHexR22(call, offset, insn >> 14, insn)
  {
    call := insn & 0xFE00_0000 == 0x5A00_0000;
    HexR22IsField(insn);
    offset := Extended22(HexR22Imm(insn));
    HexR22Encoded(call, insn, offset);
  }

  lemma IsR15(insn: bv32) returns (offset: bv64)
    requires IsHexR15(insn)
    ensures SignedRange(offset, 0x10000) && offset & 3 == 0 && (insn >> 14) & 3 != 0
    ensures insn == EncodeHexR15(offset, insn >> 14, insn)
  {
    HexR15IsField(insn);
    offset := Extended15(HexR15Imm(insn));
    HexR15Encoded(insn, offset);
  }

  /** A word classified as direct is a call, a jump or a conditional call, and not a duplex. */
  lemma DirectIsHexBranch(insn: bv32, pc: u64) returns (short: bool, call: bool, offset: bv64)
    requires ClassifyHexagon(insn, pc).Direct?
    ensures (insn >> 14) & 3 != 0 && offset & 3 == 0
    ensures !short ==> SignedRange(offset, 0x800000) && insn == EncodeHexR22(call, offset, insn >> 14, insn)
    ensures short ==> SignedRange(offset, 0x10000) && insn == EncodeHexR15(offset, insn >> 14, insn)
  {
    HexOpcode(insn, pc);
    short, call := !IsHexR22(insn), false;
    if short {
      offset := IsR15(insn);
    } else {
      call, offset := IsR22(insn);
    }
  }

  /** A word classified as indirect is of the register class, 010100 in bits 31 to 26, and not a duplex. */
  lemma IndirectIsHexRegister(insn: bv32, pc: u64)
    requires ClassifyHexagon(insn, pc) == Indirect
    ensures (insn >> 14) & 3 != 0 && insn >> 26 == 0x14
  {
    HexOpcode(insn, pc);
  }

  // ---- The bytes behind the words ----

  lemma FourBytes(a: bv8, b: bv8, c: bv8, d: bv8)
    ensures Bytes32(Word32([a, b, c, d])) == [a, b, c, d]
  {
  }

  lemma SameWord(b: seq<bv8>, c: seq<bv8>)
    requires 4 <= |b| && 4 <= |c| && b[0] == c[0] && b[1] == c[1] && b[2] == c[2] && b[3] == c[3]
    ensures Word32(b) == Word32(c)
  {
  }

  lemma WordBytes(b: seq<bv8>)
    requires 4 <= |b|
    ensures Bytes32(Word32(b)) == b[..4]
  {
    var c := [b[0], b[1], b[2], b[3]];
    SameWord(b, c);
    FourBytes(b[0], b[1], b[2], b[3]);
    Quarters(b, c);
  }

  lemma Quarters(b: seq<bv8>, c: seq<bv8>)
    requires 4 <= |b| && |c| == 4 && b[0] == c[0] && b[1] == c[1] && b[2] == c[2] && b[3] == c[3]
    ensures b[..4] == c
  {
  }

  lemma TwoBytes(a: bv8, b: bv8)
    ensures Bytes16(Word16([a, b])) == [a, b]
  {
  }

  lemma SameHalf(b: seq<bv8>, c: seq<bv8>)
    requires 2 <= |b| && 2 <= |c| && b[0] == c[0] && b[1] == c[1]
    ensures Word16(b) == Word16(c)
  {
  }

  lemma HalfBytes(b: seq<bv8>)
    requires 2 <= |b|
    ensures Bytes16(Word16(b)) == b[..2]
  {
    var c := [b[0], b[1]];
    SameHalf(b, c);
    TwoBytes(b[0], b[1]);
    Halves(b, c);
  }

  lemma Halves(b: seq<bv8>, c: seq<bv8>)
    requires 2 <= |b| && |c| == 2 && b[0] == c[0] && b[1] == c[1]
    ensures b[..2] == c
  {
  }

  /** Code that is classified as a branch starts with the bytes of the word that is looked at. */
  lemma BranchWord(arch: Arch, b: seq<bv8>, pc: u64, size: nat)
    requires Classify(arch, b, pc, size) != Other && arch != X86
    ensures arch != UnknownArch
    ensures arch == Aarch64 ==>
              4 <= |b| && b[..4] == Bytes32(Word32(b)) && Classify(arch, b, pc, size) == ClassifyAarch64(Word32(b), pc)
    ensures arch == Hexagon ==>
              4 <= |b| && b[..4] == Bytes32(Word32(b)) && Classify(arch, b, pc, size) == ClassifyHexagon(Word32(b), pc)
    ensures arch == Riscv && b[0] & 3 == 3 ==>
              4 <= |b| && b[..4] == Bytes32(Word32(b)) && Classify(arch, b, pc, size) == ClassifyRiscv32(Word32(b), pc)
    ensures arch == Riscv && b[0] & 3 != 3 ==>
              2 <= |b| && b[..2] == Bytes16(Word16(b)) && Classify(arch, b, pc, size) == ClassifyRiscv16(Word16(b), pc)
  {
    HalfBytes(b);
    if 4 <= |b| {
      WordBytes(b);
    }
  }

  // ---- x86 ----

  lemma {:induction false} PrefixesCounted(b: seq<bv8>)
    ensures Prefixes(b) <= |b|
    ensures forall i | 0 <= i < Prefixes(b) :: PrefixByte(b[i])
    ensures Prefixes(b) < |b| ==> !PrefixByte(b[Prefixes(b)])
  {
    if b != [] {
      PrefixByteIs(b[0]);
      if IsPrefix(b[0]) {
        PrefixesCounted(b[1..]);
        assert forall i | 1 <= i < |b| :: b[i] == b[1..][i - 1];
      }
    }
  }

  /** The opcode follows `n` prefixes. */
  predicate OpcodeAt(b: seq<bv8>, n: nat) {
    n < |b| && (forall i | 0 <= i < n :: PrefixByte(b[i])) && !PrefixByte(b[n])
  }

  /** Bytes classified as direct are CALL rel32, JMP rel32 or JMP rel8 after prefixes, complete to the last byte. */
  lemma DirectIsRelative(b: seq<bv8>, pc: u64, size: nat) returns (n: nat)
    requires Classify(X86, b, pc, size).Direct?
    ensures OpcodeAt(b, n)
    ensures ((b[n] == 0xE8 || b[n] == 0xE9) && n + 5 <= |b|) || (b[n] == 0xEB && n + 2 <= |b|)
  {
    n := Prefixes(b);
    PrefixesCounted(b);
    assert b[n..][0] == b[n];
  }

  /** Bytes classified as indirect are FF /2 or FF /4 after prefixes. */
  lemma IndirectIsGroupFive(b: seq<bv8>, pc: u64, size: nat) returns (n: nat)
    requires Classify(X86, b, pc, size) == Indirect
    ensures OpcodeAt(b, n) && n + 2 <= |b| && b[n] == 0xFF && ((b[n + 1] >> 3) & 7 == 2 || (b[n + 1] >> 3) & 7 == 4)
  {
    n := Prefixes(b);
    PrefixesCounted(b);
    assert b[n..][0] == b[n] && (n + 2 <= |b| ==> b[n..][1] == b[n + 1]);
  }
}
