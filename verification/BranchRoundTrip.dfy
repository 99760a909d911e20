/** Encoding a branch and classifying the bytes gives its target. */
module BranchRoundTrip {
  import opened Words
  import opened Decoder
  import opened SignExtension
  import opened BranchEncoding

  lemma BytesRoundTrip32(insn: bv32)
    ensures Word32(Bytes32(insn)) == insn
  {
  }

  lemma BytesRoundTrip16(insn: bv16)
    ensures Word16(Bytes16(insn)) == insn
  {
  }

  lemma SignedIs(x: bv64)
    ensures Signed(x) == x as int || Signed(x) == x as int - 0x1_0000_0000_0000_0000
  {
  }

  lemma SameModulo(pc: int, signed: int, offset: int)
    requires signed == offset || signed == offset - 0x1_0000_0000_0000_0000
    ensures Wrap64(pc + signed) == (pc + offset) % 0x1_0000_0000_0000_0000
  {
  }

  /** Adding the two's complement modulo 2^64 is adding the signed offset. */
  lemma TargetIsSum(pc: u64, offset: bv64)
    ensures Target(pc, offset) == (pc + offset as int) % 0x1_0000_0000_0000_0000
  {
    SignedIs(offset);
    SameModulo(pc, Signed(offset), offset as int);
  }

  lemma WrappedTwice(a: int, b: int)
    ensures (a % 0x1_0000_0000_0000_0000 + b) % 0x1_0000_0000_0000_0000 == (a + b) % 0x1_0000_0000_0000_0000
  {
  }

  // ---- RISC-V ----

  lemma JalField(rd: bv32, o: bv32)
    ensures RiscvJalImm(JalWord(rd, o)) == o & 0x1F_FFFE
  {
  }

  lemma JalImm(rd: bv32, offset: bv64)
    ensures RiscvJalImm(EncodeJal(rd, offset)) == Low32(offset) & 0x1F_FFFE
  {
    JalField(rd, Low32(offset));
  }

  lemma EvenLow(offset: bv64)
    requires offset & 1 == 0
    ensures Low32(offset) & 0x1F_FFFE == Low32(offset) & 0x1F_FFFF
  {
  }

  lemma JalOpcode(rd: bv32, offset: bv64)
    ensures EncodeJal(rd, offset) & 0x7F == 0x6F
  {
  }

  lemma LowBits(insn: bv32)
    ensures Bytes32(insn)[0] & 0x03 == 0x03 <==> insn & 3 == 3
  {
  }

  lemma RiscvWord(insn: bv32, pc: u64, size: nat)
    requires insn & 3 == 3
    ensures Classify(Riscv, Bytes32(insn), pc, size) == ClassifyRiscv32(insn, pc)
  {
    BytesRoundTrip32(insn);
    LowBits(insn);
  }

  lemma JalIsLong(insn: bv32)
    requires insn & 0x7F == 0x6F
    ensures insn & 3 == 3
  {
  }

  lemma JalTaken(insn: bv32, pc: u64)
    requires insn & 0x7F == 0x6F
    ensures ClassifyRiscv32(insn, pc) == Direct(Target(pc, RiscvJalOffset(insn)))
  {
  }

  lemma JalClass(insn: bv32, offset: bv64, pc: u64)
    requires insn & 0x7F == 0x6F && RiscvJalOffset(insn) == offset
    ensures ClassifyRiscv32(insn, pc) == Direct(Target(pc, offset))
  {
    JalTaken(insn, pc);
  }

  lemma JalBytes(insn: bv32, offset: bv64, pc: u64, size: nat)
    requires insn & 0x7F == 0x6F && RiscvJalOffset(insn) == offset
    ensures Classify(Riscv, Bytes32(insn), pc, size) == Direct(Target(pc, offset))
  {
    JalIsLong(insn);
    RiscvWord(insn, pc, size);
    JalClass(insn, offset, pc);
  }

  lemma JalImmFull(insn: bv32, offset: bv64)
    requires offset & 1 == 0 && RiscvJalImm(insn) == Low32(offset) & 0x1F_FFFE
    ensures RiscvJalImm(insn) == Low32(offset) & 0x1F_FFFF
  {
    EvenLow(offset);
  }

  lemma JalSigned(insn: bv32, offset: bv64)
    requires Fits(offset, 0xFFFF_FFFF_FFF0_0000) && RiscvJalImm(insn) == Low32(offset) & 0x1F_FFFF
    ensures Widen(Asr(RiscvJalImm(insn) << 11, 11)) == offset
  {
    Signed21(offset, RiscvJalImm(insn));
  }

  lemma JalOffset(insn: bv32, offset: bv64)
    requires Fits(offset, 0xFFFF_FFFF_FFF0_0000) && RiscvJalImm(insn) == Low32(offset) & 0x1F_FFFF
    ensures RiscvJalOffset(insn) == offset
  {
    JalSigned(insn, offset);
  }

  lemma JalOffsetOf(insn: bv32, offset: bv64)
    requires Fits(offset, 0xFFFF_FFFF_FFF0_0000) && offset & 1 == 0
    requires RiscvJalImm(insn) == Low32(offset) & 0x1F_FFFE
    ensures RiscvJalOffset(insn) == offset
  {
    JalImmFull(insn, offset);
    JalOffset(insn, offset);
  }

  lemma JalOffsetRoundTrip(rd: bv32, offset: bv64)
    requires Fits(offset, 0xFFFF_FFFF_FFF0_0000) && offset & 1 == 0
    ensures RiscvJalOffset(EncodeJal(rd, offset)) == offset
  {
    JalImm(rd, offset);
    JalOffsetOf(EncodeJal(rd, offset), offset);
  }

  /** JAL to every even offset of 21 bits, from every pc, for every link register. */
  lemma JalRoundTrip(rd: bv32, offset: bv64, pc: u64, size: nat)
    requires SignedRange(offset, 0x100000) && offset & 1 == 0
    ensures Classify(Riscv, Bytes32(EncodeJal(rd, offset)), pc, size) ==
            Direct((pc + offset as int) % 0x1_0000_0000_0000_0000)
  {
    Range21(offset);
    JalOffsetRoundTrip(rd, offset);
    JalOpcode(rd, offset);
    JalBytes(EncodeJal(rd, offset), offset, pc, size);
    TargetIsSum(pc, offset);
  }

  lemma CjImm(link: bool, offset: bv64)
    requires offset & 1 == 0
    ensures RiscvCjImm(EncodeCj(link, offset)) == Low32(offset) & 0xFFF
  {
  }

  lemma CjOpcode(link: bool, offset: bv64)
    ensures EncodeCj(link, offset) & 0xE003 == if link then 0x2001 else 0xA001
  {
  }

  lemma LowBits16(insn: bv16)
    ensures Bytes16(insn)[0] & 0x03 == 0x03 <==> insn & 3 == 3
  {
  }

  lemma RiscvHalf(insn: bv16, pc: u64, size: nat)
    requires insn & 3 != 3
    ensures Classify(Riscv, Bytes16(insn), pc, size) == ClassifyRiscv16(insn, pc)
  {
    BytesRoundTrip16(insn);
    LowBits16(insn);
  }

  lemma CjIsShort(insn: bv16, link: bool)
    requires insn & 0xE003 == if link then 0x2001 else 0xA001
    ensures insn & 3 != 3
  {
  }

  lemma CjTaken(insn: bv16, link: bool, pc: u64)
    requires insn & 0xE003 == if link then 0x2001 else 0xA001
    ensures ClassifyRiscv16(insn, pc) == Direct(Target(pc, RiscvCjOffset(insn)))
  {
  }

  lemma CjClass(insn: bv16, link: bool, offset: bv64, pc: u64)
    requires insn & 0xE003 == (if link then 0x2001 else 0xA001) && RiscvCjOffset(insn) == offset
    ensures ClassifyRiscv16(insn, pc) == Direct(Target(pc, offset))
  {
    CjTaken(insn, link, pc);
  }

  lemma CjBytes(insn: bv16, link: bool, offset: bv64, pc: u64, size: nat)
    requires insn & 0xE003 == (if link then 0x2001 else 0xA001) && RiscvCjOffset(insn) == offset
    ensures Classify(Riscv, Bytes16(insn), pc, size) == Direct(Target(pc, offset))
  {
    CjIsShort(insn, link);
    RiscvHalf(insn, pc, size);
    CjClass(insn, link, offset, pc);
  }

  lemma CjSigned(insn: bv16, offset: bv64)
    requires Fits(offset, 0xFFFF_FFFF_FFFF_F800) && RiscvCjImm(insn) == Low32(offset) & 0xFFF
    ensures Widen(Asr(RiscvCjImm(insn) << 20, 20)) == offset
  {
    Signed12(offset, RiscvCjImm(insn));
  }

  lemma CjOffset(insn: bv16, offset: bv64)
    requires Fits(offset, 0xFFFF_FFFF_FFFF_F800) && RiscvCjImm(insn) == Low32(offset) & 0xFFF
    ensures RiscvCjOffset(insn) == offset
  {
    CjSigned(insn, offset);
  }

  lemma CjOffsetRoundTrip(link: bool, offset: bv64)
    requires Fits(offset, 0xFFFF_FFFF_FFFF_F800) && offset & 1 == 0
    ensures RiscvCjOffset(EncodeCj(link, offset)) == offset
  {
    CjImm(link, offset);
    CjOffset(EncodeCj(link, offset), offset);
  }

  /** C.J and C.JAL to every even offset of 12 bits. */
  lemma CjRoundTrip(link: bool, offset: bv64, pc: u64, size: nat)
    requires SignedRange(offset, 0x800) && offset & 1 == 0
    ensures Classify(Riscv, Bytes16(EncodeCj(link, offset)), pc, size) ==
            Direct((pc + offset as int) % 0x1_0000_0000_0000_0000)
  {
    Range12(offset);
    CjOffsetRoundTrip(link, offset);
    CjOpcode(link, offset);
    CjBytes(EncodeCj(link, offset), link, offset, pc, size);
    TargetIsSum(pc, offset);
  }

  // ---- AArch64 ----

  lemma BFieldLink(link: bool, o: bv32)
    requires link
    ensures Aarch64Imm26(BWord(link, o)) == o & 0x03FF_FFFF
  {
  }

  lemma BFieldJump(link: bool, o: bv32)
    requires !link
    ensures Aarch64Imm26(BWord(link, o)) == o & 0x03FF_FFFF
  {
  }

  lemma BField(link: bool, o: bv32)
    ensures Aarch64Imm26(BWord(link, o)) == o & 0x03FF_FFFF
  {
    if link {
      BFieldLink(link, o);
    } else {
      BFieldJump(link, o);
    }
  }

  lemma BImm(link: bool, offset: bv64)
    ensures Aarch64Imm26(EncodeB(link, offset)) == WordOffset(offset) & 0x03FF_FFFF
  {
    BField(link, WordOffset(offset));
  }

  lemma BOpcode(link: bool, offset: bv64)
    ensures EncodeB(link, offset) & 0xFC00_0000 == if link then 0x9400_0000 else 0x1400_0000
  {
  }

  lemma BTaken(insn: bv32, link: bool, pc: u64)
    requires insn & 0xFC00_0000 == if link then 0x9400_0000 else 0x1400_0000
    ensures ClassifyAarch64(insn, pc) == Direct(Target(pc, Aarch64Imm26Offset(insn)))
  {
  }

  lemma BClass(insn: bv32, link: bool, offset: bv64, pc: u64)
    requires insn & 0xFC00_0000 == (if link then 0x9400_0000 else 0x1400_0000) && Aarch64Imm26Offset(insn) == offset
    ensures ClassifyAarch64(insn, pc) == Direct(Target(pc, offset))
  {
    BTaken(insn, link, pc);
  }

  lemma BBytes(insn: bv32, link: bool, offset: bv64, pc: u64, size: nat)
    requires insn & 0xFC00_0000 == (if link then 0x9400_0000 else 0x1400_0000) && Aarch64Imm26Offset(insn) == offset
    ensures Classify(Aarch64, Bytes32(insn), pc, size) == Direct(Target(pc, offset))
  {
    BytesRoundTrip32(insn);
    BClass(insn, link, offset, pc);
  }

  lemma BSigned(insn: bv32, offset: bv64)
    requires Fits(offset, 0xFFFF_FFFF_F800_0000) && offset & 3 == 0
    requires Aarch64Imm26(insn) == WordOffset(offset) & 0x03FF_FFFF
    ensures Times4(Widen(Asr((Aarch64Imm26(insn)) << 6, 6))) == offset
  {
    Signed26(offset, Aarch64Imm26(insn));
  }

  lemma BOffset(insn: bv32, offset: bv64)
    requires Fits(offset, 0xFFFF_FFFF_F800_0000) && offset & 3 == 0
    requires Aarch64Imm26(insn) == WordOffset(offset) & 0x03FF_FFFF
    ensures Aarch64Imm26Offset(insn) == offset
  {
    BSigned(insn, offset);
  }

  lemma BOffsetRoundTrip(link: bool, offset: bv64)
    requires Fits(offset, 0xFFFF_FFFF_F800_0000) && offset & 3 == 0
    ensures Aarch64Imm26Offset(EncodeB(link, offset)) == offset
  {
    BImm(link, offset);
    BOffset(EncodeB(link, offset), offset);
  }

  /** B and BL to every word-aligned offset of 28 bits. */
  lemma BRoundTrip(link: bool, offset: bv64, pc: u64, size: nat)
    requires SignedRange(offset, 0x8000000) && offset & 3 == 0
    ensures Classify(Aarch64, Bytes32(EncodeB(link, offset)), pc, size) ==
            Direct((pc + offset as int) % 0x1_0000_0000_0000_0000)
  {
    Range28(offset);
    BOffsetRoundTrip(link, offset);
    BOpcode(link, offset);
    BBytes(EncodeB(link, offset), link, offset, pc, size);
    TargetIsSum(pc, offset);
  }

  // ---- Hexagon ----

  lemma HexR22Field(call: bool, o: bv32, parse: bv32, low: bv32)
    ensures HexR22Imm(HexR22Word(call, o, parse, low)) == o & 0x3F_FFFF
  {
  }

  lemma HexR22ImmOf(call: bool, offset: bv64, parse: bv32, low: bv32)
    ensures HexR22Imm(EncodeHexR22(call, offset, parse, low)) == WordOffset(offset) & 0x3F_FFFF
  {
    HexR22Field(call, WordOffset(offset), parse, low);
  }

  predicate IsHexR22(insn: bv32) {
    && (insn >> 14) & 3 != 0
    && (insn & 0xFE00_0000 == 0x5A00_0000 || insn & 0xFE00_0000 == 0x5800_0000)
  }

  lemma HexR22Opcode(call: bool, offset: bv64, parse: bv32, low: bv32)
    requires parse & 3 != 0
    ensures IsHexR22(EncodeHexR22(call, offset, parse, low))
  {
  }

  lemma HexR22Taken(insn: bv32, pc: u64)
    requires IsHexR22(insn)
    ensures ClassifyHexagon(insn, pc) == Direct(Target(pc, HexR22Offset(insn)))
  {
  }

  lemma HexR22Class(insn: bv32, offset: bv64, pc: u64)
    requires IsHexR22(insn) && HexR22Offset(insn) == offset
    ensures ClassifyHexagon(insn, pc) == Direct(Target(pc, offset))
  {
    HexR22Taken(insn, pc);
  }

  lemma HexR22Bytes(insn: bv32, offset: bv64, pc: u64, size: nat)
    requires IsHexR22(insn) && HexR22Offset(insn) == offset
    ensures Classify(Hexagon, Bytes32(insn), pc, size) == Direct(Target(pc, offset))
  {
    BytesRoundTrip32(insn);
    HexR22Class(insn, offset, pc);
  }

  lemma HexR22Signed(insn: bv32, offset: bv64)
    requires Fits(offset, 0xFFFF_FFFF_FF80_0000) && offset & 3 == 0
    requires HexR22Imm(insn) == WordOffset(offset) & 0x3F_FFFF
    ensures Times4(Widen(Asr(HexR22Imm(insn) << 10, 10))) == offset
  {
    Signed22(offset, HexR22Imm(insn));
  }

  lemma HexR22OffsetIs(insn: bv32, offset: bv64)
    requires Fits(offset, 0xFFFF_FFFF_FF80_0000) && offset & 3 == 0
    requires HexR22Imm(insn) == WordOffset(offset) & 0x3F_FFFF
    ensures HexR22Offset(insn) == offset
  {
    HexR22Signed(insn, offset);
  }

  lemma HexR22OffsetRoundTrip(call: bool, offset: bv64, parse: bv32, low: bv32)
    requires Fits(offset, 0xFFFF_FFFF_FF80_0000) && offset & 3 == 0
    ensures HexR22Offset(EncodeHexR22(call, offset, parse, low)) == offset
  {
    HexR22ImmOf(call, offset, parse, low);
    HexR22OffsetIs(EncodeHexR22(call, offset, parse, low), offset);
  }

  /** Hexagon call and jump to every word-aligned offset of 24 bits, under every non-duplex parse-bit value. */
  lemma HexR22RoundTrip(call: bool, offset: bv64, parse: bv32, low: bv32, pc: u64, size: nat)
    requires SignedRange(offset, 0x800000) && offset & 3 == 0 && parse & 3 != 0
    ensures Classify(Hexagon, Bytes32(EncodeHexR22(call, offset, parse, low)), pc, size) ==
            Direct((pc + offset as int) % 0x1_0000_0000_0000_0000)
  {
    Range24(offset);
    HexR22OffsetRoundTrip(call, offset, parse, low);
    HexR22Opcode(call, offset, parse, low);
    HexR22Bytes(EncodeHexR22(call, offset, parse, low), offset, pc, size);
    TargetIsSum(pc, offset);
  }

  lemma HexR15Field(o: bv32, parse: bv32, rest: bv32)
    ensures HexR15Imm(HexR15Word(o, parse, rest)) == o & 0x7FFF
  {
  }

  lemma HexR15ImmOf(offset: bv64, parse: bv32, rest: bv32)
    ensures HexR15Imm(EncodeHexR15(offset, parse, rest)) == WordOffset(offset) & 0x7FFF
  {
    HexR15Field(WordOffset(offset), parse, rest);
  }

  predicate IsHexR15(insn: bv32) {
    (insn >> 14) & 3 != 0 && insn & 0xFF00_0000 == 0x5D00_0000
  }

  lemma HexR15Opcode(offset: bv64, parse: bv32, rest: bv32)
    requires parse & 3 != 0
    ensures IsHexR15(EncodeHexR15(offset, parse, rest))
  {
  }

  lemma HexR15Taken(insn: bv32, pc: u64)
    requires IsHexR15(insn)
    ensures ClassifyHexagon(insn, pc) == Direct(Target(pc, HexR15Offset(insn)))
  {
  }

  lemma HexR15Class(insn: bv32, offset: bv64, pc: u64)
    requires IsHexR15(insn) && HexR15Offset(insn) == offset
    ensures ClassifyHexagon(insn, pc) == Direct(Target(pc, offset))
  {
    HexR15Taken(insn, pc);
  }

  lemma HexR15Bytes(insn: bv32, offset: bv64, pc: u64, size: nat)
    requires IsHexR15(insn) && HexR15Offset(insn) == offset
    ensures Classify(Hexagon, Bytes32(insn), pc, size) == Direct(Target(pc, offset))
  {
    BytesRoundTrip32(insn);
    HexR15Class(insn, offset, pc);
  }

  lemma HexR15Signed(insn: bv32, offset: bv64)
    requires Fits(offset, 0xFFFF_FFFF_FFFF_0000) && offset & 3 == 0
    requires HexR15Imm(insn) == WordOffset(offset) & 0x7FFF
    ensures Times4(Widen(Asr(HexR15Imm(insn) << 17, 17))) == offset
  {
    Signed15(offset, HexR15Imm(insn));
  }

  lemma HexR15OffsetIs(insn: bv32, offset: bv64)
    requires Fits(offset, 0xFFFF_FFFF_FFFF_0000) && offset & 3 == 0
    requires HexR15Imm(insn) == WordOffset(offset) & 0x7FFF
    ensures HexR15Offset(insn) == offset
  {
    HexR15Signed(insn, offset);
  }

  lemma HexR15OffsetRoundTrip(offset: bv64, parse: bv32, rest: bv32)
    requires Fits(offset, 0xFFFF_FFFF_FFFF_0000) && offset & 3 == 0
    ensures HexR15Offset(EncodeHexR15(offset, parse, rest)) == offset
  {
    HexR15ImmOf(offset, parse, rest);
    HexR15OffsetIs(EncodeHexR15(offset, parse, rest), offset);
  }

  /** Hexagon conditional call to every word-aligned offset of 17 bits, whatever the bits around the immediate. */
  lemma HexR15RoundTrip(offset: bv64, parse: bv32, rest: bv32, pc: u64, size: nat)
    requires SignedRange(offset, 0x10000) && offset & 3 == 0 && parse & 3 != 0
    ensures Classify(Hexagon, Bytes32(EncodeHexR15(offset, parse, rest)), pc, size) ==
            Direct((pc + offset as int) % 0x1_0000_0000_0000_0000)
  {
    Range17(offset);
    HexR15OffsetRoundTrip(offset, parse, rest);
    HexR15Opcode(offset, parse, rest);
    HexR15Bytes(EncodeHexR15(offset, parse, rest), offset, pc, size);
    TargetIsSum(pc, offset);
  }

  /** A duplex word is never taken for a branch. */
  lemma DuplexIsOther(insn: bv32, pc: u64)
    requires insn & 0xC000 == 0
    ensures ClassifyHexagon(insn, pc) == Other
  {
    assert (insn >> 14) & 3 == 0;
  }

  // ---- x86 ----

  lemma PrefixByteIs(c: bv8)
    ensures IsPrefix(c) <==> PrefixByte(c)
  {
  }

  lemma PrefixesEnd(p: seq<bv8>, b: seq<bv8>)
    requires forall i :: 0 <= i < |p| ==> IsPrefix(p[i])
    requires b != [] && !IsPrefix(b[0])
    ensures Prefixes(p + b) == |p|
  {
    if p == [] {
      assert p + b == b;
    } else {
      PrefixesEnd(p[1..], b);
      assert (p + b)[1..] == p[1..] + b;
    }
  }

  lemma PrefixesSkipped(p: seq<bv8>, b: seq<bv8>)
    requires forall i :: 0 <= i < |p| ==> PrefixByte(p[i])
    requires b != [] && !PrefixByte(b[0])
    ensures Prefixes(p + b) == |p|
  {
    forall i | 0 <= i < |p| ensures IsPrefix(p[i]) {
      PrefixByteIs(p[i]);
    }
    PrefixByteIs(b[0]);
    PrefixesEnd(p, b);
  }

  lemma AfterPrefixes(p: seq<bv8>, b: seq<bv8>, pc: u64, size: nat)
    requires forall i :: 0 <= i < |p| ==> PrefixByte(p[i])
    requires b != [] && !PrefixByte(b[0])
    ensures Classify(X86, p + b, pc, size) == ClassifyX86Opcode(b, Wrap64(pc + size))
  {
    PrefixesSkipped(p, b);
    assert (p + b)[|p|..] == b;
  }

  lemma Regroup(p: seq<bv8>, opcode: bv8, field: seq<bv8>, rest: seq<bv8>)
    ensures p + [opcode] + field + rest == p + ([opcode] + (field + rest))
  {
  }

  lemma Rel32NonNegative(offset: bv64)
    requires offset & 0xFFFF_FFFF_8000_0000 == 0
    ensures Widen(Low32(offset)) == offset
  {
  }

  lemma Rel32Negative(offset: bv64)
    requires offset & 0xFFFF_FFFF_8000_0000 == 0xFFFF_FFFF_8000_0000
    ensures Widen(Low32(offset)) == offset
  {
  }

  lemma Rel32(offset: bv64)
    requires Fits(offset, 0xFFFF_FFFF_8000_0000)
    ensures Widen(Low32(offset)) == offset
  {
    if offset & 0xFFFF_FFFF_8000_0000 == 0 {
      Rel32NonNegative(offset);
    } else {
      Rel32Negative(offset);
    }
  }

  lemma Rel32Word(b: seq<bv8>, offset: bv64, rest: seq<bv8>)
    requires b == Bytes32(Low32(offset)) + rest
    ensures Word32(b) == Low32(offset)
  {
    BytesRoundTrip32(Low32(offset));
  }

  lemma Rel32Opcode(b: seq<bv8>, offset: bv64, next: u64)
    requires 5 <= |b| && (b[0] == 0xE8 || b[0] == 0xE9) && Word32(b[1..]) == Low32(offset)
    requires Widen(Low32(offset)) == offset
    ensures ClassifyX86Opcode(b, next) == Direct(Target(next, offset))
  {
  }

  lemma Rel32Target(b: seq<bv8>, offset: bv64, a: int)
    requires 5 <= |b| && (b[0] == 0xE8 || b[0] == 0xE9) && Word32(b[1..]) == Low32(offset)
    requires Widen(Low32(offset)) == offset
    ensures ClassifyX86Opcode(b, Wrap64(a)) == Direct((a + offset as int) % 0x1_0000_0000_0000_0000)
  {
    Rel32Opcode(b, offset, Wrap64(a));
    TargetIsSum(Wrap64(a), offset);
    WrappedTwice(a, offset as int);
  }

  lemma Rel32Bytes(opcode: bv8, offset: bv64, rest: seq<bv8>, a: int)
    requires opcode == 0xE8 || opcode == 0xE9
    requires Widen(Low32(offset)) == offset
    ensures ClassifyX86Opcode([opcode] + (Bytes32(Low32(offset)) + rest), Wrap64(a)) ==
            Direct((a + offset as int) % 0x1_0000_0000_0000_0000)
  {
    var tail := Bytes32(Low32(offset)) + rest;
    var b := [opcode] + tail;
    assert b[1..] == tail;
    Rel32Word(tail, offset, rest);
    Rel32Target(b, offset, a);
  }

  lemma Rel32InRange(offset: bv64)
    requires SignedRange(offset, 0x80000000)
    ensures Widen(Low32(offset)) == offset
  {
    Range32(offset);
    Rel32(offset);
  }

  /** The opcode byte of CALL rel32 or JMP rel32. */
  function Rel32Op(call: bool): bv8 {
    if call then 0xE8 else 0xE9
  }

  lemma Rel32AfterPrefixes(p: seq<bv8>, call: bool, field: seq<bv8>, rest: seq<bv8>, pc: u64, size: nat)
    requires forall i :: 0 <= i < |p| ==> PrefixByte(p[i])
    ensures Classify(X86, p + [Rel32Op(call)] + field + rest, pc, size) ==
            ClassifyX86Opcode([Rel32Op(call)] + (field + rest), Wrap64(pc + size))
  {
    AfterPrefixes(p, [Rel32Op(call)] + (field + rest), pc, size);
    Regroup(p, Rel32Op(call), field, rest);
  }

  lemma Rel32Class(p: seq<bv8>, call: bool, offset: bv64, rest: seq<bv8>, pc: u64, size: nat)
    requires forall i :: 0 <= i < |p| ==> PrefixByte(p[i])
    requires Widen(Low32(offset)) == offset
    ensures Classify(X86, p + [Rel32Op(call)] + Bytes32(Low32(offset)) + rest, pc, size) ==
            Direct(((pc + size) + offset as int) % 0x1_0000_0000_0000_0000)
  {
    Rel32AfterPrefixes(p, call, Bytes32(Low32(offset)), rest, pc, size);
    Rel32Bytes(Rel32Op(call), offset, rest, pc + size);
  }

  /** CALL rel32 and JMP rel32 after any run of prefixes. */
  lemma X86Rel32RoundTrip(p: seq<bv8>, call: bool, offset: bv64, rest: seq<bv8>, pc: u64, size: nat)
    requires forall i :: 0 <= i < |p| ==> PrefixByte(p[i])
    requires SignedRange(offset, 0x80000000)
    ensures Classify(X86, p + [if call then 0xE8 else 0xE9] + Bytes32(Low32(offset)) + rest, pc, size) ==
            Direct(((pc + size) + offset as int) % 0x1_0000_0000_0000_0000)
  {
    Rel32InRange(offset);
    Rel32Class(p, call, offset, rest, pc, size);
  }

  lemma Rel8NonNegative(offset: bv64)
    requires offset & 0xFFFF_FFFF_FFFF_FF80 == 0
    ensures Widen8((offset & 0xFF) as bv8) == offset
  {
  }

  lemma Rel8Negative(offset: bv64)
    requires offset & 0xFFFF_FFFF_FFFF_FF80 == 0xFFFF_FFFF_FFFF_FF80
    ensures Widen8((offset & 0xFF) as bv8) == offset
  {
  }

  lemma Rel8(offset: bv64)
    requires Fits(offset, 0xFFFF_FFFF_FFFF_FF80)
    ensures Widen8((offset & 0xFF) as bv8) == offset
  {
    if offset & 0xFFFF_FFFF_FFFF_FF80 == 0 {
      Rel8NonNegative(offset);
    } else {
      Rel8Negative(offset);
    }
  }

  lemma Rel8Opcode(b: seq<bv8>, offset: bv64, next: u64)
    requires 2 <= |b| && b[0] == 0xEB && Widen8(b[1]) == offset
    ensures ClassifyX86Opcode(b, next) == Direct(Target(next, offset))
  {
  }

  lemma Rel8Target(b: seq<bv8>, offset: bv64, a: int)
    requires 2 <= |b| && b[0] == 0xEB && Widen8(b[1]) == offset
    ensures ClassifyX86Opcode(b, Wrap64(a)) == Direct((a + offset as int) % 0x1_0000_0000_0000_0000)
  {
    Rel8Opcode(b, offset, Wrap64(a));
    TargetIsSum(Wrap64(a), offset);
    WrappedTwice(a, offset as int);
  }

  lemma Rel8InRange(offset: bv64)
    requires SignedRange(offset, 0x80)
    ensures Widen8((offset & 0xFF) as bv8) == offset
  {
    Range8(offset);
    Rel8(offset);
  }

  lemma Rel8Class(p: seq<bv8>, offset: bv64, rest: seq<bv8>, pc: u64, size: nat)
    requires forall i :: 0 <= i < |p| ==> PrefixByte(p[i])
    requires Widen8((offset & 0xFF) as bv8) == offset
    ensures Classify(X86, p + [0xEB] + [(offset & 0xFF) as bv8] + rest, pc, size) ==
            Direct(((pc + size) + offset as int) % 0x1_0000_0000_0000_0000)
  {
    var b := [0xEB] + ([(offset & 0xFF) as bv8] + rest);
    Rel8Target(b, offset, pc + size);
    AfterPrefixes(p, b, pc, size);
    Regroup(p, 0xEB, [(offset & 0xFF) as bv8], rest);
  }

  /** JMP rel8 after any run of prefixes. */
  lemma X86Rel8RoundTrip(p: seq<bv8>, offset: bv64, rest: seq<bv8>, pc: u64, size: nat)
    requires forall i :: 0 <= i < |p| ==> PrefixByte(p[i])
    requires SignedRange(offset, 0x80)
    ensures Classify(X86, p + [0xEB] + [(offset & 0xFF) as bv8] + rest, pc, size) ==
            Direct(((pc + size) + offset as int) % 0x1_0000_0000_0000_0000)
  {
    Rel8InRange(offset);
    Rel8Class(p, offset, rest, pc, size);
  }
}
