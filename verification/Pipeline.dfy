/** Profiling and converting, one after the other; and what becomes of a direct branch in the guest's code. */
module Pipeline {
  import opened Words
  import opened EdgeStorage
  import opened Decoder
  import opened BranchEncoding
  import opened BranchRoundTrip
  import opened SignExtension
  import opened Decoding
  import opened GuestTrace
  import opened Profiler
  import opened LogFormat
  import opened NativeParser
  import opened LogRoundTrip
  import opened EndToEnd
  import opened Plugin
  import opened FlushLaws
  import opened Bytes
  import opened Utf8

  /**
   Ends a profiling run and parses its log. Parsing succeeds, and the profile is that of a complete run
   of decoded blocks; at tier 1 and up, in streaming mode every edge has its true count, and in either
   mode no more than that.
   */
  method ExitAndParse(plugin: PluginState, wallTime: u64) returns (profile: Profile, ghost d: Dump)
    requires plugin.Valid() && Quiet(plugin.View()) && |plugin.trace| < TWO_64 - 1
    modifies plugin`calls, plugin.accumulators, plugin.writer
    ensures AllDecoded(plugin.arch, plugin.trace)
    ensures CompleteRun(plugin.config, plugin.trace, plugin.states, plugin.header, old(plugin.calls), d,
                        wallTime, profile.View())
    ensures profile.header == plugin.header
    ensures profile.metadata == WithCalls(EmptyProfile(plugin.header), plugin.meta).metadata
    ensures plugin.config.tier >= 1 ==>
              && DistinctEdges(profile.branchEdges)
              && (forall e :: TotalIf(profile.branchEdges, Is(e)) <= Count(plugin.trace, Taken(Is(e))))
              && (plugin.config.streaming ==>
                    forall e :: TotalIf(profile.branchEdges, Is(e)) == Count(plugin.trace, Taken(Is(e))))
  {
    ghost var during := plugin.calls;
    d := plugin.PluginExit(wallTime);
    var file := plugin.writer.out;
    RoundTrip(plugin.header, plugin.calls);
    var outcome := Parse(file);
    profile := outcome.profile;
    ParsedDescription(plugin.config, plugin.trace, plugin.states, plugin.header, during, d, wallTime,
                      profile.View(), plugin.meta);
    if plugin.config.tier >= 1 {
      BranchCounts(plugin.config, plugin.trace, plugin.states, plugin.header, during, d, wallTime, profile.View());
    }
  }

  // ---- What describes the run ----

  lemma {:induction false} MetadataStays(p: ProfileData, calls: seq<Call>)
    requires forall i | 0 <= i < |calls| :: !calls[i].StringMeta?
    ensures WithCalls(p, calls).metadata == p.metadata
  {
    if calls != [] {
      MetadataStays(p, calls[..|calls| - 1]);
    }
  }

  lemma NoMetadataAtExit(c: Config, calls: seq<Call>, d: Dump, wallTime: u64, n: nat)
    requires n <= |calls| && forall i | n <= i < |calls| :: !calls[i].StringMeta?
    ensures |RunCalls(c, calls, d, wallTime)| >= n && RunCalls(c, calls, d, wallTime)[..n] == calls[..n]
    ensures forall i | n <= i < |RunCalls(c, calls, d, wallTime)| :: !RunCalls(c, calls, d, wallTime)[i].StringMeta?
  {
  }

  lemma DescribedRun(c: Config, h: FileHeader, during: seq<Call>, d: Dump, wallTime: u64, p: ProfileData,
                     meta: seq<Call>)
    requires ValidHeader(h) && ValidCalls(during) && Introduced(meta, during)
    requires AllFit(d.edges) && AllFit(d.falls) && AllFit(d.directs) && AllFit(d.indirects)
    requires IsProfileOf(Log(h, RunCalls(c, during, d, wallTime)), p)
    ensures p.metadata == WithCalls(EmptyProfile(h), meta).metadata
  {
    var calls := RunCalls(c, during, d, wallTime);
    RunCallsValid(c, during, d, wallTime);
    ParsedLog(h, calls, p);
    NoMetadataAtExit(c, during, d, wallTime, |meta|);
    DescribedFirst(h, calls, meta);
  }

  /** The parsed header is the plugin's, and the parsed metadata what the first calls said. */
  lemma ParsedDescription(c: Config, t: Trace, states: seq<State>, h: FileHeader, during: seq<Call>,
                          d: Dump, wallTime: u64, p: ProfileData, meta: seq<Call>)
    requires CompleteRun(c, t, states, h, during, d, wallTime, p) && Introduced(meta, during)
    ensures p.header == h && p.metadata == WithCalls(EmptyProfile(h), meta).metadata
  {
    ParsedDump(c, t, states, h, during, d, wallTime, p);
    DescribedRun(c, h, during, d, wallTime, p, meta);
  }

  lemma DescribedFirst(h: FileHeader, calls: seq<Call>, meta: seq<Call>)
    requires Introduced(meta, calls)
    ensures WithCalls(EmptyProfile(h), calls).metadata == WithCalls(EmptyProfile(h), meta).metadata
  {
    var rest := calls[|meta|..];
    assert calls == meta + rest;
    WithCallsAppend(EmptyProfile(h), meta, rest);
    MetadataStays(WithCalls(EmptyProfile(h), meta), rest);
  }

  lemma AsciiComesBack(s: string, cap: nat)
    requires IsAscii(s) && |s| <= cap
    ensures FromUtf8Lossy(Clip(AsciiText(s), cap)) == AsciiText(s)
  {
    AsciiIsValid(AsciiText(s));
    TextRoundTrip(AsciiText(s), cap);
  }

  lemma ThreeCalls(p: ProfileData, x: Call, y: Call, z: Call)
    ensures WithCalls(p, [x, y, z]) == WithCall(WithCall(WithCall(p, x), y), z)
  {
    TwoCalls(p, x, y);
    WithCallsStep(p, [x, y], z);
    assert [x, y] + [z] == [x, y, z];
  }

  /** The metadata names the binary, the architecture and the mode, each text as far as its field holds it. */
  lemma MetadataOfRun(h: FileHeader, binary: bytes, archName: bytes, sysemu: bool)
    ensures WithCalls(EmptyProfile(h), MetaCalls(binary, archName, ModeName(sysemu))).metadata ==
            map[AsciiText("binary_path") := FromUtf8Lossy(Clip(binary, 65535)),
                AsciiText("arch") := FromUtf8Lossy(Clip(archName, 65535)),
                AsciiText("mode") := if sysemu then AsciiText("sysemu") else AsciiText("linux-user")]
  {
    var mode := if sysemu then "sysemu" else "linux-user";
    AsciiComesBack("binary_path", 255);
    AsciiComesBack("arch", 255);
    AsciiComesBack("mode", 255);
    AsciiComesBack(mode, 65535);
    ThreeCalls(EmptyProfile(h), StringMeta(AsciiText("binary_path"), binary), StringMeta(AsciiText("arch"), archName),
               StringMeta(AsciiText("mode"), AsciiText(mode)));
  }

  /** While a streaming plugin runs, every branch batch it writes has exactly max(1, topN) records. */
  lemma PluginFlushesAtThreshold(plugin: PluginState, i: nat)
    requires plugin.Valid() && plugin.config.streaming
    requires i < |plugin.calls| && plugin.calls[i].BranchBatch?
    ensures |plugin.calls[i].edges| == if plugin.config.topN < 1 then 1 else plugin.config.topN
  {
    WrittenBatchesAreFull(plugin.config, plugin.trace, plugin.states, plugin.calls, i);
  }

  lemma BranchCounts(c: Config, t: Trace, states: seq<State>, h: FileHeader, during: seq<Call>,
                     d: Dump, wallTime: u64, p: ProfileData)
    requires CompleteRun(c, t, states, h, during, d, wallTime, p) && c.tier >= 1
    ensures DistinctEdges(p.branchEdges)
    ensures forall e :: TotalIf(p.branchEdges, Is(e)) <= Count(t, Taken(Is(e)))
    ensures c.streaming ==> forall e :: TotalIf(p.branchEdges, Is(e)) == Count(t, Taken(Is(e)))
  {
    forall e: Edge
      ensures DistinctEdges(p.branchEdges) && TotalIf(p.branchEdges, Is(e)) <= Count(t, Taken(Is(e)))
      ensures c.streaming ==> TotalIf(p.branchEdges, Is(e)) == Count(t, Taken(Is(e)))
    {
      BranchEdgesEndToEnd(c, t, states, h, during, d, wallTime, p, e);
    }
    assert DistinctEdges(p.branchEdges) by {
      BranchEdgesEndToEnd(c, t, states, h, during, d, wallTime, p, Edge(0, 0));
    }
  }

  /** Instruction `j` of the block translated by event `i`. */
  function InsnAt(t: Trace, i: nat, j: nat): Insn
    requires i < |t| && t[i].Translate? && j < |t[i].tb.insns|
  {
    t[i].tb.insns[j]
  }

  /** A direct branch or call in the code of a translated block is in the profile, exactly once. */
  lemma DirectCodeIsProfiled(c: Config, t: Trace, states: seq<State>, h: FileHeader, during: seq<Call>,
                             d: Dump, wallTime: u64, p: ProfileData, arch: Arch, i: nat, j: nat, target: u64)
    requires CompleteRun(c, t, states, h, during, d, wallTime, p) && c.tier >= 2 && AllDecoded(arch, t)
    requires i < |t| && t[i].Translate? && j < |t[i].tb.insns|
    requires Classify(arch, InsnAt(t, i, j).code, InsnAt(t, i, j).addr, InsnAt(t, i, j).size) == Direct(target)
    ensures DistinctEdges(p.directCalls)
    ensures exists r | 0 <= r < |p.directCalls| :: p.directCalls[r].Key() == Edge(InsnAt(t, i, j).addr, target)
  {
    DirectInsnListed(arch, t, i, j, target);
    DirectCallsListed(c, t, states, h, during, d, wallTime, p);
  }

  /** The bytes of a RISC-V JAL to `target`, which is as far away as its offset says. */
  ghost predicate IsJal(insn: Insn, rd: bv32, offset: bv64, target: u64) {
    && SignedRange(offset, 0x100000) && offset & 1 == 0 && insn.code == Bytes32(EncodeJal(rd, offset))
    && target == (insn.addr + offset as int) % 0x1_0000_0000_0000_0000
  }

  /** The bytes of an AArch64 B or BL to `target`. */
  ghost predicate IsBranch(insn: Insn, link: bool, offset: bv64, target: u64) {
    && SignedRange(offset, 0x8000000) && offset & 3 == 0 && insn.code == Bytes32(EncodeB(link, offset))
    && target == (insn.addr + offset as int) % 0x1_0000_0000_0000_0000
  }

  lemma JalIsDirect(insn: Insn, rd: bv32, offset: bv64, target: u64)
    requires IsJal(insn, rd, offset, target)
    ensures Classify(Riscv, insn.code, insn.addr, insn.size) == Direct(target)
  {
    JalRoundTrip(rd, offset, insn.addr, insn.size);
  }

  lemma BranchIsDirect(insn: Insn, link: bool, offset: bv64, target: u64)
    requires IsBranch(insn, link, offset, target)
    ensures Classify(Aarch64, insn.code, insn.addr, insn.size) == Direct(target)
  {
    BRoundTrip(link, offset, insn.addr, insn.size);
  }

  /** From the guest's bytes to the parsed profile: a RISC-V JAL is recorded with the address it jumps to. */
  lemma JalIsProfiled(c: Config, t: Trace, states: seq<State>, h: FileHeader, during: seq<Call>,
                      d: Dump, wallTime: u64, p: ProfileData, i: nat, j: nat, rd: bv32, offset: bv64, target: u64)
    requires CompleteRun(c, t, states, h, during, d, wallTime, p) && c.tier >= 2 && AllDecoded(Riscv, t)
    requires i < |t| && t[i].Translate? && j < |t[i].tb.insns| && IsJal(InsnAt(t, i, j), rd, offset, target)
    ensures exists r | 0 <= r < |p.directCalls| :: p.directCalls[r].Key() == Edge(InsnAt(t, i, j).addr, target)
  {
    JalIsDirect(InsnAt(t, i, j), rd, offset, target);
    DirectCodeIsProfiled(c, t, states, h, during, d, wallTime, p, Riscv, i, j, target);
  }

  /** The same for an AArch64 B or BL. */
  lemma BranchIsProfiled(c: Config, t: Trace, states: seq<State>, h: FileHeader, during: seq<Call>,
                         d: Dump, wallTime: u64, p: ProfileData, i: nat, j: nat, link: bool, offset: bv64, target: u64)
    requires CompleteRun(c, t, states, h, during, d, wallTime, p) && c.tier >= 2 && AllDecoded(Aarch64, t)
    requires i < |t| && t[i].Translate? && j < |t[i].tb.insns| && IsBranch(InsnAt(t, i, j), link, offset, target)
    ensures exists r | 0 <= r < |p.directCalls| :: p.directCalls[r].Key() == Edge(InsnAt(t, i, j).addr, target)
  {
    BranchIsDirect(InsnAt(t, i, j), link, offset, target);
    DirectCodeIsProfiled(c, t, states, h, during, d, wallTime, p, Aarch64, i, j, target);
  }
}
