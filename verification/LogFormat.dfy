/**
 The profile log: a 64-byte header followed by tagged, length-prefixed records.
 Strings are their UTF-8 bytes.
 */
module LogFormat {
  import opened Words
  import opened Bytes
  import opened EdgeStorage

  /** "QEMU_PGO" in ASCII. */
  const FILE_MAGIC: u64 := 0x4F47505F554D4551
  const FORMAT_VERSION: u16 := 1
  const FLAG_SYSEMU: u32 := 0x1
  const FLAG_STREAMING: u32 := 0x2
  const HEADER_SIZE := 64

  const TAG_STRING_META: u8 := 0x01
  const TAG_SYMBOL_ENTRY: u8 := 0x02
  const TAG_TB_EXEC_BATCH: u8 := 0x13
  const TAG_BRANCH_EDGE_BATCH: u8 := 0x21
  const TAG_FALL_THROUGH_BATCH: u8 := 0x23
  const TAG_FLUSH_MARKER: u8 := 0x2F
  const TAG_DIRECT_CALL_BATCH: u8 := 0x32
  const TAG_INDIRECT_CALL_BATCH: u8 := 0x33
  const TAG_TB_RESOURCE: u8 := 0x40
  const TAG_DEVICE_ACCESS: u8 := 0x41
  const TAG_DISCONTINUITY: u8 := 0x42
  const TAG_FOOTER: u8 := 0xFF

  /** The largest payload a 24-bit length can announce. */
  const MAX_TLV_PAYLOAD := TWO_24 - 1
  const MAX_TB_EXEC_PER_RECORD := (TWO_24 - 1 - 4) / 40
  const MAX_EDGES_PER_RECORD := (TWO_24 - 1 - 4) / 24

  datatype FileHeader = FileHeader(
    formatVersion: u16, tier: u8, pointerSize: u8, flags: u32,
    loadAddr: u64, textStart: u64, textEnd: u64, entryAddr: u64, buildId: bytes)

  datatype TbExec = TbExec(start: u64, end: u64, nInsns: u16, execCount: u64, firstSeen: u64)

  datatype SymbolRecord = SymbolRecord(symId: u16, addr: u64, name: bytes)
  datatype TbResource = TbResource(tbAddr: u64, coprocFlags: u32, vcpuMask: u64)
  datatype Discontinuity = Discontinuity(kind: u32, fromPc: u64, toPc: u64, count: u64)
  datatype Footer = Footer(totalTbs: u64, totalEdges: u64, totalExecs: u64, wallTime: u64, cleanExit: bool)

  /** A call record has the shape of an edge record: callsite, target, count. */
  type CallRecord = EdgeRecord

  predicate Fits(r: EdgeRecord) {
    r.count < TWO_64
  }

  predicate AllFit(rs: seq<EdgeRecord>) {
    forall i | 0 <= i < |rs| :: Fits(rs[i])
  }

  /** One tagged record. */
  datatype Frame = Frame(tag: u8, payload: bytes)

  predicate ValidFrame(f: Frame) {
    |f.payload| <= MAX_TLV_PAYLOAD
  }

  function EncodeFrame(f: Frame): bytes {
    [f.tag] + LE(|f.payload|, 3) + f.payload
  }

  function EncodeFrames(fs: seq<Frame>): bytes {
    if fs == [] then [] else EncodeFrame(fs[0]) + EncodeFrames(fs[1..])
  }

  function EncodeHeader(h: FileHeader): bytes {
    LE(FILE_MAGIC, 8) + LE(h.formatVersion, 2) + [h.tier] + [h.pointerSize] + LE(h.flags, 4)
    + LE(h.loadAddr, 8) + LE(h.textStart, 8) + LE(h.textEnd, 8) + LE(h.entryAddr, 8) + h.buildId
  }

  // ---- Writer calls and the records they become ----

  datatype Call =
    | StringMeta(key: bytes, value: bytes)
    | SymbolEntry(symId: u16, addr: u64, name: bytes)
    | TbExecBatch(tbs: seq<TbExec>)
    | BranchBatch(edges: seq<EdgeRecord>)
    | FallThroughBatch(edges: seq<EdgeRecord>)
    | FlushMarker(elapsed: u64, vcpu: u32, numEdges: u32)
    | DirectCallBatch(calls: seq<CallRecord>)
    | IndirectCallBatch(calls: seq<CallRecord>)
    | Resource(tbAddr: u64, coprocFlags: u32, vcpuMask: u64)
    | DeviceAccess(addr: u64, device: bytes)
    | Discon(kind: u32, fromPc: u64, toPc: u64, count: u64)
    | WriteFooter(totalTbs: u64, totalEdges: u64, totalExecs: u64, wallTime: u64)

  /** What the types of the source guarantee of a call's arguments. */
  predicate ValidCall(call: Call) {
    match call
    case BranchBatch(es) => AllFit(es)
    case FallThroughBatch(es) => AllFit(es)
    case DirectCallBatch(es) => AllFit(es)
    case IndirectCallBatch(es) => AllFit(es)
    case _ => true
  }

  function Clip(s: bytes, cap: nat): bytes {
    s[..Min(|s|, cap)]
  }

  /** `slice::chunks`: full chunks of `n`, then the remainder. */
  function Chunks<T>(xs: seq<T>, n: nat): seq<seq<T>>
    requires n > 0
    decreases |xs|
  {
    if xs == [] then []
    else if |xs| <= n then [xs]
    else [xs[..n]] + Chunks(xs[n..], n)
  }

  function EncodeEdge(r: EdgeRecord): bytes {
    LE(r.from, 8) + LE(r.to, 8) + LE(r.count, 8)
  }

  function EncodeEdges(rs: seq<EdgeRecord>): (b: bytes)
    ensures |b| == 24 * |rs|
  {
    if rs == [] then [] else EncodeEdge(rs[0]) + EncodeEdges(rs[1..])
  }

  function EncodeTb(tb: TbExec): bytes {
    LE(tb.start, 8) + LE(tb.end, 8) + LE(tb.nInsns, 2) + [0, 0, 0, 0, 0, 0] + LE(tb.execCount, 8) + LE(tb.firstSeen, 8)
  }

  function EncodeTbs(tbs: seq<TbExec>): (b: bytes)
    ensures |b| == 40 * |tbs|
  {
    if tbs == [] then [] else EncodeTb(tbs[0]) + EncodeTbs(tbs[1..])
  }

  function EdgeFrame(tag: u8, chunk: seq<EdgeRecord>): Frame {
    Frame(tag, LE(|chunk|, 4) + EncodeEdges(chunk))
  }

  function EdgeFrames(tag: u8, chunks: seq<seq<EdgeRecord>>): seq<Frame> {
    if chunks == [] then [] else [EdgeFrame(tag, chunks[0])] + EdgeFrames(tag, chunks[1..])
  }

  function TbFrame(chunk: seq<TbExec>): Frame {
    Frame(TAG_TB_EXEC_BATCH, LE(|chunk|, 4) + EncodeTbs(chunk))
  }

  function TbFrames(chunks: seq<seq<TbExec>>): seq<Frame> {
    if chunks == [] then [] else [TbFrame(chunks[0])] + TbFrames(chunks[1..])
  }

  function StringMetaFrame(key: bytes, value: bytes): (f: Frame)
    ensures |f.payload| == 3 + |key| + |value|
  {
    Frame(TAG_STRING_META, LE(|key|, 1) + key + LE(|value|, 2) + value)
  }

  function SymbolFrame(symId: u16, addr: u64, name: bytes): (f: Frame)
    ensures |f.payload| == 12 + |name|
  {
    Frame(TAG_SYMBOL_ENTRY, LE(symId, 2) + LE(addr, 8) + LE(|name|, 2) + name)
  }

  function FlushMarkerFrame(elapsed: u64, vcpu: u32, numEdges: u32): (f: Frame)
    ensures |f.payload| == 16
  {
    Frame(TAG_FLUSH_MARKER, LE(elapsed, 8) + LE(vcpu, 4) + LE(numEdges, 4))
  }

  function ResourceFrame(addr: u64, flags: u32, mask: u64): (f: Frame)
    ensures |f.payload| == 20
  {
    Frame(TAG_TB_RESOURCE, LE(addr, 8) + LE(flags, 4) + LE(mask, 8))
  }

  function DeviceFrame(addr: u64, name: bytes): (f: Frame)
    ensures |f.payload| == 9 + |name|
  {
    Frame(TAG_DEVICE_ACCESS, LE(addr, 8) + LE(|name|, 1) + name)
  }

  function DisconFrame(kind: u32, fromPc: u64, toPc: u64, count: u64): (f: Frame)
    ensures |f.payload| == 28
  {
    Frame(TAG_DISCONTINUITY, LE(kind, 4) + LE(fromPc, 8) + LE(toPc, 8) + LE(count, 8))
  }

  function FooterFrame(tbs: u64, edges: u64, execs: u64, wallTime: u64): (f: Frame)
    ensures |f.payload| == 40
  {
    Frame(TAG_FOOTER, LE(tbs, 8) + LE(edges, 8) + LE(execs, 8) + LE(wallTime, 8) + LE(1, 4) + [0, 0, 0, 0])
  }

  /** The records one writer call produces. */
  function Frames(call: Call): seq<Frame> {
    match call
    case StringMeta(key, value) => [StringMetaFrame(Clip(key, 255), Clip(value, 65535))]
    case SymbolEntry(id, addr, name) => [SymbolFrame(id, addr, Clip(name, 65535))]
    case TbExecBatch(tbs) => TbFrames(Chunks(tbs, MAX_TB_EXEC_PER_RECORD))
    case BranchBatch(es) => EdgeFrames(TAG_BRANCH_EDGE_BATCH, Chunks(es, MAX_EDGES_PER_RECORD))
    case FallThroughBatch(es) => EdgeFrames(TAG_FALL_THROUGH_BATCH, Chunks(es, MAX_EDGES_PER_RECORD))
    case FlushMarker(elapsed, v, n) => [FlushMarkerFrame(elapsed, v, n)]
    case DirectCallBatch(cs) => EdgeFrames(TAG_DIRECT_CALL_BATCH, Chunks(cs, MAX_EDGES_PER_RECORD))
    case IndirectCallBatch(cs) => EdgeFrames(TAG_INDIRECT_CALL_BATCH, Chunks(cs, MAX_EDGES_PER_RECORD))
    case Resource(a, flags, mask) => [ResourceFrame(a, flags, mask)]
    case DeviceAccess(a, name) => [DeviceFrame(a, Clip(name, 255))]
    case Discon(kind, f, t, n) => [DisconFrame(kind, f, t, n)]
    case WriteFooter(tbs, es, execs, wall) => [FooterFrame(tbs, es, execs, wall)]
  }

  function AllFrames(calls: seq<Call>): seq<Frame> {
    if calls == [] then [] else AllFrames(calls[..|calls| - 1]) + Frames(calls[|calls| - 1])
  }

  /** The file a sequence of writer calls leaves behind. */
  function Log(h: FileHeader, calls: seq<Call>): bytes {
    EncodeHeader(h) + EncodeFrames(AllFrames(calls))
  }

  lemma {:induction false} EncodeFramesAppend(a: seq<Frame>, b: seq<Frame>)
    ensures EncodeFrames(a + b) == EncodeFrames(a) + EncodeFrames(b)
  {
    if a == [] {
      assert a + b == b;
    } else {
      assert (a + b)[1..] == a[1..] + b;
      EncodeFramesAppend(a[1..], b);
    }
  }

  lemma LogAppend(h: FileHeader, calls: seq<Call>, call: Call)
    ensures Log(h, calls + [call]) == Log(h, calls) + EncodeFrames(Frames(call))
  {
    assert (calls + [call])[..|calls|] == calls;
    EncodeFramesAppend(AllFrames(calls), Frames(call));
  }

  /** No record of any call outgrows the 24-bit length field. */
  lemma {:induction false} FramesFit(calls: seq<Call>)
    ensures AllFramesFit(AllFrames(calls))
  {
    if calls != [] {
      FramesFit(calls[..|calls| - 1]);
      CallFramesFit(calls[|calls| - 1]);
    }
  }

  lemma CallFramesFit(call: Call)
    ensures AllFramesFit(Frames(call))
  {
    if call.BranchBatch? || call.FallThroughBatch? {
      EdgeBatchFits(call);
    } else if call.DirectCallBatch? || call.IndirectCallBatch? {
      CallBatchFits(call);
    } else if call.TbExecBatch? {
      TbFramesFit(call.tbs);
    }
  }

  predicate AllFramesFit(fs: seq<Frame>) {
    forall i | 0 <= i < |fs| :: ValidFrame(fs[i])
  }

  lemma EdgeBatchFits(call: Call)
    requires call.BranchBatch? || call.FallThroughBatch?
    ensures AllFramesFit(Frames(call))
  {
    EdgeFramesFit(if call.BranchBatch? then TAG_BRANCH_EDGE_BATCH else TAG_FALL_THROUGH_BATCH, call.edges);
  }

  lemma CallBatchFits(call: Call)
    requires call.DirectCallBatch? || call.IndirectCallBatch?
    ensures AllFramesFit(Frames(call))
  {
    EdgeFramesFit(if call.DirectCallBatch? then TAG_DIRECT_CALL_BATCH else TAG_INDIRECT_CALL_BATCH, call.calls);
  }

  lemma {:induction false} TbFramesFit(tbs: seq<TbExec>)
    ensures AllFramesFit(TbFrames(Chunks(tbs, MAX_TB_EXEC_PER_RECORD)))
    decreases |tbs|
  {
    var n := MAX_TB_EXEC_PER_RECORD;
    if |tbs| > n {
      TbFramesFit(tbs[n..]);
      assert Chunks(tbs, n)[1..] == Chunks(tbs[n..], n);
    }
  }

  lemma {:induction false} EdgeFramesFit(tag: u8, es: seq<EdgeRecord>)
    ensures AllFramesFit(EdgeFrames(tag, Chunks(es, MAX_EDGES_PER_RECORD)))
    decreases |es|
  {
    var n := MAX_EDGES_PER_RECORD;
    if |es| > n {
      EdgeFramesFit(tag, es[n..]);
      assert Chunks(es, n)[1..] == Chunks(es[n..], n);
    }
  }

  // ---- The running totals ----

  datatype Totals = Totals(tbs: u64, edges: u64, execs: u64)

  function SumExecs(tbs: seq<TbExec>): nat {
    if tbs == [] then 0 else tbs[0].execCount + SumExecs(tbs[1..])
  }

  function CallTotals(t: Totals, call: Call): Totals {
    match call
    case TbExecBatch(tbs) => t.(tbs := Wrap64(t.tbs + |tbs|), execs := Wrap64(t.execs + SumExecs(tbs)))
    case BranchBatch(es) => t.(edges := Wrap64(t.edges + |es|))
    case FallThroughBatch(es) => t.(edges := Wrap64(t.edges + |es|))
    case _ => t
  }

  function TotalsOf(calls: seq<Call>): Totals {
    if calls == [] then Totals(0, 0, 0) else CallTotals(TotalsOf(calls[..|calls| - 1]), calls[|calls| - 1])
  }
}
