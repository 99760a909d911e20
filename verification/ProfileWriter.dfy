/** The append-only log writer. */
module ProfileWriter {
  import opened Words
  import opened Bytes
  import opened EdgeStorage
  import opened LogFormat

  function ZeroBuildId(): bytes {
    [0, 0, 0, 0, 0, 0, 0, 0, 0, 0, 0, 0, 0, 0, 0, 0]
  }

  /** The header of a new log: format version 1, 8-byte pointers, no build id. */
  function NewHeader(tier: u8, sysemu: bool, streaming: bool, loadAddr: u64, textStart: u64, textEnd: u64,
      entryAddr: u64): FileHeader {
    FileHeader(FORMAT_VERSION, tier, 8,
               (if sysemu then FLAG_SYSEMU else 0) + (if streaming then FLAG_STREAMING else 0),
               loadAddr, textStart, textEnd, entryAddr, ZeroBuildId())
  }

  class Writer {
    var out: bytes
    var totalTbs: u64
    var totalEdges: u64
    var totalExecs: u64

    /** What the call adds to the file and to the running totals, and nothing else. */
    twostate predicate Wrote(call: Call)
      reads this
    {
      && out == old(out) + EncodeFrames(Frames(call))
      && RunningTotals() == CallTotals(old(RunningTotals()), call)
    }

    ghost function RunningTotals(): Totals
      reads this
    {
      Totals(totalTbs, totalEdges, totalExecs)
    }

    constructor (tier: u8, sysemu: bool, streaming: bool, loadAddr: u64, textStart: u64, textEnd: u64, entryAddr: u64)
      ensures out == EncodeHeader(NewHeader(tier, sysemu, streaming, loadAddr, textStart, textEnd, entryAddr))
      ensures RunningTotals() == Totals(0, 0, 0)
    {
      var flags: u32 := 0;
      if sysemu {
        flags := flags + FLAG_SYSEMU;
      }
      if streaming {
        flags := flags + FLAG_STREAMING;
      }
      var h := FileHeader(FORMAT_VERSION, tier, 8, flags, loadAddr, textStart, textEnd, entryAddr, ZeroBuildId());
      out := EncodeHeader(h);
      totalTbs, totalEdges, totalExecs := 0, 0, 0;
    }

    /** Writes `[tag][24-bit length]`, or nothing when the payload is too long. */
    method WriteTlvHeader(tag: u8, payloadLen: nat) returns (ok: bool)
      modifies this`out
      ensures ok <==> payloadLen <= MAX_TLV_PAYLOAD
      ensures out == if ok then old(out) + [tag] + LE(payloadLen, 3) else old(out)
    {
      if payloadLen > MAX_TLV_PAYLOAD {
        return false;
      }
      out := out + [tag] + LE(payloadLen, 3);
      return true;
    }

    method WriteStringMeta(key: bytes, value: bytes) returns (ok: bool)
      modifies this
      ensures ok && Wrote(StringMeta(key, value))
    {
      var keyLen, valLen := Min(|key|, 255), Min(|value|, 65535);
      ok := WriteTlvHeader(TAG_STRING_META, 1 + keyLen + 2 + valLen);
      if !ok {
        return;
      }
      out := out + LE(keyLen, 1);
      out := out + key[..keyLen];
      out := out + LE(valLen, 2);
      out := out + value[..valLen];
      OneFrame(old(out), StringMetaFrame(Clip(key, 255), Clip(value, 65535)), out);
    }

    method WriteSymbolEntry(symId: u16, addr: u64, name: bytes) returns (ok: bool)
      modifies this
      ensures ok && Wrote(SymbolEntry(symId, addr, name))
    {
      var nameLen := Min(|name|, 65535);
      ok := WriteTlvHeader(TAG_SYMBOL_ENTRY, 2 + 8 + 2 + nameLen);
      if !ok {
        return;
      }
      out := out + LE(symId, 2);
      out := out + LE(addr, 8);
      out := out + LE(nameLen, 2);
      out := out + name[..nameLen];
      OneFrame(old(out), SymbolFrame(symId, addr, Clip(name, 65535)), out);
    }

    method WriteTbExecBatch(entries: seq<TbExec>) returns (ok: bool)
      modifies this
      ensures ok && Wrote(TbExecBatch(entries))
    {
      ok := WriteTbRecords(entries);
      TbCallMeans(old(RunningTotals()), entries);
    }

    /** Splits a batch of executions into records. */
    method WriteTbRecords(entries: seq<TbExec>) returns (ok: bool)
      modifies this`out, this`totalTbs, this`totalExecs
      ensures ok && out == old(out) + EncodeFrames(TbFrames(Chunks(entries, MAX_TB_EXEC_PER_RECORD)))
      ensures totalTbs == Plus(old(totalTbs), |entries|)
      ensures totalExecs == Plus(old(totalExecs), SumExecs(entries))
    {
      var rest := entries;
      while rest != []
        invariant out + TbBytes(rest) == old(out) + TbBytes(entries)
        invariant Plus(totalTbs, |rest|) == Plus(old(totalTbs), |entries|)
        invariant Plus(totalExecs, SumExecs(rest)) == Plus(old(totalExecs), SumExecs(entries))
        decreases |rest|
      {
        rest := WriteNextTbChunk(rest);
      }
      TbBytesAreFrames(entries);
      ok := true;
    }

    method WriteNextTbChunk(entries: seq<TbExec>) returns (rest: seq<TbExec>)
      requires entries != []
      modifies this`out, this`totalTbs, this`totalExecs
      ensures |rest| < |entries|
      ensures out + TbBytes(rest) == old(out) + TbBytes(entries)
      ensures Plus(totalTbs, |rest|) == Plus(old(totalTbs), |entries|)
      ensures Plus(totalExecs, SumExecs(rest)) == Plus(old(totalExecs), SumExecs(entries))
    {
      var n := Min(|entries|, MAX_TB_EXEC_PER_RECORD);
      var chunk := entries[..n];
      rest := entries[n..];
      ghost var before, tbs, execs := out, totalTbs, totalExecs;
      var ok := WriteTbChunk(chunk);
      TbBytesSplit(before, entries);
      TbTotalsSplit(tbs, execs, entries, n);
    }

    /** One record of a batch of executions. */
    method WriteTbChunk(chunk: seq<TbExec>) returns (ok: bool)
      requires |chunk| <= MAX_TB_EXEC_PER_RECORD
      modifies this`out, this`totalTbs, this`totalExecs
      ensures ok && out == old(out) + EncodeFrame(TbFrame(chunk))
      ensures totalTbs == Plus(old(totalTbs), |chunk|)
      ensures totalExecs == Plus(old(totalExecs), SumExecs(chunk))
    {
      ok := WriteTlvHeader(TAG_TB_EXEC_BATCH, 4 + |chunk| * 40);
      if !ok {
        return;
      }
      out := out + LE(|chunk|, 4);
      WriteTbEntries(chunk);
      totalTbs := AddWrapping(totalTbs, |chunk|);
      BatchFrame(old(out), TAG_TB_EXEC_BATCH, |chunk|, EncodeTbs(chunk), out);
    }

    method WriteTbEntries(chunk: seq<TbExec>)
      modifies this`out, this`totalExecs
      ensures out == old(out) + EncodeTbs(chunk)
      ensures totalExecs == Plus(old(totalExecs), SumExecs(chunk))
    {
      assert chunk[0..] == chunk;
      for i := 0 to |chunk|
        invariant out + EncodeTbs(chunk[i..]) == old(out) + EncodeTbs(chunk)
        invariant Plus(totalExecs, SumExecs(chunk[i..])) == Plus(old(totalExecs), SumExecs(chunk))
      {
        assert chunk[i..][0] == chunk[i] && chunk[i..][1..] == chunk[i + 1..];
        PlusPlus(totalExecs, chunk[i].execCount, SumExecs(chunk[i + 1..]));
        Regrouped(out, EncodeTb(chunk[i]), EncodeTbs(chunk[i + 1..]));
        WriteTbEntry(chunk[i]);
      }
      assert chunk[|chunk|..] == [];
    }

    method WriteTbEntry(tb: TbExec)
      modifies this`out, this`totalExecs
      ensures out == old(out) + EncodeTb(tb)
      ensures totalExecs == Plus(old(totalExecs), tb.execCount)
    {
      out := out + LE(tb.start, 8);
      out := out + LE(tb.end, 8);
      out := out + LE(tb.nInsns, 2);
      out := out + [0, 0, 0, 0, 0, 0];
      out := out + LE(tb.execCount, 8);
      out := out + LE(tb.firstSeen, 8);
      totalExecs := AddWrapping(totalExecs, tb.execCount);
    }

    /** One record of a batch of edges or calls; the four edge-shaped batches share this loop body. */
    method WriteEdgeChunk(tag: u8, chunk: seq<EdgeRecord>) returns (ok: bool)
      requires |chunk| <= MAX_EDGES_PER_RECORD && AllFit(chunk)
      modifies this`out
      ensures ok && out == old(out) + EncodeFrame(EdgeFrame(tag, chunk))
    {
      ok := WriteTlvHeader(tag, 4 + |chunk| * 24);
      if !ok {
        return;
      }
      out := out + LE(|chunk|, 4);
      WriteEdgeEntries(chunk);
      BatchFrame(old(out), tag, |chunk|, EncodeEdges(chunk), out);
    }

    method WriteEdgeEntries(chunk: seq<EdgeRecord>)
      modifies this`out
      ensures out == old(out) + EncodeEdges(chunk)
    {
      assert chunk[0..] == chunk;
      for i := 0 to |chunk|
        invariant out + EncodeEdges(chunk[i..]) == old(out) + EncodeEdges(chunk)
      {
        ghost var before := out;
        out := out + LE(chunk[i].from, 8);
        out := out + LE(chunk[i].to, 8);
        out := out + LE(chunk[i].count, 8);
        assert out == before + EncodeEdge(chunk[i]);
        assert chunk[i..][1..] == chunk[i + 1..];
      }
      assert chunk[|chunk|..] == [];
    }

    /** Splits a batch into records; `counted` says whether it adds to the edge total. */
    method WriteEdgeRecords(tag: u8, edges: seq<EdgeRecord>, counted: bool) returns (ok: bool)
      requires AllFit(edges)
      modifies this`out, this`totalEdges
      ensures ok && out == old(out) + EncodeFrames(EdgeFrames(tag, Chunks(edges, MAX_EDGES_PER_RECORD)))
      ensures totalEdges == EdgesToCome(counted, |edges|, old(totalEdges))
    {
      var rest := edges;
      while rest != []
        invariant AllFit(rest)
        invariant out + EdgeBytes(tag, rest) == old(out) + EdgeBytes(tag, edges)
        invariant EdgesToCome(counted, |rest|, totalEdges) == EdgesToCome(counted, |edges|, old(totalEdges))
        decreases |rest|
      {
        rest := WriteNextEdgeChunk(tag, rest, counted);
      }
      EdgeBytesAreFrames(tag, edges);
      ok := true;
    }

    method WriteNextEdgeChunk(tag: u8, edges: seq<EdgeRecord>, counted: bool) returns (rest: seq<EdgeRecord>)
      requires AllFit(edges) && edges != []
      modifies this`out, this`totalEdges
      ensures AllFit(rest) && |rest| < |edges|
      ensures out + EdgeBytes(tag, rest) == old(out) + EdgeBytes(tag, edges)
      ensures EdgesToCome(counted, |rest|, totalEdges) == EdgesToCome(counted, |edges|, old(totalEdges))
    {
      rest := WriteFirstChunk(tag, edges);
      CountEdges(counted, |edges| - |rest|, |rest|);
    }

    method CountEdges(counted: bool, n: nat, ghost more: nat)
      modifies this`totalEdges
      ensures EdgesToCome(counted, more, totalEdges) == EdgesToCome(counted, n + more, old(totalEdges))
    {
      EdgesStillToCome(counted, totalEdges, n, more);
      if counted {
        totalEdges := AddWrapping(totalEdges, n);
      }
    }

    method WriteFirstChunk(tag: u8, edges: seq<EdgeRecord>) returns (rest: seq<EdgeRecord>)
      requires AllFit(edges) && edges != []
      modifies this`out
      ensures AllFit(rest) && |rest| < |edges|
      ensures out + EdgeBytes(tag, rest) == old(out) + EdgeBytes(tag, edges)
    {
      var n := Min(|edges|, MAX_EDGES_PER_RECORD);
      var chunk := edges[..n];
      rest := edges[n..];
      ghost var before := out;
      var ok := WriteEdgeChunk(tag, chunk);
      EdgeBytesSplit(before, tag, edges);
    }

    method WriteBranchEdgeBatch(edges: seq<EdgeRecord>) returns (ok: bool)
      requires AllFit(edges)
      modifies this
      ensures ok && Wrote(BranchBatch(edges))
    {
      ok := WriteEdgeRecords(TAG_BRANCH_EDGE_BATCH, edges, true);
      EdgeCallMeans(old(RunningTotals()), edges);
    }

    method WriteFallThroughBatch(edges: seq<EdgeRecord>) returns (ok: bool)
      requires AllFit(edges)
      modifies this
      ensures ok && Wrote(FallThroughBatch(edges))
    {
      ok := WriteEdgeRecords(TAG_FALL_THROUGH_BATCH, edges, true);
      EdgeCallMeans(old(RunningTotals()), edges);
    }

    method WriteDirectCallBatch(directs: seq<CallRecord>) returns (ok: bool)
      requires AllFit(directs)
      modifies this
      ensures ok && Wrote(DirectCallBatch(directs))
    {
      ok := WriteEdgeRecords(TAG_DIRECT_CALL_BATCH, directs, false);
    }

    method WriteIndirectCallBatch(indirects: seq<CallRecord>) returns (ok: bool)
      requires AllFit(indirects)
      modifies this
      ensures ok && Wrote(IndirectCallBatch(indirects))
    {
      ok := WriteEdgeRecords(TAG_INDIRECT_CALL_BATCH, indirects, false);
    }

    /** The elapsed time is an input. */
    method WriteFlushMarker(elapsed: u64, vcpu: u32, numEdges: u32) returns (ok: bool)
      modifies this
      ensures ok && Wrote(FlushMarker(elapsed, vcpu, numEdges))
    {
      ok := WriteTlvHeader(TAG_FLUSH_MARKER, 8 + 4 + 4);
      if !ok {
        return;
      }
      out := out + LE(elapsed, 8);
      out := out + LE(vcpu, 4);
      out := out + LE(numEdges, 4);
      OneFrame(old(out), FlushMarkerFrame(elapsed, vcpu, numEdges), out);
    }

    method WriteTbResource(tbAddr: u64, coprocFlags: u32, vcpuMask: u64) returns (ok: bool)
      modifies this
      ensures ok && Wrote(Resource(tbAddr, coprocFlags, vcpuMask))
    {
      ok := WriteTlvHeader(TAG_TB_RESOURCE, 20);
      if !ok {
        return;
      }
      out := out + LE(tbAddr, 8);
      out := out + LE(coprocFlags, 4);
      out := out + LE(vcpuMask, 8);
      OneFrame(old(out), ResourceFrame(tbAddr, coprocFlags, vcpuMask), out);
    }

    method WriteDeviceAccess(tbAddr: u64, device: bytes) returns (ok: bool)
      modifies this
      ensures ok && Wrote(DeviceAccess(tbAddr, device))
    {
      var nameLen := Min(|device|, 255);
      ok := WriteTlvHeader(TAG_DEVICE_ACCESS, 8 + 1 + nameLen);
      if !ok {
        return;
      }
      out := out + LE(tbAddr, 8);
      out := out + LE(nameLen, 1);
      out := out + device[..nameLen];
      OneFrame(old(out), DeviceFrame(tbAddr, Clip(device, 255)), out);
    }

    method WriteDiscontinuity(kind: u32, fromPc: u64, toPc: u64, count: u64) returns (ok: bool)
      modifies this
      ensures ok && Wrote(Discon(kind, fromPc, toPc, count))
    {
      ok := WriteTlvHeader(TAG_DISCONTINUITY, 28);
      if !ok {
        return;
      }
      out := out + LE(kind, 4);
      out := out + LE(fromPc, 8);
      out := out + LE(toPc, 8);
      out := out + LE(count, 8);
      OneFrame(old(out), DisconFrame(kind, fromPc, toPc, count), out);
    }

    method WriteFooterPayload(wallTime: u64)
      modifies this`out
      ensures out == old(out) + FooterFrame(totalTbs, totalEdges, totalExecs, wallTime).payload
    {
      out := out + LE(totalTbs, 8);
      out := out + LE(totalEdges, 8);
      out := out + LE(totalExecs, 8);
      out := out + LE(wallTime, 8);
      out := out + LE(1, 4);
      out := out + [0, 0, 0, 0];
    }

    /** Writes the totals of everything written so far; the wall time is an input. */
    method WriteTheFooter(wallTime: u64) returns (ok: bool)
      modifies this
      ensures ok && Wrote(WriteFooter(totalTbs, totalEdges, totalExecs, wallTime))
    {
      ok := WriteTlvHeader(TAG_FOOTER, 40);
      if !ok {
        return;
      }
      WriteFooterPayload(wallTime);
      OneFrame(old(out), FooterFrame(totalTbs, totalEdges, totalExecs, wallTime), out);
    }
  }

  lemma OneFrame(before: bytes, f: Frame, after: bytes)
    requires after == before + [f.tag] + LE(|f.payload|, 3) + f.payload
    ensures after == before + EncodeFrames([f])
  {
    assert EncodeFrames([f]) == EncodeFrame(f);
  }

  lemma BatchFrame(before: bytes, tag: u8, n: nat, entries: bytes, after: bytes)
    requires after == before + [tag] + LE(4 + |entries|, 3) + LE(n, 4) + entries
    ensures after == before + EncodeFrame(Frame(tag, LE(n, 4) + entries))
  {
  }

  /** What the two counted edge batches write, and what they add to the totals. */
  lemma EdgeCallMeans(t: Totals, edges: seq<EdgeRecord>)
    ensures CallTotals(t, BranchBatch(edges)) == t.(edges := Plus(t.edges, |edges|))
    ensures CallTotals(t, FallThroughBatch(edges)) == t.(edges := Plus(t.edges, |edges|))
    ensures Frames(BranchBatch(edges)) == EdgeFrames(TAG_BRANCH_EDGE_BATCH, Chunks(edges, MAX_EDGES_PER_RECORD))
    ensures Frames(FallThroughBatch(edges)) == EdgeFrames(TAG_FALL_THROUGH_BATCH, Chunks(edges, MAX_EDGES_PER_RECORD))
  {
    PlusWraps(t.edges, |edges|);
  }

  lemma TbCallMeans(t: Totals, entries: seq<TbExec>)
    ensures CallTotals(t, TbExecBatch(entries)) ==
            t.(tbs := Plus(t.tbs, |entries|), execs := Plus(t.execs, SumExecs(entries)))
  {
    PlusWraps(t.tbs, |entries|);
    PlusWraps(t.execs, SumExecs(entries));
  }

  lemma EdgesStillToCome(counted: bool, total: u64, m: nat, n: nat)
    ensures EdgesToCome(counted, n, EdgesToCome(counted, m, total)) == EdgesToCome(counted, m + n, total)
  {
    PlusPlus(total, m, n);
  }

  /** Adds to a running total, as a release build does. */
  method AddWrapping(total: u64, n: nat) returns (sum: u64)
    ensures sum == Plus(total, n)
  {
    PlusWraps(total, n);
    sum := Wrap64(total + n);
  }

  /** `a` plus `n` in 64-bit arithmetic, one step at a time. */
  ghost function Plus(a: u64, n: nat): u64 {
    if n == 0 then a else Wrap64(Plus(a, n - 1) + 1)
  }

  ghost function EdgesToCome(counted: bool, n: nat, total: u64): u64 {
    if counted then Plus(total, n) else total
  }

  lemma {:induction false} PlusWraps(a: u64, n: nat)
    ensures Plus(a, n) == Wrap64(a + n)
  {
    if n > 0 {
      PlusWraps(a, n - 1);
      WrapOneMore(a + n - 1);
    }
  }

  lemma WrapOneMore(x: nat)
    ensures Wrap64(Wrap64(x) + 1) == Wrap64(x + 1)
  {
  }

  lemma {:induction false} PlusPlus(a: u64, m: nat, n: nat)
    ensures Plus(Plus(a, m), n) == Plus(a, m + n)
  {
    if n > 0 {
      PlusPlus(a, m, n - 1);
    }
  }

  lemma TbTotalsSplit(tbs: u64, execs: u64, entries: seq<TbExec>, n: nat)
    requires n <= |entries|
    ensures Plus(Plus(tbs, |entries[..n]|), |entries[n..]|) == Plus(tbs, |entries|)
    ensures Plus(Plus(execs, SumExecs(entries[..n])), SumExecs(entries[n..])) == Plus(execs, SumExecs(entries))
  {
    SplitTbs(entries, n);
    PlusPlus(tbs, |entries[..n]|, |entries[n..]|);
    PlusPlus(execs, SumExecs(entries[..n]), SumExecs(entries[n..]));
  }

  lemma {:induction false} SplitTbs(tbs: seq<TbExec>, n: nat)
    requires n <= |tbs|
    ensures SumExecs(tbs) == SumExecs(tbs[..n]) + SumExecs(tbs[n..])
  {
    if n > 0 {
      SplitTbs(tbs[1..], n - 1);
      assert tbs[1..][..n - 1] == tbs[..n][1..] && tbs[1..][n - 1..] == tbs[n..];
    }
  }

  /** The bytes of a batch, chunk by chunk. */
  ghost function TbBytes(tbs: seq<TbExec>): bytes
    decreases |tbs|
  {
    if tbs == [] then []
    else
      var n := Min(|tbs|, MAX_TB_EXEC_PER_RECORD);
      EncodeFrame(TbFrame(tbs[..n])) + TbBytes(tbs[n..])
  }

  lemma {:induction false} TbBytesAreFrames(tbs: seq<TbExec>)
    ensures TbBytes(tbs) == EncodeFrames(TbFrames(Chunks(tbs, MAX_TB_EXEC_PER_RECORD)))
    decreases |tbs|
  {
    var n := MAX_TB_EXEC_PER_RECORD;
    if 0 < |tbs| <= n {
      assert tbs[..|tbs|] == tbs && tbs[|tbs|..] == [];
    } else if tbs != [] {
      TbBytesAreFrames(tbs[n..]);
      assert Chunks(tbs, n)[1..] == Chunks(tbs[n..], n);
    }
  }

  lemma TbBytesSplit(front: bytes, tbs: seq<TbExec>)
    requires tbs != []
    ensures var n := Min(|tbs|, MAX_TB_EXEC_PER_RECORD);
            front + TbBytes(tbs) == front + EncodeFrame(TbFrame(tbs[..n])) + TbBytes(tbs[n..])
  {
    var n := Min(|tbs|, MAX_TB_EXEC_PER_RECORD);
    Regrouped(front, EncodeFrame(TbFrame(tbs[..n])), TbBytes(tbs[n..]));
  }

  lemma EdgeBytesSplit(front: bytes, tag: u8, es: seq<EdgeRecord>)
    requires es != []
    ensures var n := Min(|es|, MAX_EDGES_PER_RECORD);
            front + EdgeBytes(tag, es) == front + EncodeFrame(EdgeFrame(tag, es[..n])) + EdgeBytes(tag, es[n..])
  {
    var n := Min(|es|, MAX_EDGES_PER_RECORD);
    Regrouped(front, EncodeFrame(EdgeFrame(tag, es[..n])), EdgeBytes(tag, es[n..]));
  }

  ghost function EdgeBytes(tag: u8, es: seq<EdgeRecord>): bytes
    decreases |es|
  {
    if es == [] then []
    else
      var n := Min(|es|, MAX_EDGES_PER_RECORD);
      EncodeFrame(EdgeFrame(tag, es[..n])) + EdgeBytes(tag, es[n..])
  }

  lemma {:induction false} EdgeBytesAreFrames(tag: u8, es: seq<EdgeRecord>)
    ensures EdgeBytes(tag, es) == EncodeFrames(EdgeFrames(tag, Chunks(es, MAX_EDGES_PER_RECORD)))
    decreases |es|
  {
    var n := MAX_EDGES_PER_RECORD;
    if 0 < |es| <= n {
      assert es[..|es|] == es && es[|es|..] == [];
    } else if es != [] {
      EdgeBytesAreFrames(tag, es[n..]);
      assert Chunks(es, n)[1..] == Chunks(es[n..], n);
    }
  }
}
