/** Writer and parser undo each other: what is written call by call is what parsing reads back. */
module LogRoundTrip {
  import opened Words
  import opened Bytes
  import opened EdgeStorage
  import opened LogFormat
  import opened NativeParser
  import opened Utf8

  // ---- What the calls mean, without bytes or records ----

  function WithCall(p: ProfileData, call: Call): ProfileData {
    match call
    case StringMeta(key, value) =>
      p.(metadata := p.metadata[FromUtf8Lossy(Clip(key, 255)) := FromUtf8Lossy(Clip(value, 65535))])
    case SymbolEntry(id, addr, name) =>
      p.(symbols := p.symbols + [SymbolRecord(id, addr, FromUtf8Lossy(Clip(name, 65535)))])
    case TbExecBatch(tbs) => p.(tbExecs := p.tbExecs + tbs)
    case BranchBatch(es) => p.(branchEdges := p.branchEdges + es)
    case FallThroughBatch(es) => p.(fallThroughs := p.fallThroughs + es)
    case FlushMarker(_, _, _) => p
    case DirectCallBatch(cs) => p.(directCalls := p.directCalls + cs)
    case IndirectCallBatch(cs) => p.(indirectCalls := p.indirectCalls + cs)
    case Resource(a, flags, mask) => p.(resources := p.resources + [TbResource(a, flags, mask)])
    case DeviceAccess(_, _) => p
    case Discon(kind, f, t, n) => p.(discons := p.discons + [Discontinuity(kind, f, t, n)])
    case WriteFooter(tbs, es, execs, wall) => p.(footer := Some(Footer(tbs, es, execs, wall, true)))
  }

  function WithCalls(p: ProfileData, calls: seq<Call>): ProfileData {
    if calls == [] then p else WithCall(WithCalls(p, calls[..|calls| - 1]), calls[|calls| - 1])
  }

  predicate ValidHeader(h: FileHeader) {
    h.formatVersion == 1 && (h.pointerSize == 4 || h.pointerSize == 8) && |h.buildId| == 16
  }

  predicate ValidCalls(calls: seq<Call>) {
    forall i | 0 <= i < |calls| :: ValidCall(calls[i])
  }

  // ---- Framing ----

  lemma {:induction false} SplitEncode(fs: seq<Frame>)
    requires AllFramesFit(fs)
    ensures SplitFrames(EncodeFrames(fs)) == fs
  {
    if fs != [] {
      var f, rest := fs[0], EncodeFrames(fs[1..]);
      var b := EncodeFrame(f) + rest;
      WordSizes();
      DecodeEncode(|f.payload|, 3);
      assert b[1..4] == LE(|f.payload|, 3);
      assert b[4..4 + |f.payload|] == f.payload;
      assert b[4 + |f.payload|..] == rest;
      assert AllFramesFit(fs[1..]) by {
        assert forall i | 0 <= i < |fs| - 1 :: fs[1..][i] == fs[i + 1];
      }
      SplitEncode(fs[1..]);
    }
  }

  lemma {:induction false} WithFramesAppend(p: ProfileData, a: seq<Frame>, b: seq<Frame>)
    ensures WithFrames(p, a + b) == WithFrames(WithFrames(p, a), b)
    decreases |a|
  {
    if a == [] {
      assert a + b == b;
    } else {
      assert (a + b)[0] == a[0] && (a + b)[1..] == a[1..] + b;
      WithFramesAppend(WithFrame(p, a[0]), a[1..], b);
    }
  }

  // ---- Payloads ----

  lemma {:induction false} EdgeInside(front: bytes, es: seq<EdgeRecord>, i: nat)
    requires AllFit(es) && i < |es|
    ensures EdgeAt(front + EncodeEdges(es), |front| + 24 * i) == es[i]
    decreases |es|
  {
    var b := front + EncodeEdges(es);
    if i == 0 {
      WordSizes();
      var r, rest := es[0], EncodeEdges(es[1..]);
      assert b == front + LE(r.from, 8) + (LE(r.to, 8) + LE(r.count, 8) + rest);
      WordInside(front, r.from, 8, LE(r.to, 8) + LE(r.count, 8) + rest);
      assert b == (front + LE(r.from, 8)) + LE(r.to, 8) + (LE(r.count, 8) + rest);
      WordInside(front + LE(r.from, 8), r.to, 8, LE(r.count, 8) + rest);
      assert b == (front + LE(r.from, 8) + LE(r.to, 8)) + LE(r.count, 8) + rest;
      WordInside(front + LE(r.from, 8) + LE(r.to, 8), r.count, 8, rest);
    } else {
      EdgeInside(front + EncodeEdge(es[0]), es[1..], i - 1);
      assert b == (front + EncodeEdge(es[0])) + EncodeEdges(es[1..]);
    }
  }

  lemma WholeEntries(n: nat)
    ensures 24 * n / 24 == n && 40 * n / 40 == n
  {
  }

  /** A batch payload announces as many entries as it holds. */
  lemma AnnouncedCount(n: nat, entries: bytes)
    requires n < TWO_32
    ensures WordAt(LE(n, 4) + entries, 0, 4) == n
  {
    WordSizes();
    assert LE(n, 4) + entries == [] + LE(n, 4) + entries;
    WordInside([], n, 4, entries);
  }

  lemma AllEdgesIn(b: bytes, n: nat)
    requires |b| == 4 + 24 * n && WordAt(b, 0, 4) == n
    ensures |EdgesIn(b)| == n && forall i | 0 <= i < n :: EdgesIn(b)[i] == EdgeAt(b, 4 + 24 * i)
  {
    WholeEntries(n);
    assert EntryCount(b, 24) == n;
  }

  lemma AllTbsIn(b: bytes, n: nat)
    requires |b| == 4 + 40 * n && WordAt(b, 0, 4) == n
    ensures |TbsIn(b)| == n && forall i | 0 <= i < n :: TbsIn(b)[i] == TbAt(b, 4 + 40 * i)
  {
    WholeEntries(n);
    assert EntryCount(b, 40) == n;
  }

  lemma EdgePayload(es: seq<EdgeRecord>)
    requires AllFit(es) && |es| <= MAX_EDGES_PER_RECORD
    ensures EdgesIn(LE(|es|, 4) + EncodeEdges(es)) == es
  {
    var head, b := LE(|es|, 4), LE(|es|, 4) + EncodeEdges(es);
    AnnouncedCount(|es|, EncodeEdges(es));
    AllEdgesIn(b, |es|);
    forall i | 0 <= i < |es| ensures EdgesIn(b)[i] == es[i] {
      EdgeInside(head, es, i);
    }
  }

  lemma {:induction false} TbsApart(a: seq<TbExec>, b: seq<TbExec>)
    ensures EncodeTbs(a + b) == EncodeTbs(a) + EncodeTbs(b)
    decreases |a|
  {
    if a == [] {
      assert a + b == b;
    } else {
      TbsApart(a[1..], b);
      assert (a + b)[0] == a[0] && (a + b)[1..] == a[1..] + b;
      Regrouped(EncodeTb(a[0]), EncodeTbs(a[1..]), EncodeTbs(b));
    }
  }

  /** Entry `i` of a batch with all that precedes it in the payload and all that follows. */
  lemma TbAround(front: bytes, tbs: seq<TbExec>, i: nat) returns (before: bytes, after: bytes)
    requires i < |tbs|
    ensures front + EncodeTbs(tbs) == before + EncodeTb(tbs[i]) + after
    ensures |before| == |front| + 40 * i
  {
    before, after := front + EncodeTbs(tbs[..i]), EncodeTbs(tbs[i + 1..]);
    TbsApart(tbs[..i], tbs[i..]);
    assert tbs == tbs[..i] + tbs[i..] && tbs[i..][0] == tbs[i] && tbs[i..][1..] == tbs[i + 1..];
    Regrouped(front, EncodeTbs(tbs[..i]), EncodeTbs(tbs[i..]));
    Regrouped(before, EncodeTb(tbs[i]), after);
  }

  lemma TbInside(front: bytes, tbs: seq<TbExec>, i: nat)
    requires i < |tbs|
    ensures TbAt(front + EncodeTbs(tbs), |front| + 40 * i) == tbs[i]
  {
    var before, after := TbAround(front, tbs, i);
    TbFieldsIn(front + EncodeTbs(tbs), before, tbs[i], after);
  }

  lemma TbFieldsIn(b: bytes, before: bytes, tb: TbExec, after: bytes)
    requires b == before + EncodeTb(tb) + after
    ensures |before| + 40 <= |b| && TbAt(b, |before|) == tb
  {
    TbFields(before, tb, after);
  }

  lemma TbLayout(tb: TbExec)
    ensures var e := EncodeTb(tb);
            && |e| == 40
            && e[0..8] == LE(tb.start, 8) && e[8..16] == LE(tb.end, 8) && e[16..18] == LE(tb.nInsns, 2)
            && e[24..32] == LE(tb.execCount, 8) && e[32..40] == LE(tb.firstSeen, 8)
  {
  }

  lemma TbFields(front: bytes, tb: TbExec, rest: bytes)
    ensures TbAt(front + EncodeTb(tb) + rest, |front|) == tb
  {
    WordSizes();
    TbLayout(tb);
    var e := EncodeTb(tb);
    TbField(front, e, rest, 0, tb.start, 8);
    TbField(front, e, rest, 8, tb.end, 8);
    TbField(front, e, rest, 16, tb.nInsns, 2);
    TbField(front, e, rest, 24, tb.execCount, 8);
    TbField(front, e, rest, 32, tb.firstSeen, 8);
  }

  lemma TbField(front: bytes, e: bytes, rest: bytes, i: nat, n: nat, k: nat)
    requires i + k <= |e| && e[i..i + k] == LE(n, k) && n < Pow256(k)
    ensures WordAt(front + e + rest, |front| + i, k) == n
  {
    SliceInside(front, e, rest, i, i + k);
    WordHere(front + e + rest, |front| + i, n, k);
  }

  lemma TbPayload(tbs: seq<TbExec>)
    requires |tbs| <= MAX_TB_EXEC_PER_RECORD
    ensures TbsIn(LE(|tbs|, 4) + EncodeTbs(tbs)) == tbs
  {
    var head, b := LE(|tbs|, 4), LE(|tbs|, 4) + EncodeTbs(tbs);
    AnnouncedCount(|tbs|, EncodeTbs(tbs));
    AllTbsIn(b, |tbs|);
    forall i | 0 <= i < |tbs| ensures TbsIn(b)[i] == tbs[i] {
      TbInside(head, tbs, i);
    }
  }

  // ---- Batches, reassembled from their chunks ----

  function AddEdges(p: ProfileData, tag: u8, es: seq<EdgeRecord>): ProfileData {
    if tag == TAG_BRANCH_EDGE_BATCH then p.(branchEdges := p.branchEdges + es)
    else if tag == TAG_FALL_THROUGH_BATCH then p.(fallThroughs := p.fallThroughs + es)
    else if tag == TAG_DIRECT_CALL_BATCH then p.(directCalls := p.directCalls + es)
    else if tag == TAG_INDIRECT_CALL_BATCH then p.(indirectCalls := p.indirectCalls + es)
    else p
  }

  predicate IsEdgeTag(tag: u8) {
    tag == TAG_BRANCH_EDGE_BATCH || tag == TAG_FALL_THROUGH_BATCH
    || tag == TAG_DIRECT_CALL_BATCH || tag == TAG_INDIRECT_CALL_BATCH
  }

  lemma AddEdgesTwice(p: ProfileData, tag: u8, a: seq<EdgeRecord>, b: seq<EdgeRecord>)
    requires IsEdgeTag(tag)
    ensures AddEdges(AddEdges(p, tag, a), tag, b) == AddEdges(p, tag, a + b)
  {
    assert p.branchEdges + a + b == p.branchEdges + (a + b);
    assert p.fallThroughs + a + b == p.fallThroughs + (a + b);
    assert p.directCalls + a + b == p.directCalls + (a + b);
    assert p.indirectCalls + a + b == p.indirectCalls + (a + b);
  }

  lemma EdgeFrameAdds(p: ProfileData, tag: u8, chunk: seq<EdgeRecord>)
    requires IsEdgeTag(tag) && AllFit(chunk) && |chunk| <= MAX_EDGES_PER_RECORD
    ensures WithFrame(p, EdgeFrame(tag, chunk)) == AddEdges(p, tag, chunk)
  {
    EdgePayload(chunk);
  }

  lemma NextEdgeChunk(tag: u8, es: seq<EdgeRecord>, n: nat)
    requires es != [] && n == Min(|es|, MAX_EDGES_PER_RECORD)
    ensures EdgeFrames(tag, Chunks(es, MAX_EDGES_PER_RECORD)) ==
            [EdgeFrame(tag, es[..n])] + EdgeFrames(tag, Chunks(es[n..], MAX_EDGES_PER_RECORD))
  {
    if n == |es| {
      assert es[..n] == es && es[n..] == [];
    } else {
      assert Chunks(es, n)[1..] == Chunks(es[n..], n);
    }
  }

  lemma FirstChunkAdds(p: ProfileData, tag: u8, es: seq<EdgeRecord>, n: nat)
    requires IsEdgeTag(tag) && AllFit(es) && es != [] && n == Min(|es|, MAX_EDGES_PER_RECORD)
    ensures WithFrames(p, EdgeFrames(tag, Chunks(es, MAX_EDGES_PER_RECORD))) ==
            WithFrames(AddEdges(p, tag, es[..n]), EdgeFrames(tag, Chunks(es[n..], MAX_EDGES_PER_RECORD)))
  {
    NextEdgeChunk(tag, es, n);
    WithFramesAppend(p, [EdgeFrame(tag, es[..n])], EdgeFrames(tag, Chunks(es[n..], MAX_EDGES_PER_RECORD)));
    EdgeFrameAdds(p, tag, es[..n]);
    OneFrame(p, EdgeFrame(tag, es[..n]));
  }

  lemma {:induction false} EdgeBatchAdds(p: ProfileData, tag: u8, es: seq<EdgeRecord>)
    requires IsEdgeTag(tag) && AllFit(es)
    ensures WithFrames(p, EdgeFrames(tag, Chunks(es, MAX_EDGES_PER_RECORD))) == AddEdges(p, tag, es)
    decreases |es|
  {
    if es == [] {
      assert p.branchEdges + [] == p.branchEdges && p.fallThroughs + [] == p.fallThroughs;
      assert p.directCalls + [] == p.directCalls && p.indirectCalls + [] == p.indirectCalls;
    } else {
      var n := Min(|es|, MAX_EDGES_PER_RECORD);
      FirstChunkAdds(p, tag, es, n);
      EdgeBatchAdds(AddEdges(p, tag, es[..n]), tag, es[n..]);
      AddEdgesTwice(p, tag, es[..n], es[n..]);
      assert es[..n] + es[n..] == es;
    }
  }

  lemma OneFrame(p: ProfileData, f: Frame)
    ensures WithFrames(p, [f]) == WithFrame(p, f)
  {
    assert [f][1..] == [];
  }

  lemma FirstTbFrame(tbs: seq<TbExec>)
    requires |tbs| > MAX_TB_EXEC_PER_RECORD
    ensures var n := MAX_TB_EXEC_PER_RECORD;
            TbFrames(Chunks(tbs, n)) == [TbFrame(tbs[..n])] + TbFrames(Chunks(tbs[n..], n))
  {
    var n := MAX_TB_EXEC_PER_RECORD;
    assert Chunks(tbs, n)[1..] == Chunks(tbs[n..], n);
  }

  lemma FrameFirst(p: ProfileData, f: Frame, fs: seq<Frame>)
    ensures WithFrames(p, [f] + fs) == WithFrames(WithFrame(p, f), fs)
  {
    assert ([f] + fs)[1..] == fs;
  }

  lemma TbChunkAdds(p: ProfileData, tbs: seq<TbExec>)
    requires |tbs| <= MAX_TB_EXEC_PER_RECORD
    ensures WithFrame(p, TbFrame(tbs)) == p.(tbExecs := p.tbExecs + tbs)
  {
    TbPayload(tbs);
  }

  lemma OnlyTbFrame(tbs: seq<TbExec>)
    requires 0 < |tbs| <= MAX_TB_EXEC_PER_RECORD
    ensures TbFrames(Chunks(tbs, MAX_TB_EXEC_PER_RECORD)) == [TbFrame(tbs)]
  {
  }

  /** What a batch of records adds, said with the records left to read. */
  ghost predicate TbFramesAdd(p: ProfileData, fs: seq<Frame>, tbs: seq<TbExec>) {
    WithFrames(p, fs) == p.(tbExecs := p.tbExecs + tbs)
  }

  lemma FirstTbChunkAdds(p: ProfileData, chunk: seq<TbExec>, fs: seq<Frame>, rest: seq<TbExec>)
    requires |chunk| <= MAX_TB_EXEC_PER_RECORD && TbFramesAdd(p.(tbExecs := p.tbExecs + chunk), fs, rest)
    ensures TbFramesAdd(p, [TbFrame(chunk)] + fs, chunk + rest)
  {
    TbChunkAdds(p, chunk);
    FrameFirst(p, TbFrame(chunk), fs);
    assert p.tbExecs + chunk + rest == p.tbExecs + (chunk + rest);
  }

  lemma {:induction false} TbBatchAdds(p: ProfileData, tbs: seq<TbExec>)
    ensures TbFramesAdd(p, TbFrames(Chunks(tbs, MAX_TB_EXEC_PER_RECORD)), tbs)
    decreases |tbs|
  {
    var n := MAX_TB_EXEC_PER_RECORD;
    if tbs == [] {
      assert p.tbExecs + [] == p.tbExecs;
    } else if |tbs| <= n {
      TbChunkAdds(p, tbs);
      OneFrame(p, TbFrame(tbs));
      OnlyTbFrame(tbs);
    } else {
      TbBatchAdds(p.(tbExecs := p.tbExecs + tbs[..n]), tbs[n..]);
      FirstTbChunkAdds(p, tbs[..n], TbFrames(Chunks(tbs[n..], n)), tbs[n..]);
      FirstTbFrame(tbs);
      assert tbs[..n] + tbs[n..] == tbs;
    }
  }

  // ---- Single records ----

  lemma StringMetaFields(key: bytes, value: bytes)
    requires |key| <= 255 && |value| <= 65535
    ensures var b := StringMetaFrame(key, value).payload;
            && |b| == 3 + |key| + |value| && b[0] == |key| && WordAt(b, 1 + |key|, 2) == |value|
            && b[1..1 + |key|] == key && b[3 + |key|..3 + |key| + |value|] == value
  {
    var b := StringMetaFrame(key, value).payload;
    WordSizes();
    assert b[0] == LE(|key|, 1)[0] == |key|;
    assert b == (LE(|key|, 1) + key) + LE(|value|, 2) + value;
    WordInside(LE(|key|, 1) + key, |value|, 2, value);
  }

  lemma StringMetaAdds(p: ProfileData, key: bytes, value: bytes)
    requires |key| <= 255 && |value| <= 65535
    ensures WithStringMeta(p, StringMetaFrame(key, value).payload) ==
            p.(metadata := p.metadata[FromUtf8Lossy(key) := FromUtf8Lossy(value)])
  {
    StringMetaFields(key, value);
    MetaIn(p, StringMetaFrame(key, value).payload, key, value);
  }

  lemma MetaIn(p: ProfileData, b: bytes, key: bytes, value: bytes)
    requires |b| == 3 + |key| + |value| && b[0] == |key| && WordAt(b, 1 + |key|, 2) == |value|
    requires b[1..1 + |key|] == key && b[3 + |key|..3 + |key| + |value|] == value
    ensures WithStringMeta(p, b) == p.(metadata := p.metadata[FromUtf8Lossy(key) := FromUtf8Lossy(value)])
  {
  }

  lemma SymbolFields(symId: u16, addr: u64, name: bytes)
    requires |name| <= 65535
    ensures var b := SymbolFrame(symId, addr, name).payload;
            && |b| == 12 + |name| && WordAt(b, 0, 2) == symId && WordAt(b, 2, 8) == addr && WordAt(b, 10, 2) == |name|
            && b[12..12 + |name|] == name
  {
    var b := SymbolFrame(symId, addr, name).payload;
    WordSizes();
    assert b == [] + LE(symId, 2) + b[2..];
    WordInside([], symId, 2, b[2..]);
    assert b == LE(symId, 2) + LE(addr, 8) + b[10..];
    WordInside(LE(symId, 2), addr, 8, b[10..]);
    assert b == (LE(symId, 2) + LE(addr, 8)) + LE(|name|, 2) + name;
    WordInside(LE(symId, 2) + LE(addr, 8), |name|, 2, name);
  }

  lemma SymbolAdds(p: ProfileData, symId: u16, addr: u64, name: bytes)
    requires |name| <= 65535
    ensures WithSymbol(p, SymbolFrame(symId, addr, name).payload) ==
            p.(symbols := p.symbols + [SymbolRecord(symId, addr, FromUtf8Lossy(name))])
  {
    SymbolFields(symId, addr, name);
  }

  lemma ResourceAdds(p: ProfileData, a: u64, flags: u32, mask: u64)
    ensures WithResource(p, ResourceFrame(a, flags, mask).payload) ==
            p.(resources := p.resources + [TbResource(a, flags, mask)])
  {
    var b := ResourceFrame(a, flags, mask).payload;
    WordSizes();
    assert b == [] + LE(a, 8) + b[8..];
    WordInside([], a, 8, b[8..]);
    assert b == LE(a, 8) + LE(flags, 4) + b[12..];
    WordInside(LE(a, 8), flags, 4, b[12..]);
    assert b == (LE(a, 8) + LE(flags, 4)) + LE(mask, 8) + [];
    WordInside(LE(a, 8) + LE(flags, 4), mask, 8, []);
  }

  lemma DisconAdds(p: ProfileData, kind: u32, f: u64, t: u64, n: u64)
    ensures WithDiscontinuity(p, DisconFrame(kind, f, t, n).payload) ==
            p.(discons := p.discons + [Discontinuity(kind, f, t, n)])
  {
    var b := DisconFrame(kind, f, t, n).payload;
    WordSizes();
    assert b == [] + LE(kind, 4) + b[4..];
    WordInside([], kind, 4, b[4..]);
    assert b == LE(kind, 4) + LE(f, 8) + b[12..];
    WordInside(LE(kind, 4), f, 8, b[12..]);
    assert b == (LE(kind, 4) + LE(f, 8)) + LE(t, 8) + b[20..];
    WordInside(LE(kind, 4) + LE(f, 8), t, 8, b[20..]);
    assert b == (LE(kind, 4) + LE(f, 8) + LE(t, 8)) + LE(n, 8) + [];
    WordInside(LE(kind, 4) + LE(f, 8) + LE(t, 8), n, 8, []);
  }

  lemma FooterAdds(p: ProfileData, tbs: u64, es: u64, execs: u64, wall: u64)
    ensures WithFooter(p, FooterFrame(tbs, es, execs, wall).payload) ==
            p.(footer := Some(Footer(tbs, es, execs, wall, true)))
  {
    var b := FooterFrame(tbs, es, execs, wall).payload;
    var pad: bytes := [0, 0, 0, 0];
    WordSizes();
    var f1 := LE(tbs, 8);
    var f2 := f1 + LE(es, 8);
    var f3 := f2 + LE(execs, 8);
    var f4 := f3 + LE(wall, 8);
    assert b == [] + LE(tbs, 8) + b[8..];
    WordInside([], tbs, 8, b[8..]);
    assert b == f1 + LE(es, 8) + b[16..];
    WordInside(f1, es, 8, b[16..]);
    assert b == f2 + LE(execs, 8) + b[24..];
    WordInside(f2, execs, 8, b[24..]);
    assert b == f3 + LE(wall, 8) + b[32..];
    WordInside(f3, wall, 8, b[32..]);
    assert b == f4 + LE(1, 4) + pad;
    WordInside(f4, 1, 4, pad);
  }

  /** Parsing the records of one call adds what the call means. */
  lemma CallAdds(p: ProfileData, call: Call)
    requires ValidCall(call)
    ensures WithFrames(p, Frames(call)) == WithCall(p, call)
  {
    match call
    case StringMeta(key, value) => StringMetaAdds(p, Clip(key, 255), Clip(value, 65535));
    case SymbolEntry(id, addr, name) => SymbolAdds(p, id, addr, Clip(name, 65535));
    case TbExecBatch(tbs) => TbBatchAdds(p, tbs);
    case BranchBatch(es) => EdgeBatchAdds(p, TAG_BRANCH_EDGE_BATCH, es);
    case FallThroughBatch(es) => EdgeBatchAdds(p, TAG_FALL_THROUGH_BATCH, es);
    case FlushMarker(_, _, _) =>
    case DirectCallBatch(cs) => EdgeBatchAdds(p, TAG_DIRECT_CALL_BATCH, cs);
    case IndirectCallBatch(cs) => EdgeBatchAdds(p, TAG_INDIRECT_CALL_BATCH, cs);
    case Resource(a, flags, mask) => ResourceAdds(p, a, flags, mask);
    case DeviceAccess(_, _) =>
    case Discon(kind, f, t, n) => DisconAdds(p, kind, f, t, n);
    case WriteFooter(tbs, es, execs, wall) => FooterAdds(p, tbs, es, execs, wall);
  }

  lemma {:induction false} CallsAdd(p: ProfileData, calls: seq<Call>)
    requires ValidCalls(calls)
    ensures WithFrames(p, AllFrames(calls)) == WithCalls(p, calls)
  {
    if calls != [] {
      var front, call := calls[..|calls| - 1], calls[|calls| - 1];
      CallsAdd(p, front);
      WithFramesAppend(p, AllFrames(front), Frames(call));
      CallAdds(WithCalls(p, front), call);
    }
  }

  /**
   A valid text comes back unchanged if it is within its cap or cut at a character boundary; if it is
   cut inside a character, what comes back differs from what was written.
   */
  lemma TextRoundTrip(s: bytes, cap: nat)
    requires Valid(s)
    ensures FromUtf8Lossy(Clip(s, cap)) == Clip(s, cap) <==> |s| <= cap || CutsBetween(s, cap)
    ensures |s| <= cap ==> FromUtf8Lossy(Clip(s, cap)) == s
  {
    assert FromUtf8Lossy(Clip(s, cap)) == Lossy(Clip(s, cap));
    LossyIsIdentity(Clip(s, cap));
    if |s| <= cap {
      assert Clip(s, cap) == s;
    } else {
      CutIsValid(s, cap);
    }
  }

  function Ascii(n: nat): (b: bytes)
    ensures |b| == n
  {
    if n == 0 then [] else [0x61] + Ascii(n - 1)
  }

  lemma {:induction false} AsciiThenValid(n: nat, tail: bytes)
    requires Valid(tail)
    ensures Valid(Ascii(n) + tail)
  {
    if n == 0 {
      assert Ascii(0) + tail == tail;
    } else {
      AsciiThenValid(n - 1, tail);
      var rest := Ascii(n - 1) + tail;
      assert Ascii(n) + tail == [0x61] + rest;
      CharThen([0x61], rest);
      assert Progress([0x61] + rest) == 1 && ([0x61] + rest)[1..] == rest;
    }
  }

  /** A valid text of 65536 bytes, written as a value, comes back altered: its last character is cut in two. */
  lemma CutCharacterComesBackAltered() returns (s: bytes)
    ensures Valid(s) && |s| == 65536 && FromUtf8Lossy(Clip(s, 65535)) != Clip(s, 65535)
  {
    var tail: bytes := [0xC3, 0xA9];
    s := Ascii(65534) + tail;
    assert Valid(tail) by {
      assert StartsChar(tail) && tail[Progress(tail)..] == [];
    }
    AsciiThenValid(65534, tail);
    assert s[65535] == tail[1];
    TextRoundTrip(s, 65535);
  }

  // ---- The header ----

  lemma HeaderSize(h: FileHeader)
    requires ValidHeader(h)
    ensures |EncodeHeader(h)| == HEADER_SIZE
  {
  }

  lemma HeaderRoundTrip(h: FileHeader, rest: bytes)
    requires ValidHeader(h)
    ensures HeaderIn(EncodeHeader(h) + rest) == GoodHeader(h)
  {
    var b := EncodeHeader(h) + rest;
    WordSizes();
    var f1 := LE(FILE_MAGIC, 8);
    var f2 := f1 + LE(h.formatVersion, 2) + [h.tier] + [h.pointerSize];
    var f3 := f2 + LE(h.flags, 4);
    var f4 := f3 + LE(h.loadAddr, 8);
    var f5 := f4 + LE(h.textStart, 8);
    var f6 := f5 + LE(h.textEnd, 8);
    assert b == [] + LE(FILE_MAGIC, 8) + b[8..];
    WordInside([], FILE_MAGIC, 8, b[8..]);
    assert b == f1 + LE(h.formatVersion, 2) + b[10..];
    WordInside(f1, h.formatVersion, 2, b[10..]);
    assert b == f2 + LE(h.flags, 4) + b[16..];
    WordInside(f2, h.flags, 4, b[16..]);
    assert b == f3 + LE(h.loadAddr, 8) + b[24..];
    WordInside(f3, h.loadAddr, 8, b[24..]);
    assert b == f4 + LE(h.textStart, 8) + b[32..];
    WordInside(f4, h.textStart, 8, b[32..]);
    assert b == f5 + LE(h.textEnd, 8) + b[40..];
    WordInside(f5, h.textEnd, 8, b[40..]);
    assert b == f6 + LE(h.entryAddr, 8) + b[48..];
    WordInside(f6, h.entryAddr, 8, b[48..]);
    assert b[10] == h.tier && b[11] == h.pointerSize && b[48..64] == h.buildId;
  }

  /**
   The round trip. For every header and every sequence of writer calls, the parser accepts the log
   and finds the header and, before merging duplicate edges, exactly what the calls mean: metadata
   with the last write winning, and all lists in order. Batches split over records come back whole,
   flush markers and device accesses are skipped, strings come back clipped to their length caps.
   */
  lemma RoundTrip(h: FileHeader, calls: seq<Call>)
    requires ValidHeader(h) && ValidCalls(calls)
    ensures HeaderIn(Log(h, calls)) == GoodHeader(h)
    ensures |Log(h, calls)| >= HEADER_SIZE
    ensures Unmerged(h, Log(h, calls)) == WithCalls(EmptyProfile(h), calls)
  {
    var body := EncodeFrames(AllFrames(calls));
    HeaderRoundTrip(h, body);
    HeaderSize(h);
    assert Log(h, calls)[HEADER_SIZE..] == body;
    FramesFit(calls);
    SplitEncode(AllFrames(calls));
    CallsAdd(EmptyProfile(h), calls);
  }

  /** What `parse` returns for a written log: what the calls mean, with duplicate edges merged. */
  ghost predicate IsMergedProfile(p: ProfileData, meant: ProfileData) {
    && p == meant.(branchEdges := p.branchEdges, fallThroughs := p.fallThroughs)
    && IsMerge(meant.branchEdges, p.branchEdges)
    && IsMerge(meant.fallThroughs, p.fallThroughs)
  }

  lemma ParsedLog(h: FileHeader, calls: seq<Call>, p: ProfileData)
    requires ValidHeader(h) && ValidCalls(calls)
    requires IsProfileOf(Log(h, calls), p)
    ensures IsMergedProfile(p, WithCalls(EmptyProfile(h), calls))
  {
    RoundTrip(h, calls);
  }
}
