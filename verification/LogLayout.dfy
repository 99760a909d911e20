/** Where the bytes of a log are: the header's fields, and the records by tag. */
module LogLayout {
  import opened Words
  import opened Bytes
  import opened EdgeStorage
  import opened LogFormat
  import opened NativeParser

  // ---- The header ----

  /** The file starts with these eight characters. */
  predicate SpellsMagic(b: bytes) {
    |b| >= 8 && b[..8] == AsciiText("QEMU_PGO")
  }

  lemma {:induction false} EncodeDecode(b: bytes)
    ensures LE(FromLE(b), |b|) == b
  {
    if b != [] {
      EncodeDecode(b[1..]);
      var n := FromLE(b);
      assert n % 0x100 == b[0] && n / 0x100 == FromLE(b[1..]);
      assert LE(n, |b|)[1..] == LE(n / 0x100, |b| - 1);
      assert LE(n, |b|) == [b[0]] + LE(n, |b|)[1..];
      assert b == [b[0]] + b[1..];
    }
  }

  lemma MagicIsWritten()
    ensures LE(FILE_MAGIC, 8) == AsciiText("QEMU_PGO")
  {
    assert ByteOf(FILE_MAGIC, 1) == 0x45;
    assert ByteOf(FILE_MAGIC, 2) == 0x4D;
    assert ByteOf(FILE_MAGIC, 3) == 0x55;
    assert ByteOf(FILE_MAGIC, 4) == 0x5F;
    assert ByteOf(FILE_MAGIC, 5) == 0x50;
    assert ByteOf(FILE_MAGIC, 6) == 0x47;
    assert ByteOf(FILE_MAGIC, 7) == 0x4F;
  }

  lemma MagicIsRead(b: bytes)
    requires |b| >= 8
    ensures WordAt(b, 0, 8) == FILE_MAGIC <==> SpellsMagic(b)
  {
    MagicIsWritten();
    WordSizes();
    DecodeEncode(FILE_MAGIC, 8);
    EncodeDecode(b[0..8]);
    assert b[0..8] == b[..8];
  }

  lemma VersionIsRead(b: bytes)
    requires |b| >= 10
    ensures WordAt(b, 8, 2) == 1 <==> b[8] == 1 && b[9] == 0
  {
    var v := b[8..10];
    assert v[1..] == [b[9]] && v[1..][1..] == [];
    assert FromLE(v[1..]) == b[9];
  }

  /** Which headers are accepted: 64 bytes, the magic, version 1, 4-byte or 8-byte pointers; nothing else matters. */
  lemma AcceptedHeaders(b: bytes)
    ensures HeaderIn(b).GoodHeader? <==>
            |b| >= 64 && SpellsMagic(b) && b[8] == 1 && b[9] == 0 && (b[11] == 4 || b[11] == 8)
  {
    if |b| >= 10 {
      MagicIsRead(b);
      VersionIsRead(b);
    }
  }

  /** Why a header is refused: the first defect in file order. */
  lemma RefusedHeaders(b: bytes)
    requires HeaderIn(b).BadHeader?
    ensures HeaderIn(b).error.BadMagic? <==> |b| >= 8 && !SpellsMagic(b)
    ensures HeaderIn(b).error.UnsupportedVersion? <==> |b| >= 10 && SpellsMagic(b) && (b[8] != 1 || b[9] != 0)
    ensures HeaderIn(b).error.InvalidPointerSize? <==>
            |b| >= 12 && SpellsMagic(b) && b[8] == 1 && b[9] == 0 && b[11] != 4 && b[11] != 8
  {
    if |b| >= 8 {
      MagicIsRead(b);
    }
    if |b| >= 10 {
      VersionIsRead(b);
    }
  }

  /** Where the header's fields are. */
  lemma HeaderBytes(h: FileHeader)
    requires |h.buildId| == 16
    ensures var b := EncodeHeader(h);
            && |b| == 64 && SpellsMagic(b)
            && b[8..10] == LE(h.formatVersion, 2) && b[10] == h.tier && b[11] == h.pointerSize
            && b[12..16] == LE(h.flags, 4) && b[16..24] == LE(h.loadAddr, 8) && b[24..32] == LE(h.textStart, 8)
            && b[32..40] == LE(h.textEnd, 8) && b[40..48] == LE(h.entryAddr, 8) && b[48..64] == h.buildId
  {
    MagicIsWritten();
  }

  // ---- Records ----

  /** The tag of every record a call writes. */
  lemma {:induction false} RecordTags(call: Call, f: Frame)
    requires f in Frames(call)
    ensures f.tag == match call
                     case StringMeta(_, _) => 0x01
                     case SymbolEntry(_, _, _) => 0x02
                     case TbExecBatch(_) => 0x13
                     case BranchBatch(_) => 0x21
                     case FallThroughBatch(_) => 0x23
                     case FlushMarker(_, _, _) => 0x2F
                     case DirectCallBatch(_) => 0x32
                     case IndirectCallBatch(_) => 0x33
                     case Resource(_, _, _) => 0x40
                     case DeviceAccess(_, _) => 0x41
                     case Discon(_, _, _, _) => 0x42
                     case WriteFooter(_, _, _, _) => 0xFF
  {
    if call.TbExecBatch? {
      TbTags(Chunks(call.tbs, MAX_TB_EXEC_PER_RECORD), f);
    } else if call.BranchBatch? {
      EdgeTags(TAG_BRANCH_EDGE_BATCH, Chunks(call.edges, MAX_EDGES_PER_RECORD), f);
    } else if call.FallThroughBatch? {
      EdgeTags(TAG_FALL_THROUGH_BATCH, Chunks(call.edges, MAX_EDGES_PER_RECORD), f);
    } else if call.DirectCallBatch? {
      EdgeTags(TAG_DIRECT_CALL_BATCH, Chunks(call.calls, MAX_EDGES_PER_RECORD), f);
    } else if call.IndirectCallBatch? {
      EdgeTags(TAG_INDIRECT_CALL_BATCH, Chunks(call.calls, MAX_EDGES_PER_RECORD), f);
    }
  }

  lemma {:induction false} EdgeTags(tag: u8, chunks: seq<seq<EdgeRecord>>, f: Frame)
    requires f in EdgeFrames(tag, chunks)
    ensures f.tag == tag
  {
    if f != EdgeFrame(tag, chunks[0]) {
      EdgeTags(tag, chunks[1..], f);
    }
  }

  lemma {:induction false} TbTags(chunks: seq<seq<TbExec>>, f: Frame)
    requires f in TbFrames(chunks)
    ensures f.tag == 0x13
  {
    if f != TbFrame(chunks[0]) {
      TbTags(chunks[1..], f);
    }
  }

  lemma {:induction false} FullChunks<T>(xs: seq<T>, n: nat)
    requires n > 0
    ensures forall i | 0 <= i < |Chunks(xs, n)| - 1 :: |Chunks(xs, n)[i]| == n
    ensures xs != [] ==> 0 < |Chunks(xs, n)[|Chunks(xs, n)| - 1]| <= n
    ensures xs == [] ==> Chunks(xs, n) == []
    decreases |xs|
  {
    if |xs| > n {
      FullChunks(xs[n..], n);
      assert Chunks(xs, n) == [xs[..n]] + Chunks(xs[n..], n);
    }
  }

  lemma {:induction false} EdgeFrameAt(tag: u8, chunks: seq<seq<EdgeRecord>>, i: nat)
    requires i < |chunks|
    ensures |EdgeFrames(tag, chunks)| == |chunks| && EdgeFrames(tag, chunks)[i] == EdgeFrame(tag, chunks[i])
  {
    if chunks != [] {
      if i > 0 {
        EdgeFrameAt(tag, chunks[1..], i - 1);
      } else if |chunks| > 1 {
        EdgeFrameAt(tag, chunks[1..], 0);
      }
    }
  }

  /** All records of a branch batch but the last announce 699050 edges: what 24 bits of length leave room for. */
  lemma RecordsAreFull(es: seq<EdgeRecord>, i: nat)
    requires i < |Frames(BranchBatch(es))|
    ensures var payload := Frames(BranchBatch(es))[i].payload;
            && |payload| <= 0xFF_FFFF && (i < |Frames(BranchBatch(es))| - 1 ==> |payload| == 4 + 24 * 699050)
  {
    var n := MAX_EDGES_PER_RECORD;
    assert n == 699050;
    var chunks := Chunks(es, n);
    FullChunks(es, n);
    if chunks != [] {
      EdgeFrameAt(TAG_BRANCH_EDGE_BATCH, chunks, 0);
      EdgeFrameAt(TAG_BRANCH_EDGE_BATCH, chunks, i);
      assert |chunks[i]| <= n;
    }
  }
}
