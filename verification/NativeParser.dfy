/** The converter's parser for the profile log, independent of the writer. */
module NativeParser {
  import opened Words
  import opened Counting
  import opened Bytes
  import opened EdgeStorage
  import opened LogFormat
  import opened Utf8

  datatype ProfileData = ProfileData(
    header: FileHeader,
    metadata: map<bytes, bytes>,
    symbols: seq<SymbolRecord>,
    tbExecs: seq<TbExec>,
    branchEdges: seq<EdgeRecord>,
    fallThroughs: seq<EdgeRecord>,
    directCalls: seq<CallRecord>,
    indirectCalls: seq<CallRecord>,
    resources: seq<TbResource>,
    discons: seq<Discontinuity>,
    footer: Option<Footer>)

  function EmptyProfile(h: FileHeader): ProfileData {
    ProfileData(h, map[], [], [], [], [], [], [], [], [], None)
  }

  datatype HeaderField = MagicField | VersionField | TierField | PointerSizeField | FlagsField
                       | LoadAddrField | TextStartField | TextEndField | EntryField | BuildIdField

  datatype ParseError =
    | TruncatedHeader(field: HeaderField)
    | BadMagic(magic: u64)
    | UnsupportedVersion(version: u16)
    | InvalidPointerSize(size: u8)

  datatype HeaderResult = GoodHeader(header: FileHeader) | BadHeader(error: ParseError)

  // ---- What the parser should find ----

  /** The header of a file, or the first thing wrong with it. */
  function HeaderIn(b: bytes): HeaderResult {
    if |b| < 8 then BadHeader(TruncatedHeader(MagicField))
    else if WordAt(b, 0, 8) != FILE_MAGIC then BadHeader(BadMagic(WordAt(b, 0, 8)))
    else if |b| < 10 then BadHeader(TruncatedHeader(VersionField))
    else if WordAt(b, 8, 2) != 1 then BadHeader(UnsupportedVersion(WordAt(b, 8, 2)))
    else if |b| < 11 then BadHeader(TruncatedHeader(TierField))
    else if |b| < 12 then BadHeader(TruncatedHeader(PointerSizeField))
    else if b[11] != 4 && b[11] != 8 then BadHeader(InvalidPointerSize(b[11]))
    else if |b| < 16 then BadHeader(TruncatedHeader(FlagsField))
    else if |b| < 24 then BadHeader(TruncatedHeader(LoadAddrField))
    else if |b| < 32 then BadHeader(TruncatedHeader(TextStartField))
    else if |b| < 40 then BadHeader(TruncatedHeader(TextEndField))
    else if |b| < 48 then BadHeader(TruncatedHeader(EntryField))
    else if |b| < HEADER_SIZE then BadHeader(TruncatedHeader(BuildIdField))
    else GoodHeader(FileHeader(WordAt(b, 8, 2), b[10], b[11], WordAt(b, 12, 4), WordAt(b, 16, 8),
                               WordAt(b, 24, 8), WordAt(b, 32, 8), WordAt(b, 40, 8), b[48..64]))
  }

  /** The 24-bit payload length that follows a tag. */
  function LengthAt(b: bytes, off: nat): nat
    requires off + 3 <= |b|
  {
    FromLE(b[off..off + 3])
  }

  /** The complete records of a byte string; a truncated last one is dropped. */
  function SplitFrames(b: bytes): seq<Frame>
    decreases |b|
  {
    if |b| < 4 then []
    else
      var end := 4 + LengthAt(b, 1);
      if |b| < end then [] else [Frame(b[0], b[4..end])] + SplitFrames(b[end..])
  }

  function EdgeAt(b: bytes, off: nat): EdgeRecord
    requires off + 24 <= |b|
  {
    EdgeRecord(WordAt(b, off, 8), WordAt(b, off + 8, 8), WordAt(b, off + 16, 8))
  }

  /** The entries of an edge or call batch: as many as announced, but no more than fit. */
  function EdgesIn(b: bytes): seq<EdgeRecord> {
    if |b| < 4 then []
    else seq(EntryCount(b, 24), i requires 0 <= i < EntryCount(b, 24) => EdgeAt(b, 4 + 24 * i))
  }

  function EntryCount(b: bytes, size: nat): (n: nat)
    requires |b| >= 4 && EntrySize(size)
    ensures forall i | 0 <= i < n :: 4 + size * i + size <= |b|
  {
    var n := Min(WordAt(b, 0, 4), (|b| - 4) / size);
    EntriesFit(|b|, size, n);
    n
  }

  /** Edge and call entries take 24 bytes, block entries 40. */
  predicate EntrySize(size: nat) {
    size == 24 || size == 40
  }

  lemma EntriesFit(len: nat, size: nat, n: nat)
    requires len >= 4 && EntrySize(size) && n <= (len - 4) / size
    ensures forall i | 0 <= i < n :: 4 + size * i + size <= len
  {
    if size == 24 {
      assert forall i: int | 0 <= i < n :: 4 + 24 * i + 24 <= len;
    } else {
      assert forall i: int | 0 <= i < n :: 4 + 40 * i + 40 <= len;
    }
  }

  function TbAt(b: bytes, off: nat): TbExec
    requires off + 40 <= |b|
  {
    TbExec(WordAt(b, off, 8), WordAt(b, off + 8, 8), WordAt(b, off + 16, 2), WordAt(b, off + 24, 8),
        WordAt(b, off + 32, 8))
  }

  function TbsIn(b: bytes): seq<TbExec> {
    if |b| < 4 then []
    else seq(EntryCount(b, 40), i requires 0 <= i < EntryCount(b, 40) => TbAt(b, 4 + 40 * i))
  }

  function WithStringMeta(p: ProfileData, b: bytes): ProfileData {
    if b == [] then p
    else
      var keyLen: int := b[0];
      if |b| < 1 + keyLen + 2 then p
      else
        var valLen := WordAt(b, 1 + keyLen, 2);
        var valStart := 3 + keyLen;
        if |b| < valStart + valLen then p
        else
          var key, value := FromUtf8Lossy(b[1..1 + keyLen]), FromUtf8Lossy(b[valStart..valStart + valLen]);
          p.(metadata := p.metadata[key := value])
  }

  function WithSymbol(p: ProfileData, b: bytes): ProfileData {
    if |b| < 12 then p
    else
      var nameLen := WordAt(b, 10, 2);
      if |b| < 12 + nameLen then p
      else p.(symbols := p.symbols + [SymbolRecord(WordAt(b, 0, 2), WordAt(b, 2, 8),
          FromUtf8Lossy(b[12..12 + nameLen]))])
  }

  function WithResource(p: ProfileData, b: bytes): ProfileData {
    if |b| < 20 then p
    else p.(resources := p.resources + [TbResource(WordAt(b, 0, 8), WordAt(b, 8, 4), WordAt(b, 12, 8))])
  }

  function WithDiscontinuity(p: ProfileData, b: bytes): ProfileData {
    if |b| < 28 then p
    else p.(discons := p.discons + [Discontinuity(WordAt(b, 0, 4), WordAt(b, 4, 8), WordAt(b, 12, 8),
        WordAt(b, 20, 8))])
  }

  function WithFooter(p: ProfileData, b: bytes): ProfileData {
    if |b| < 40 then p
    else
      p.(footer := Some(Footer(WordAt(b, 0, 8), WordAt(b, 8, 8), WordAt(b, 16, 8), WordAt(b, 24, 8),
                               WordAt(b, 32, 4) % 2 != 0)))
  }

  /** What one record contributes; unknown tags contribute nothing. */
  function WithFrame(p: ProfileData, f: Frame): ProfileData {
    var b := f.payload;
    if f.tag == TAG_STRING_META then WithStringMeta(p, b)
    else if f.tag == TAG_SYMBOL_ENTRY then WithSymbol(p, b)
    else if f.tag == TAG_TB_EXEC_BATCH then p.(tbExecs := p.tbExecs + TbsIn(b))
    else if f.tag == TAG_BRANCH_EDGE_BATCH then p.(branchEdges := p.branchEdges + EdgesIn(b))
    else if f.tag == TAG_FALL_THROUGH_BATCH then p.(fallThroughs := p.fallThroughs + EdgesIn(b))
    else if f.tag == TAG_DIRECT_CALL_BATCH then p.(directCalls := p.directCalls + EdgesIn(b))
    else if f.tag == TAG_INDIRECT_CALL_BATCH then p.(indirectCalls := p.indirectCalls + EdgesIn(b))
    else if f.tag == TAG_TB_RESOURCE then WithResource(p, b)
    else if f.tag == TAG_DISCONTINUITY then WithDiscontinuity(p, b)
    else if f.tag == TAG_FOOTER then WithFooter(p, b)
    else p
  }

  function WithFrames(p: ProfileData, fs: seq<Frame>): ProfileData
    decreases |fs|
  {
    if fs == [] then p else WithFrames(WithFrame(p, fs[0]), fs[1..])
  }

  /** The profile of a file before duplicate edges are merged. */
  function Unmerged(h: FileHeader, b: bytes): ProfileData
    requires |b| >= HEADER_SIZE
  {
    WithFrames(EmptyProfile(h), SplitFrames(b[HEADER_SIZE..]))
  }

  /** The edge map of a list whose counts are added modulo 2^64. */
  ghost function WrappedTally(edges: seq<EdgeRecord>): EdgeCounts {
    map e | e in Tally(edges) :: Wrap64(Tally(edges)[e])
  }

  /** Merging leaves a list without duplicates alone, and otherwise lists the summed edges in hash order. */
  ghost predicate IsMerge(raw: seq<EdgeRecord>, merged: seq<EdgeRecord>) {
    if DistinctEdges(raw) then merged == raw else Enumerates(merged, WrappedTally(raw))
  }

  /** What `parse` returns for a file with a good header. */
  ghost predicate IsProfileOf(b: bytes, p: ProfileData) {
    && HeaderIn(b).GoodHeader?
    && var raw := Unmerged(HeaderIn(b).header, b);
       && p == raw.(branchEdges := p.branchEdges, fallThroughs := p.fallThroughs)
       && IsMerge(raw.branchEdges, p.branchEdges)
       && IsMerge(raw.fallThroughs, p.fallThroughs)
  }

  // ---- The parser ----

  /** A buffered file: bytes with a read position. */
  class Reader {
    const data: bytes
    var pos: nat

    ghost predicate Valid()
      reads this
    {
      pos <= |data|
    }

    constructor (data: bytes)
      ensures Valid() && this.data == data && pos == 0
    {
      this.data := data;
      pos := 0;
    }

    /** Reads exactly `n` bytes, or fails at the end of the file. */
    method ReadExact(n: nat) returns (r: Option<bytes>)
      requires Valid()
      modifies this
      ensures Valid()
      ensures old(pos) + n <= |data| ==> r == Some(data[old(pos)..old(pos) + n]) && pos == old(pos) + n
      ensures old(pos) + n > |data| ==> r == None && pos == |data|
    {
      if pos + n <= |data| {
        r := Some(data[pos..pos + n]);
        pos := pos + n;
      } else {
        r := None;
        pos := |data|;
      }
    }

    /** Reads a little-endian word of `k` bytes. */
    method ReadWord(k: nat) returns (r: Option<nat>)
      requires Valid()
      modifies this
      ensures Valid()
      ensures old(pos) + k <= |data| ==> r == Some(WordAt(data, old(pos), k)) && pos == old(pos) + k
      ensures old(pos) + k > |data| ==> r == None && pos == |data|
    {
      var b := ReadExact(k);
      if b.None? {
        return None;
      }
      r := Some(FromLE(b.value));
    }
  }

  class Profile {
    var header: FileHeader
    var metadata: map<bytes, bytes>
    var symbols: seq<SymbolRecord>
    var tbExecs: seq<TbExec>
    var branchEdges: seq<EdgeRecord>
    var fallThroughs: seq<EdgeRecord>
    var directCalls: seq<CallRecord>
    var indirectCalls: seq<CallRecord>
    var resources: seq<TbResource>
    var discons: seq<Discontinuity>
    var footer: Option<Footer>

    ghost function View(): ProfileData
      reads this
    {
      ProfileData(header, metadata, symbols, tbExecs, branchEdges, fallThroughs, directCalls, indirectCalls,
                  resources, discons, footer)
    }

    constructor (h: FileHeader)
      ensures View() == EmptyProfile(h)
    {
      header := h;
      metadata, symbols, tbExecs, branchEdges, fallThroughs := map[], [], [], [], [];
      directCalls, indirectCalls, resources, discons, footer := [], [], [], [], None;
    }

    method ParseStringMeta(payload: bytes)
      modifies this
      ensures View() == WithStringMeta(old(View()), payload)
    {
      if payload == [] {
        return;
      }
      var keyLen: int := payload[0];
      if |payload| < 1 + keyLen + 2 {
        return;
      }
      var key := FromUtf8Lossy(payload[1..1 + keyLen]);
      var valLen := WordAt(payload, 1 + keyLen, 2);
      var valStart := 3 + keyLen;
      if |payload| < valStart + valLen {
        return;
      }
      metadata := metadata[key := FromUtf8Lossy(payload[valStart..valStart + valLen])];
    }

    method ParseSymbolEntry(payload: bytes)
      modifies this
      ensures View() == WithSymbol(old(View()), payload)
    {
      if |payload| < 12 {
        return;
      }
      var symId, addr, nameLen := WordAt(payload, 0, 2), WordAt(payload, 2, 8), WordAt(payload, 10, 2);
      if |payload| < 12 + nameLen {
        return;
      }
      symbols := symbols + [SymbolRecord(symId, addr, FromUtf8Lossy(payload[12..12 + nameLen]))];
    }

    lemma TbsInStep(payload: bytes, n: nat)
      requires 4 <= |payload| && n < WordAt(payload, 0, 4) && 4 + 40 * n + 40 <= |payload|
      ensures n < EntryCount(payload, 40) && |TbsIn(payload)| == EntryCount(payload, 40)
      ensures TbsIn(payload)[..n + 1] == TbsIn(payload)[..n] + [TbAt(payload, 4 + 40 * n)]
    {
      assert n < (|payload| - 4) / 40;
      var tbs := TbsIn(payload);
      assert tbs[n] == TbAt(payload, 4 + 40 * n);
      assert tbs[..n + 1] == tbs[..n] + [tbs[n]];
    }

    method ParseTbExecBatch(payload: bytes)
      modifies this
      ensures View() == old(View()).(tbExecs := old(tbExecs) + TbsIn(payload))
    {
      if |payload| < 4 {
        return;
      }
      var count := WordAt(payload, 0, 4);
      var off, n := 4, 0;
      while n < count && off + 40 <= |payload|
        invariant 0 <= n <= EntryCount(payload, 40) && off == 4 + 40 * n
        invariant View() == old(View()).(tbExecs := old(tbExecs) + TbsIn(payload)[..n])
      {
        TbsInStep(payload, n);
        tbExecs := tbExecs + [TbAt(payload, off)];
        off, n := off + 40, n + 1;
      }
      assert TbsIn(payload)[..n] == TbsIn(payload);
    }

    method ParseTbResource(payload: bytes)
      modifies this
      ensures View() == WithResource(old(View()), payload)
    {
      if |payload| < 20 {
        return;
      }
      resources := resources + [TbResource(WordAt(payload, 0, 8), WordAt(payload, 8, 4), WordAt(payload, 12, 8))];
    }

    method ParseDiscontinuity(payload: bytes)
      modifies this
      ensures View() == WithDiscontinuity(old(View()), payload)
    {
      if |payload| < 28 {
        return;
      }
      var kind, fromPc := WordAt(payload, 0, 4), WordAt(payload, 4, 8);
      discons := discons + [Discontinuity(kind, fromPc, WordAt(payload, 12, 8), WordAt(payload, 20, 8))];
    }

    method ParseFooter(payload: bytes)
      modifies this
      ensures View() == WithFooter(old(View()), payload)
    {
      if |payload| < 40 {
        return;
      }
      var flags := WordAt(payload, 32, 4);
      footer := Some(Footer(WordAt(payload, 0, 8), WordAt(payload, 8, 8), WordAt(payload, 16, 8),
                            WordAt(payload, 24, 8), flags % 2 != 0));
    }

    /** Dispatches on the tag. */
    method ParseRecord(tag: u8, payload: bytes)
      modifies this
      ensures View() == WithFrame(old(View()), Frame(tag, payload))
    {
      if tag == TAG_STRING_META {
        ParseStringMeta(payload);
      } else if tag == TAG_SYMBOL_ENTRY {
        ParseSymbolEntry(payload);
      } else if tag == TAG_TB_EXEC_BATCH {
        ParseTbExecBatch(payload);
      } else if tag == TAG_BRANCH_EDGE_BATCH {
        var edges := ParseEdgeBatch(payload);
        branchEdges := branchEdges + edges;
      } else if tag == TAG_FALL_THROUGH_BATCH {
        var edges := ParseEdgeBatch(payload);
        fallThroughs := fallThroughs + edges;
      } else if tag == TAG_DIRECT_CALL_BATCH {
        var calls := ParseEdgeBatch(payload);
        directCalls := directCalls + calls;
      } else if tag == TAG_INDIRECT_CALL_BATCH {
        var calls := ParseEdgeBatch(payload);
        indirectCalls := indirectCalls + calls;
      } else if tag == TAG_TB_RESOURCE {
        ParseTbResource(payload);
      } else if tag == TAG_DISCONTINUITY {
        ParseDiscontinuity(payload);
      } else if tag == TAG_FOOTER {
        ParseFooter(payload);
      }
    }

    /** All edges, branch and fall-through, with duplicates summed. */
    method MergedEdges() returns (merged: EdgeCounts)
      ensures merged == WrappedTally(branchEdges + fallThroughs)
    {
      merged := WrapCounts(branchEdges + fallThroughs);
    }
  }

  /** Edge and call batches have the same layout. */
  method ParseEdgeBatch(payload: bytes) returns (edges: seq<EdgeRecord>)
    ensures edges == EdgesIn(payload)
  {
    edges := [];
    if |payload| < 4 {
      return;
    }
    var count := WordAt(payload, 0, 4);
    var off, n := 4, 0;
    while n < count && off + 24 <= |payload|
      invariant 0 <= n <= EntryCount(payload, 24) && off == 4 + 24 * n
      invariant edges == EdgesIn(payload)[..n]
    {
      assert n < EntryCount(payload, 24);
      assert EdgesIn(payload)[..n + 1] == EdgesIn(payload)[..n] + [EdgeAt(payload, off)];
      edges := edges + [EdgeAt(payload, off)];
      off, n := off + 24, n + 1;
    }
    assert EdgesIn(payload)[..n] == EdgesIn(payload);
  }

  /** Sums the records of each edge in 64-bit arithmetic. */
  method WrapCounts(edges: seq<EdgeRecord>) returns (m: EdgeCounts)
    ensures m == WrappedTally(edges)
  {
    m := map[];
    for i := 0 to |edges|
      invariant m == WrappedTally(edges[..i])
    {
      WrappedTallyStep(edges[..i], edges[i]);
      assert edges[..i + 1] == edges[..i] + [edges[i]];
      m := m[edges[i].Key() := Wrap64(Get(m, edges[i].Key()) + edges[i].count)];
    }
    assert edges[..|edges|] == edges;
  }

  lemma WrappedTallyStep(edges: seq<EdgeRecord>, r: EdgeRecord)
    ensures var m := WrappedTally(edges);
            WrappedTally(edges + [r]) == m[r.Key() := Wrap64(Get(m, r.Key()) + r.count)]
  {
    assert (edges + [r])[..|edges|] == edges;
    assert Wrap64(Wrap64(Get(Tally(edges), r.Key())) + r.count) == Wrap64(Get(Tally(edges), r.Key()) + r.count);
  }

  lemma {:induction false} TallyKeys(edges: seq<EdgeRecord>, e: Edge)
    ensures e in Tally(edges) <==> exists i | 0 <= i < |edges| :: edges[i].Key() == e
  {
    if edges != [] {
      TallyKeys(edges[..|edges| - 1], e);
    }
  }

  /** The map has as many entries as the list has records exactly when no edge repeats. */
  lemma {:induction false} TallySize(edges: seq<EdgeRecord>)
    ensures |Tally(edges)| <= |edges|
    ensures |Tally(edges)| == |edges| <==> DistinctEdges(edges)
  {
    if edges != [] {
      var front, r := edges[..|edges| - 1], edges[|edges| - 1];
      TallySize(front);
      TallyKeys(front, r.Key());
      BumpSize(Tally(front), r.Key(), r.count);
      LastDistinct(edges);
    }
  }

  lemma LastDistinct(edges: seq<EdgeRecord>)
    requires edges != []
    ensures var front, e := edges[..|edges| - 1], edges[|edges| - 1].Key();
            DistinctEdges(edges) <==> DistinctEdges(front) && !exists i | 0 <= i < |front| :: front[i].Key() == e
  {
    var front := edges[..|edges| - 1];
    assert forall i | 0 <= i < |front| :: front[i] == edges[i];
  }

  method MergeEdges(edges: seq<EdgeRecord>) returns (merged: seq<EdgeRecord>)
    ensures IsMerge(edges, merged)
  {
    if |edges| <= 1 {
      return edges;
    }
    var m := WrapCounts(edges);
    TallySize(edges);
    assert m.Keys == Tally(edges).Keys;
    if |m| == |edges| {
      return edges;
    }
    merged := ListEntries(m);
  }

  datatype ParseOutcome = Parsed(profile: Profile) | Failed(error: ParseError)

  method ParseHeader(reader: Reader) returns (r: HeaderResult)
    requires reader.pos == 0
    modifies reader
    ensures reader.Valid() && r == HeaderIn(reader.data)
    ensures r.GoodHeader? ==> reader.pos == HEADER_SIZE
  {
    var magic := reader.ReadWord(8);
    if magic.None? { return BadHeader(TruncatedHeader(MagicField)); }
    if magic.value != FILE_MAGIC { return BadHeader(BadMagic(magic.value)); }
    var version := reader.ReadWord(2);
    if version.None? { return BadHeader(TruncatedHeader(VersionField)); }
    if version.value != 1 { return BadHeader(UnsupportedVersion(version.value)); }
    var tier := reader.ReadExact(1);
    if tier.None? { return BadHeader(TruncatedHeader(TierField)); }
    var pointerSize := reader.ReadExact(1);
    if pointerSize.None? { return BadHeader(TruncatedHeader(PointerSizeField)); }
    if pointerSize.value[0] != 4 && pointerSize.value[0] != 8 {
      return BadHeader(InvalidPointerSize(pointerSize.value[0]));
    }
    var flags := reader.ReadWord(4);
    if flags.None? { return BadHeader(TruncatedHeader(FlagsField)); }
    var loadAddr := reader.ReadWord(8);
    if loadAddr.None? { return BadHeader(TruncatedHeader(LoadAddrField)); }
    var textStart := reader.ReadWord(8);
    if textStart.None? { return BadHeader(TruncatedHeader(TextStartField)); }
    var textEnd := reader.ReadWord(8);
    if textEnd.None? { return BadHeader(TruncatedHeader(TextEndField)); }
    var entry := reader.ReadWord(8);
    if entry.None? { return BadHeader(TruncatedHeader(EntryField)); }
    var buildId := reader.ReadExact(16);
    if buildId.None? { return BadHeader(TruncatedHeader(BuildIdField)); }
    return GoodHeader(FileHeader(version.value, tier.value[0], pointerSize.value[0], flags.value, loadAddr.value,
                                 textStart.value, textEnd.value, entry.value, buildId.value));
  }

  /** Reads and parses one record; false at the end of the file or at a truncated record. */
  method ParseNextRecord(reader: Reader, profile: Profile) returns (more: bool)
    requires reader.Valid()
    modifies reader, profile
    ensures reader.Valid()
    ensures more ==> old(reader.pos) < reader.pos
    ensures more ==> WithFrames(profile.View(), SplitFrames(reader.data[reader.pos..])) ==
                     WithFrames(old(profile.View()), SplitFrames(reader.data[old(reader.pos)..]))
    ensures !more ==> profile.View() == WithFrames(old(profile.View()), SplitFrames(reader.data[old(reader.pos)..]))
  {
    ghost var rest := reader.data[reader.pos..];
    var tag := reader.ReadExact(1);
    if tag.None? {
      return false;
    }
    var len := reader.ReadWord(3);
    if len.None? {
      return false;
    }
    assert reader.pos == old(reader.pos) + 4;
    assert rest[1..4] == reader.data[old(reader.pos) + 1..old(reader.pos) + 4];
    var payload := reader.ReadExact(len.value);
    if payload.None? {
      return false;
    }
    assert payload.value == rest[4..4 + len.value];
    assert rest[4 + len.value..] == reader.data[reader.pos..];
    profile.ParseRecord(tag.value[0], payload.value);
    return true;
  }

  /** Parses a whole file: header, records until the end or a truncated one, then the merges. */
  method Parse(file: bytes) returns (r: ParseOutcome)
    ensures r.Failed? <==> HeaderIn(file).BadHeader?
    ensures r.Failed? ==> r.error == HeaderIn(file).error
    ensures r.Parsed? ==> fresh(r.profile) && IsProfileOf(file, r.profile.View())
  {
    var reader := new Reader(file);
    var header := ParseHeader(reader);
    if header.BadHeader? {
      return Failed(header.error);
    }
    var profile := new Profile(header.header);
    ghost var raw := Unmerged(header.header, file);
    var more := true;
    while more
      invariant reader.Valid() && fresh(reader) && fresh(profile)
      invariant if more then WithFrames(profile.View(), SplitFrames(file[reader.pos..])) == raw
                else profile.View() == raw
      decreases more, |file| - reader.pos
    {
      more := ParseNextRecord(reader, profile);
    }
    var branches := MergeEdges(profile.branchEdges);
    profile.branchEdges := branches;
    var falls := MergeEdges(profile.fallThroughs);
    profile.fallThroughs := falls;
    return Parsed(profile);
  }
}
