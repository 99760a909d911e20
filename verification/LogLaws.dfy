/** Crash tolerance, merging, and the footer. */
module LogLaws {
  import opened Words
  import opened Counting
  import opened Bytes
  import opened EdgeStorage
  import opened LogFormat
  import opened NativeParser
  import opened LogRoundTrip

  // ---- Merging ----

  lemma DistinctTotals(batch: seq<EdgeRecord>, e: Edge)
    requires DistinctEdges(batch) && AllFit(batch)
    ensures TotalIf(batch, Is(e)) < TWO_64
  {
    TallyTotals(batch, Is(e));
    SumIfOneEdge(Tally(batch), e);
    DistinctTally(batch, e);
  }

  lemma {:induction false} DistinctTally(batch: seq<EdgeRecord>, e: Edge)
    requires DistinctEdges(batch) && AllFit(batch)
    ensures Get(Tally(batch), e) < TWO_64
  {
    if batch != [] {
      var front := batch[..|batch| - 1];
      DistinctTally(front, e);
      TallyKeys(front, e);
      assert forall i | 0 <= i < |front| :: front[i] == batch[i];
    }
  }

  /**
   Merging keeps every edge's total modulo 2^64, leaves no duplicates and loses no edge.
   */
  lemma MergeKeepsTotals(raw: seq<EdgeRecord>, merged: seq<EdgeRecord>, e: Edge)
    requires IsMerge(raw, merged) && AllFit(raw)
    ensures DistinctEdges(merged) && AllFit(merged)
    ensures TotalIf(merged, Is(e)) == Wrap64(TotalIf(raw, Is(e)))
    ensures e in Tally(merged) <==> e in Tally(raw)
  {
    if DistinctEdges(raw) {
      DistinctTotals(raw, e);
    } else {
      EnumerationTotals(merged, WrappedTally(raw), Is(e));
      SumIfOneEdge(WrappedTally(raw), e);
      TallyTotals(raw, Is(e));
      SumIfOneEdge(Tally(raw), e);
      EnumerationKeys(merged, WrappedTally(raw), e);
    }
  }

  lemma EnumerationKeys(batch: seq<EdgeRecord>, m: EdgeCounts, e: Edge)
    requires Enumerates(batch, m)
    ensures e in Tally(batch) <==> e in m
  {
    TallyKeys(batch, e);
    if e in m {
      EnumerationCovers(batch, m, e);
      var i :| 0 <= i < |batch| && batch[i] == EdgeRecord(e.from, e.to, m[e]);
      assert batch[i].Key() == e;
    }
  }

  /** Merging twice is merging once. */
  lemma MergeIsIdempotent(raw: seq<EdgeRecord>, once: seq<EdgeRecord>, twice: seq<EdgeRecord>)
    requires IsMerge(raw, once) && IsMerge(once, twice)
    ensures twice == once
  {
  }

  // ---- Crash tolerance ----

  /** The number of bytes the first `j` records take. */
  function SizeOf(fs: seq<Frame>): nat {
    |EncodeFrames(fs)|
  }

  /** `j` is the number of records that lie wholly within the first `n` bytes. */
  ghost predicate WhollyBefore(fs: seq<Frame>, n: nat, j: nat) {
    j <= |fs| && SizeOf(fs[..j]) <= n && (j < |fs| ==> n < SizeOf(fs[..j + 1]))
  }

  lemma SplitFirst(b: bytes, end: nat)
    requires |b| >= 4 && end == 4 + LengthAt(b, 1) <= |b|
    ensures SplitFrames(b) == [Frame(b[0], b[4..end])] + SplitFrames(b[end..])
  {
    var whole := SplitFrames(b);
    assert |b| >= 4 && |b| >= 4 + LengthAt(b, 1);
    assert whole == [Frame(b[0], b[4..4 + LengthAt(b, 1)])] + SplitFrames(b[4 + LengthAt(b, 1)..]);
  }

  /** Cutting any byte string keeps exactly the records that lie wholly before the cut. */
  lemma {:induction false} CutFrames(b: bytes, n: nat) returns (j: nat)
    requires n <= |b|
    ensures WhollyBefore(SplitFrames(b), n, j)
    ensures SplitFrames(b[..n]) == SplitFrames(b)[..j]
    decreases |b|
  {
    if SplitFrames(b) == [] {
      j := 0;
      NothingToCut(b, n);
    } else {
      var end := 4 + LengthAt(b, 1);
      if end <= n {
        var i := CutFrames(b[end..], n - end);
        CutPastFirst(b, n, end, i);
        j := i + 1;
      } else {
        j := 0;
        CutInFirst(b, n);
      }
    }
  }

  lemma NothingToCut(b: bytes, n: nat)
    requires n <= |b| && SplitFrames(b) == []
    ensures SplitFrames(b[..n]) == [] && WhollyBefore([], n, 0)
  {
    if n >= 4 {
      assert b[..n][1..4] == b[1..4];
    }
  }

  lemma CutPastFirst(b: bytes, n: nat, end: nat, i: nat)
    requires n <= |b| && SplitFrames(b) != [] && end == 4 + LengthAt(b, 1) <= n
    requires WhollyBefore(SplitFrames(b[end..]), n - end, i)
    requires SplitFrames(b[end..][..n - end]) == SplitFrames(b[end..])[..i]
    ensures WhollyBefore(SplitFrames(b), n, i + 1)
    ensures SplitFrames(b[..n]) == SplitFrames(b)[..i + 1]
  {
    var first, rest := Frame(b[0], b[4..end]), SplitFrames(b[end..]);
    FirstFrameSize(b);
    SplitFirst(b, end);
    CutKeepsFirst(b, n, end);
    var all := [first] + rest;
    assert all[1..] == rest;
    assert all[..i + 1] == [first] + rest[..i];
    PrependFrame(all, n, end, i);
  }

  lemma CutKeepsFirst(b: bytes, n: nat, end: nat)
    requires n <= |b| && |b| >= 4 && end == 4 + LengthAt(b, 1) <= n
    ensures SplitFrames(b[..n]) == [Frame(b[0], b[4..end])] + SplitFrames(b[end..][..n - end])
  {
    var c := b[..n];
    assert c[1..4] == b[1..4] && c[4..end] == b[4..end] && c[end..] == b[end..][..n - end];
    SplitFirst(c, end);
  }

  lemma CutInFirst(b: bytes, n: nat)
    requires n <= |b| && SplitFrames(b) != [] && n < 4 + LengthAt(b, 1)
    ensures SplitFrames(b[..n]) == [] && WhollyBefore(SplitFrames(b), n, 0)
  {
    FirstFrameSize(b);
    if n >= 4 {
      assert b[..n][1..4] == b[1..4];
    }
  }

  lemma FirstFrameSize(b: bytes)
    requires SplitFrames(b) != []
    ensures SizeOf([SplitFrames(b)[0]]) == 4 + LengthAt(b, 1) == SizeOf(SplitFrames(b)[..1])
  {
    assert SplitFrames(b)[..1] == [SplitFrames(b)[0]];
    assert EncodeFrames([SplitFrames(b)[0]]) == EncodeFrame(SplitFrames(b)[0]);
  }

  lemma PrependFrame(fs: seq<Frame>, n: nat, end: nat, j: nat)
    requires fs != [] && SizeOf([fs[0]]) == end <= n
    requires WhollyBefore(fs[1..], n - end, j)
    ensures WhollyBefore(fs, n, j + 1)
  {
    assert fs[..j + 1] == [fs[0]] + fs[1..][..j];
    EncodeFramesAppend([fs[0]], fs[1..][..j]);
    if j + 1 < |fs| {
      assert fs[..j + 2] == [fs[0]] + fs[1..][..j + 1];
      EncodeFramesAppend([fs[0]], fs[1..][..j + 1]);
    }
  }

  /**
   Crash tolerance, for any file with a good header and any cut after the header: the cut file parses,
   with the same header, to exactly the profile of the records that lie wholly before the cut.
   */
  lemma CutFileParses(b: bytes, n: nat) returns (j: nat)
    requires HeaderIn(b).GoodHeader? && HEADER_SIZE <= n <= |b|
    ensures HeaderIn(b[..n]) == HeaderIn(b)
    ensures var fs := SplitFrames(b[HEADER_SIZE..]);
            && WhollyBefore(fs, n - HEADER_SIZE, j)
            && Unmerged(HeaderIn(b).header, b[..n]) == WithFrames(EmptyProfile(HeaderIn(b).header), fs[..j])
  {
    HeaderInPrefix(b, n);
    j := CutFrames(b[HEADER_SIZE..], n - HEADER_SIZE);
    assert b[..n][HEADER_SIZE..] == b[HEADER_SIZE..][..n - HEADER_SIZE];
  }

  lemma HeaderInPrefix(b: bytes, n: nat)
    requires HeaderIn(b).GoodHeader? && HEADER_SIZE <= n <= |b|
    ensures HeaderIn(b[..n]) == HeaderIn(b)
  {
    var c := b[..n];
    assert c[0..8] == b[0..8] && c[8..10] == b[8..10] && c[12..16] == b[12..16] && c[16..24] == b[16..24];
    assert c[24..32] == b[24..32] && c[32..40] == b[32..40] && c[40..48] == b[40..48] && c[48..64] == b[48..64];
  }

  /** Every list of `p` is a prefix of the list in `q`. */
  predicate Extends(p: ProfileData, q: ProfileData) {
    && p.header == q.header && p.metadata.Keys <= q.metadata.Keys
    && p.symbols <= q.symbols && p.tbExecs <= q.tbExecs
    && p.branchEdges <= q.branchEdges && p.fallThroughs <= q.fallThroughs
    && p.directCalls <= q.directCalls && p.indirectCalls <= q.indirectCalls
    && p.resources <= q.resources && p.discons <= q.discons
    && (p.footer.Some? ==> q.footer.Some?)
  }

  lemma {:induction false} FramesOnlyAdd(p: ProfileData, fs: seq<Frame>)
    ensures Extends(p, WithFrames(p, fs))
    decreases |fs|
  {
    if fs != [] {
      FrameOnlyAdds(p, fs[0]);
      FramesOnlyAdd(WithFrame(p, fs[0]), fs[1..]);
    }
  }

  lemma FrameOnlyAdds(p: ProfileData, f: Frame)
    ensures Extends(p, WithFrame(p, f))
  {
  }

  /** Edge totals of a prefix are no larger. */
  lemma PrefixTotals(a: seq<EdgeRecord>, b: seq<EdgeRecord>, q: Edge -> bool)
    requires a <= b
    ensures TotalIf(a, q) <= TotalIf(b, q)
  {
    assert b == a + b[|a|..];
    TotalIfAppend(a, b[|a|..], q);
  }

  /** A footer is there only if a footer record is. */
  lemma {:induction false} FooterNeedsItsRecord(p: ProfileData, fs: seq<Frame>)
    requires p.footer.None?
    ensures WithFrames(p, fs).footer.Some? ==> exists i | 0 <= i < |fs| :: fs[i].tag == TAG_FOOTER
    decreases |fs|
  {
    if fs != [] {
      if fs[0].tag != TAG_FOOTER {
        FooterNeedsItsRecord(WithFrame(p, fs[0]), fs[1..]);
        assert forall i | 0 <= i < |fs| - 1 :: fs[1..][i] == fs[i + 1];
      }
    }
  }

  /** What survives a crash: the lists of the cut file are prefixes of the full ones. */
  lemma CutListsArePrefixes(b: bytes, n: nat)
    requires HeaderIn(b).GoodHeader? && HEADER_SIZE <= n <= |b|
    ensures Extends(Unmerged(HeaderIn(b).header, b[..n]), Unmerged(HeaderIn(b).header, b))
  {
    var h := HeaderIn(b).header;
    var j := CutFileParses(b, n);
    var fs := SplitFrames(b[HEADER_SIZE..]);
    assert fs == fs[..j] + fs[j..];
    WithFramesAppend(EmptyProfile(h), fs[..j], fs[j..]);
    FramesOnlyAdd(Unmerged(h, b[..n]), fs[j..]);
  }

  /**
   After merging, each edge's count in the cut profile is no larger than in the full one, as long as
   the edge's full total fits 64 bits.
   */
  lemma CutCountsAreNoLarger(b: bytes, n: nat, whole: ProfileData, cut: ProfileData, e: Edge)
    requires HeaderIn(b).GoodHeader? && HEADER_SIZE <= n <= |b|
    requires IsProfileOf(b, whole) && IsProfileOf(b[..n], cut)
    requires TotalIf(Unmerged(HeaderIn(b).header, b).branchEdges, Is(e)) < TWO_64
    requires TotalIf(Unmerged(HeaderIn(b).header, b).fallThroughs, Is(e)) < TWO_64
    ensures TotalIf(cut.branchEdges, Is(e)) <= TotalIf(whole.branchEdges, Is(e))
    ensures TotalIf(cut.fallThroughs, Is(e)) <= TotalIf(whole.fallThroughs, Is(e))
  {
    var h := HeaderIn(b).header;
    HeaderInPrefix(b, n);
    CutListsArePrefixes(b, n);
    var raw, part := Unmerged(h, b), Unmerged(h, b[..n]);
    ParsedCountsFit(EmptyProfile(h), SplitFrames(b[HEADER_SIZE..]));
    CutMergeIsNoLarger(raw.branchEdges, part.branchEdges, whole.branchEdges, cut.branchEdges, e);
    CutMergeIsNoLarger(raw.fallThroughs, part.fallThroughs, whole.fallThroughs, cut.fallThroughs, e);
  }

  lemma CutMergeIsNoLarger(raw: seq<EdgeRecord>, part: seq<EdgeRecord>, whole: seq<EdgeRecord>, cut: seq<EdgeRecord>,
      e: Edge)
    requires part <= raw && AllFit(raw) && TotalIf(raw, Is(e)) < TWO_64
    requires IsMerge(raw, whole) && IsMerge(part, cut)
    ensures TotalIf(cut, Is(e)) <= TotalIf(whole, Is(e))
  {
    PrefixTotals(part, raw, Is(e));
    PrefixFits(part, raw);
    SmallMergeIsExact(raw, whole, e);
    SmallMergeIsExact(part, cut, e);
  }

  lemma SmallMergeIsExact(raw: seq<EdgeRecord>, merged: seq<EdgeRecord>, e: Edge)
    requires IsMerge(raw, merged) && AllFit(raw) && TotalIf(raw, Is(e)) < TWO_64
    ensures TotalIf(merged, Is(e)) == TotalIf(raw, Is(e))
  {
    MergeKeepsTotals(raw, merged, e);
  }

  lemma PrefixFits(part: seq<EdgeRecord>, raw: seq<EdgeRecord>)
    requires part <= raw && AllFit(raw)
    ensures AllFit(part)
  {
    assert forall i | 0 <= i < |part| :: part[i] == raw[i];
  }

  /** A footer survives only if a footer record lies wholly before the cut. */
  lemma CutFooterNeedsWholeRecord(b: bytes, n: nat) returns (j: nat)
    requires HeaderIn(b).GoodHeader? && HEADER_SIZE <= n <= |b|
    ensures WhollyBefore(SplitFrames(b[HEADER_SIZE..]), n - HEADER_SIZE, j)
    ensures Unmerged(HeaderIn(b).header, b[..n]).footer.Some? ==>
              exists i | 0 <= i < j :: SplitFrames(b[HEADER_SIZE..])[i].tag == TAG_FOOTER
  {
    j := CutFileParses(b, n);
    var fs := SplitFrames(b[HEADER_SIZE..])[..j];
    FooterNeedsItsRecord(EmptyProfile(HeaderIn(b).header), fs);
    assert forall i | 0 <= i < j :: fs[i] == SplitFrames(b[HEADER_SIZE..])[i];
  }

  /** Whatever the bytes, parsed counts are 64-bit. */
  lemma {:induction false} ParsedCountsFit(p: ProfileData, fs: seq<Frame>)
    requires AllFit(p.branchEdges) && AllFit(p.fallThroughs)
    ensures AllFit(WithFrames(p, fs).branchEdges) && AllFit(WithFrames(p, fs).fallThroughs)
    decreases |fs|
  {
    if fs != [] {
      FrameCountsFit(p, fs[0]);
      ParsedCountsFit(WithFrame(p, fs[0]), fs[1..]);
    }
  }

  lemma FrameCountsFit(p: ProfileData, f: Frame)
    requires AllFit(p.branchEdges) && AllFit(p.fallThroughs)
    ensures AllFit(WithFrame(p, f).branchEdges) && AllFit(WithFrame(p, f).fallThroughs)
  {
    assert AllFit(EdgesIn(f.payload));
  }

  // ---- The footer ----

  /** The footer of a cleanly closed log, against what the rest of the log holds. */
  ghost predicate FooterAgrees(p: ProfileData, t: Totals) {
    && t.tbs == Wrap64(|p.tbExecs|)
    && t.edges == Wrap64(|p.branchEdges| + |p.fallThroughs|)
    && t.execs == Wrap64(SumExecs(p.tbExecs))
  }

  lemma {:induction false} SumExecsAppend(a: seq<TbExec>, b: seq<TbExec>)
    ensures SumExecs(a + b) == SumExecs(a) + SumExecs(b)
  {
    if a == [] {
      assert a + b == b;
    } else {
      assert (a + b)[1..] == a[1..] + b;
      SumExecsAppend(a[1..], b);
    }
  }

  lemma WrapAdd(a: nat, b: nat)
    ensures Wrap64(Wrap64(a) + b) == Wrap64(a + b)
  {
  }

  /** The running totals are those of the records written, before any merging. */
  lemma {:induction false} TotalsAgree(h: FileHeader, calls: seq<Call>)
    ensures FooterAgrees(WithCalls(EmptyProfile(h), calls), TotalsOf(calls))
  {
    if calls != [] {
      var front, call := calls[..|calls| - 1], calls[|calls| - 1];
      TotalsAgree(h, front);
      TotalsStep(WithCalls(EmptyProfile(h), front), TotalsOf(front), call);
    }
  }

  lemma TotalsStep(p: ProfileData, t: Totals, call: Call)
    requires FooterAgrees(p, t)
    ensures FooterAgrees(WithCall(p, call), CallTotals(t, call))
  {
    match call
    case TbExecBatch(tbs) =>
      SumExecsAppend(p.tbExecs, tbs);
      WrapAdd(|p.tbExecs|, |tbs|);
      WrapAdd(SumExecs(p.tbExecs), SumExecs(tbs));
    case BranchBatch(es) => WrapAdd(|p.branchEdges| + |p.fallThroughs|, |es|);
    case FallThroughBatch(es) => WrapAdd(|p.branchEdges| + |p.fallThroughs|, |es|);
    case _ =>
  }

  function ClosingCall(calls: seq<Call>, wallTime: u64): Call {
    var t := TotalsOf(calls);
    WriteFooter(t.tbs, t.edges, t.execs, wallTime)
  }

  function FooterTotals(f: Footer): Totals {
    Totals(f.totalTbs, f.totalEdges, f.totalExecs)
  }

  /**
   Footer conservation: in a log closed by the writer's footer, the parsed footer's totals are the
   parsed block records, the edge records before merging, and the summed executions, modulo 2^64.
   */
  lemma FooterConserved(h: FileHeader, calls: seq<Call>, wallTime: u64, p: ProfileData)
    requires ValidHeader(h) && ValidCalls(calls)
    requires IsProfileOf(Log(h, calls + [ClosingCall(calls, wallTime)]), p)
    ensures p.footer.Some? && p.footer.value.cleanExit
    ensures var raw := WithCalls(EmptyProfile(h), calls);
            && p.tbExecs == raw.tbExecs && IsMerge(raw.branchEdges, p.branchEdges)
            && IsMerge(raw.fallThroughs, p.fallThroughs)
            && FooterAgrees(raw, FooterTotals(p.footer.value))
  {
    ParsedLog(h, calls + [ClosingCall(calls, wallTime)], p);
    ClosedProfile(h, calls, wallTime);
  }

  lemma ClosedProfile(h: FileHeader, calls: seq<Call>, wallTime: u64)
    ensures var p := WithCalls(EmptyProfile(h), calls + [ClosingCall(calls, wallTime)]);
            var raw := WithCalls(EmptyProfile(h), calls);
            && p == raw.(footer := p.footer) && p.footer.Some? && p.footer.value.cleanExit
            && FooterAgrees(raw, FooterTotals(p.footer.value))
  {
    assert (calls + [ClosingCall(calls, wallTime)])[..|calls|] == calls;
    TotalsAgree(h, calls);
  }
}
