/** Blocks as tier 2 reads them: every instruction classified from its own bytes. */
module Decoding {
  import opened Words
  import opened EdgeStorage
  import opened Decoder
  import opened GuestTrace

  ghost predicate DecodedInsn(arch: Arch, insn: Insn) {
    insn.cls == Classify(arch, insn.code, insn.addr, insn.size)
  }

  ghost predicate Decoded(arch: Arch, tb: Tb) {
    forall i | 0 <= i < |tb.insns| :: DecodedInsn(arch, tb.insns[i])
  }

  ghost predicate AllDecoded(arch: Arch, t: Trace) {
    forall i | 0 <= i < |t| && t[i].Translate? :: Decoded(arch, t[i].tb)
  }

  /** The class tier 2 computes is the one the block carries. */
  method ClassOf(arch: Arch, insn: Insn) returns (c: InsnClass)
    requires DecodedInsn(arch, insn)
    ensures c == insn.cls
  {
    c := ClassifyInstruction(arch, insn.code, insn.addr, insn.size);
  }

  /** Tier 2's loop over the instructions: collects the direct calls and branches. */
  method CollectDirects(arch: Arch, insns: seq<Insn>, known: set<Edge>) returns (directs: set<Edge>)
    requires forall i | 0 <= i < |insns| :: DecodedInsn(arch, insns[i])
    ensures directs == known + DirectsIn(insns)
  {
    directs := known;
    for i := 0 to |insns|
      invariant directs == known + DirectsIn(insns[..i])
    {
      assert insns[..i + 1][..i] == insns[..i];
      var cls := ClassOf(arch, insns[i]);
      match cls {
        case Direct(target) => directs := directs + {Edge(insns[i].addr, target)};
        case _ =>
      }
    }
    assert insns[..|insns|] == insns;
  }

  lemma {:induction false} DirectInsnCollected(insns: seq<Insn>, j: nat)
    requires j < |insns| && insns[j].cls.Direct?
    ensures Edge(insns[j].addr, insns[j].cls.target) in DirectsIn(insns)
  {
    if j < |insns| - 1 {
      DirectInsnCollected(insns[..|insns| - 1], j);
    }
  }

  lemma {:induction false} TranslatedDirects(t: Trace, i: nat, e: Edge)
    requires i < |t| && t[i].Translate? && e in DirectsIn(t[i].tb.insns)
    ensures e in DirectCalls(t)
  {
    if i < |t| - 1 {
      TranslatedDirects(t[..|t| - 1], i, e);
    }
  }

  /** An instruction of a translated block whose bytes are a direct branch to `target` is a known direct call. */
  lemma DirectInsnListed(arch: Arch, t: Trace, i: nat, j: nat, target: u64)
    requires AllDecoded(arch, t) && i < |t| && t[i].Translate? && j < |t[i].tb.insns|
    requires var insn := t[i].tb.insns[j]; Classify(arch, insn.code, insn.addr, insn.size) == Direct(target)
    ensures Edge(t[i].tb.insns[j].addr, target) in DirectCalls(t)
  {
    assert DecodedInsn(arch, t[i].tb.insns[j]);
    DirectInsnCollected(t[i].tb.insns, j);
    TranslatedDirects(t, i, Edge(t[i].tb.insns[j].addr, target));
  }

  // ---- Nothing else is a known direct call ----

  /** Instruction `j` is the direct branch or call that `e` describes. */
  predicate IsDirect(insns: seq<Insn>, j: nat, e: Edge) {
    j < |insns| && insns[j].addr == e.from && insns[j].cls == Direct(e.to)
  }

  lemma {:induction false} DirectsAreInsns(insns: seq<Insn>, e: Edge) returns (j: nat)
    requires e in DirectsIn(insns)
    ensures IsDirect(insns, j, e)
  {
    var n := |insns| - 1;
    if e in DirectsIn(insns[..n]) {
      j := DirectsAreInsns(insns[..n], e);
    } else {
      j := n;
    }
  }

  lemma {:induction false} KnownIsTranslated(t: Trace, e: Edge) returns (i: nat)
    requires e in DirectCalls(t)
    ensures i < |t| && t[i].Translate? && e in DirectsIn(t[i].tb.insns)
  {
    var n := |t| - 1;
    if e in DirectCalls(t[..n]) {
      i := KnownIsTranslated(t[..n], e);
    } else {
      i := n;
    }
  }

  /** The known direct calls are exactly the instructions of translated blocks classified so. */
  lemma KnownExactly(t: Trace, e: Edge)
    ensures e in DirectCalls(t) <==> exists i, j | 0 <= i < |t| && t[i].Translate? :: IsDirect(t[i].tb.insns, j, e)
  {
    if e in DirectCalls(t) {
      var i := KnownIsTranslated(t, e);
      var j := DirectsAreInsns(t[i].tb.insns, e);
    }
    if i: nat, j: nat :| i < |t| && t[i].Translate? && IsDirect(t[i].tb.insns, j, e) {
      DirectInsnCollected(t[i].tb.insns, j);
      TranslatedDirects(t, i, e);
    }
  }
}
