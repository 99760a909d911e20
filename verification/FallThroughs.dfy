/** Fall-through counts, derived at exit as executions minus branch entries. */
module FallThroughs {
  import opened Words
  import opened Counting
  import opened EdgeStorage
  import opened GuestTrace
  import opened ExecLaws

  function SatSub(a: nat, b: nat): nat {
    if b <= a then a - b else 0
  }

  ghost predicate HasPredecessor(tbs: map<TbKey, Tb>, a: u64) {
    exists k | k in tbs :: FallThrough(tbs[k]) == a
  }

  ghost function BranchCount(branches: seq<EdgeRecord>, flushed: map<u64, nat>, a: u64): nat {
    Get(flushed, a) + TotalIf(branches, EntersAt(a))
  }

  /** Each block's executions, less the branch entries at its start. */
  ghost function Derived(tbs: map<TbKey, Tb>, exec: map<TbKey, nat>,
                         branches: seq<EdgeRecord>, flushed: map<u64, nat>): map<TbKey, nat>
  {
    map k | k in tbs :: SatSub(Get(exec, k), BranchCount(branches, flushed, Start(tbs[k])))
  }

  /** Record `i` is that of block `keys[i]`. */
  ghost predicate RecordsOf(tbs: map<TbKey, Tb>, part: map<TbKey, nat>, keys: seq<TbKey>, out: seq<EdgeRecord>) {
    && |keys| == |out| && (forall i, j | 0 <= i < j < |keys| :: keys[i] != keys[j])
    && forall i | 0 <= i < |keys| ::
         && keys[i] in tbs && keys[i] in part
         && out[i].to == Start(tbs[keys[i]]) && out[i].count == part[keys[i]] > 0
  }

  /** One record for each block of `part` with a positive count and a predecessor. */
  ghost predicate OneRecordEach(tbs: map<TbKey, Tb>, part: map<TbKey, nat>, reached: set<u64>, out: seq<EdgeRecord>) {
    exists keys :: RecordsOf(tbs, part, keys, out) && ListsReached(tbs, part, reached, keys)
  }

  ghost predicate ListsReached(tbs: map<TbKey, Tb>, part: map<TbKey, nat>, reached: set<u64>, keys: seq<TbKey>) {
    forall k :: k in keys <==> k in part && k in tbs && part[k] > 0 && Start(tbs[k]) in reached
  }

  ghost function Reached(tbs: map<TbKey, Tb>): set<u64> {
    set k | k in tbs :: FallThrough(tbs[k])
  }

  /** What the exit handler may emit; hash order picks one predecessor per address. */
  ghost predicate IsFallThroughDump(tbs: map<TbKey, Tb>, derived: map<TbKey, nat>, out: seq<EdgeRecord>) {
    && (forall a :: TotalIf(out, EntersAt(a)) ==
                    if HasPredecessor(tbs, a) then SumIf(derived, Keyed(tbs, StartsAt(a))) else 0)
    && (forall r | r in out :: r.count > 0 && exists k | k in tbs ::
        FallThrough(tbs[k]) == r.to && End(tbs[k]) == r.from)
    && (forall r, r' | r in out && r' in out && r.to == r'.to :: r.from == r'.from)
    && OneRecordEach(tbs, derived, Reached(tbs), out)
  }

  ghost predicate CountsEntries(counts: map<u64, nat>, branches: seq<EdgeRecord>, flushed: map<u64, nat>) {
    forall a :: Get(counts, a) == BranchCount(branches, flushed, a)
  }

  /** Branch entries per target: those of flushed batches plus those of the merged edges. */
  method CountBranchEntries(branches: seq<EdgeRecord>, flushed: map<u64, nat>) returns (counts: map<u64, nat>)
    ensures CountsEntries(counts, branches, flushed)
  {
    counts := map[];
    var rest := flushed;
    while rest != map[]
      invariant rest.Keys <= flushed.Keys && forall a | a in rest :: rest[a] == flushed[a]
      invariant forall a :: Get(counts, a) + Get(rest, a) == Get(flushed, a)
      decreases |rest|
    {
      var a :| a in rest;
      assert (rest - {a}).Keys == rest.Keys - {a};
      counts := Bump(counts, a, rest[a]);
      rest := rest - {a};
    }
    for i := 0 to |branches|
      invariant forall a :: Get(counts, a) == Get(flushed, a) + TotalIf(branches[..i], EntersAt(a))
    {
      forall a: u64 ensures TotalIf(branches[..i + 1], EntersAt(a)) ==
                       TotalIf(branches[..i], EntersAt(a)) + (if branches[i].to == a then branches[i].count else 0) {
        assert branches[..i + 1] == branches[..i] + [branches[i]];
        TotalIfAppend(branches[..i], [branches[i]], EntersAt(a));
      }
      counts := Bump(counts, branches[i].to, branches[i].count);
    }
    assert branches[..|branches|] == branches;
  }

  ghost predicate ArePredecessors(tbs: map<TbKey, Tb>, predecessors: map<u64, u64>) {
    && (forall a :: a in predecessors <==> HasPredecessor(tbs, a))
    && (forall a | a in predecessors :: exists k | k in tbs ::
        FallThrough(tbs[k]) == a && End(tbs[k]) == predecessors[a])
  }

  /** Maps each fall-through address to the end of some block that falls through to it. */
  method FindPredecessors(tbs: map<TbKey, Tb>) returns (predecessors: map<u64, u64>)
    ensures ArePredecessors(tbs, predecessors)
  {
    predecessors := map[];
    var rest := tbs;
    while rest != map[]
      invariant rest.Keys <= tbs.Keys && forall k | k in rest :: rest[k] == tbs[k]
      invariant forall a | a in predecessors :: exists k | k in tbs ::
                FallThrough(tbs[k]) == a && End(tbs[k]) == predecessors[a]
      invariant forall k | k in tbs && k !in rest :: FallThrough(tbs[k]) in predecessors
      decreases |rest|
    {
      var k :| k in rest;
      assert (rest - {k}).Keys == rest.Keys - {k};
      predecessors := predecessors[FallThrough(rest[k]) := End(rest[k])];
      rest := rest - {k};
    }
  }

  /** The records emitted for the blocks in `part`. */
  ghost predicate Emitted(tbs: map<TbKey, Tb>, part: map<TbKey, nat>, predecessors: map<u64, u64>,
                          out: seq<EdgeRecord>) {
    && (forall a :: TotalIf(out, EntersAt(a)) == EmittedAt(tbs, part, predecessors, a))
    && (forall r | r in out :: r.count > 0 && r.to in predecessors && predecessors[r.to] == r.from)
    && OneRecordEach(tbs, part, predecessors.Keys, out)
  }

  ghost function EmittedAt(tbs: map<TbKey, Tb>, part: map<TbKey, nat>, predecessors: map<u64, u64>, a: u64): nat {
    if a in predecessors then SumIf(part, Keyed(tbs, StartsAt(a))) else 0
  }

  lemma EmitBlock(tbs: map<TbKey, Tb>, part: map<TbKey, nat>, predecessors: map<u64, u64>,
                  out: seq<EdgeRecord>, k: TbKey, ft: nat, out': seq<EdgeRecord>)
    requires Emitted(tbs, part, predecessors, out) && k in tbs && k !in part
    requires var a := Start(tbs[k]);
             if ft > 0 && a in predecessors then out' == out + [EdgeRecord(predecessors[a], a, ft)] else out' == out
    ensures Emitted(tbs, part[k := ft], predecessors, out')
  {
    forall a: u64 ensures TotalIf(out', EntersAt(a)) == EmittedAt(tbs, part[k := ft], predecessors, a) {
      SumIfPut(part, k, ft, Keyed(tbs, StartsAt(a)));
      if out' != out {
        TotalIfAppend(out, [out'[|out|]], EntersAt(a));
      }
    }
    OneRecordMore(tbs, part, predecessors, out, k, ft, out');
  }

  lemma OneRecordMore(tbs: map<TbKey, Tb>, part: map<TbKey, nat>, predecessors: map<u64, u64>,
                      out: seq<EdgeRecord>, k: TbKey, ft: nat, out': seq<EdgeRecord>)
    requires OneRecordEach(tbs, part, predecessors.Keys, out) && k in tbs && k !in part
    requires var a := Start(tbs[k]);
             if ft > 0 && a in predecessors then out' == out + [EdgeRecord(predecessors[a], a, ft)] else out' == out
    ensures OneRecordEach(tbs, part[k := ft], predecessors.Keys, out')
  {
    var keys :| RecordsOf(tbs, part, keys, out) && ListsReached(tbs, part, predecessors.Keys, keys);
    var more := if out' == out then keys else keys + [k];
    RecordsGrow(tbs, part, keys, out, k, ft, out');
    KeysGrow(tbs, part, predecessors.Keys, keys, k, ft);
  }

  lemma RecordsGrow(tbs: map<TbKey, Tb>, part: map<TbKey, nat>, keys: seq<TbKey>, out: seq<EdgeRecord>,
                    k: TbKey, ft: nat, out': seq<EdgeRecord>)
    requires RecordsOf(tbs, part, keys, out) && k in tbs && k !in part
    requires out' == out || (ft > 0 && |out'| == |out| + 1 && out'[..|out|] == out
                             && out'[|out|].to == Start(tbs[k]) && out'[|out|].count == ft)
    ensures RecordsOf(tbs, part[k := ft], if out' == out then keys else keys + [k], out')
  {
    assert forall i | 0 <= i < |keys| :: keys[i] != k;
    if out' != out {
      assert forall i | 0 <= i < |out| :: out'[i] == out[i];
    }
  }

  lemma KeysGrow(tbs: map<TbKey, Tb>, part: map<TbKey, nat>, reached: set<u64>, keys: seq<TbKey>, k: TbKey, ft: nat)
    requires ListsReached(tbs, part, reached, keys) && k in tbs && k !in part
    ensures ListsReached(tbs, part[k := ft], reached, if ft > 0 && Start(tbs[k]) in reached then keys + [k] else keys)
  {
  }

  /** The loop body: one block's record, if it has any fall-throughs and a predecessor. */
  method EmitFallThrough(tbs: map<TbKey, Tb>, predecessors: map<u64, u64>, k: TbKey, total: nat, branched: nat,
                         out: seq<EdgeRecord>, ghost done: map<TbKey, nat>) returns (out': seq<EdgeRecord>)
    requires Emitted(tbs, done, predecessors, out) && k in tbs && k !in done
    ensures Emitted(tbs, done[k := SatSub(total, branched)], predecessors, out')
  {
    var start := Start(tbs[k]);
    var ft := SatSub(total, branched);
    out' := out;
    if total != 0 && ft > 0 && start in predecessors {
      out' := out + [EdgeRecord(predecessors[start], start, ft)];
    }
    EmitBlock(tbs, done, predecessors, out, k, ft, out');
  }

  ghost predicate DerivesFrom(derived: map<TbKey, nat>, tbs: map<TbKey, Tb>,
                              exec: map<TbKey, nat>, counts: map<u64, nat>) {
    derived.Keys == tbs.Keys && forall k | k in tbs :: derived[k] == SatSub(Get(exec, k), Get(counts, Start(tbs[k])))
  }

  method ComputeFallThroughs(tbs: map<TbKey, Tb>, exec: map<TbKey, nat>,
                             branches: seq<EdgeRecord>, flushed: map<u64, nat>)
      returns (out: seq<EdgeRecord>)
    ensures IsFallThroughDump(tbs, Derived(tbs, exec, branches, flushed), out)
  {
    var counts := CountBranchEntries(branches, flushed);
    var predecessors := FindPredecessors(tbs);
    ghost var derived := Derived(tbs, exec, branches, flushed);
    out := EmitAll(tbs, exec, counts, predecessors, derived);
    DumpIsComplete(tbs, derived, predecessors, out);
  }

  /** The last loop of the exit computation, over all blocks in hash order. */
  method EmitAll(tbs: map<TbKey, Tb>, exec: map<TbKey, nat>, counts: map<u64, nat>, predecessors: map<u64, u64>,
                 ghost derived: map<TbKey, nat>) returns (out: seq<EdgeRecord>)
    requires DerivesFrom(derived, tbs, exec, counts)
    ensures Emitted(tbs, derived, predecessors, out)
  {
    out := [];
    var rest := tbs.Keys;
    ghost var done: map<TbKey, nat> := map[];
    NothingEmitted(tbs, predecessors);
    while rest != {}
      invariant rest <= tbs.Keys && done.Keys == tbs.Keys - rest
      invariant forall k | k in done :: done[k] == derived[k]
      invariant Emitted(tbs, done, predecessors, out)
      decreases |rest|
    {
      var k :| k in rest;
      out := EmitFallThrough(tbs, predecessors, k, Get(exec, k), Get(counts, Start(tbs[k])), out, done);
      done := done[k := derived[k]];
      rest := rest - {k};
    }
    assert done == derived;
  }

  lemma DumpIsComplete(tbs: map<TbKey, Tb>, derived: map<TbKey, nat>, predecessors: map<u64, u64>, out: seq<EdgeRecord>)
    requires Emitted(tbs, derived, predecessors, out) && ArePredecessors(tbs, predecessors)
    ensures IsFallThroughDump(tbs, derived, out)
  {
    assert predecessors.Keys == Reached(tbs) by {
      forall a ensures a in predecessors <==> a in Reached(tbs) {
        assert a in predecessors <==> HasPredecessor(tbs, a);
      }
    }
  }

  lemma NothingEmitted(tbs: map<TbKey, Tb>, predecessors: map<u64, u64>)
    ensures Emitted(tbs, map[], predecessors, [])
  {
    forall a: u64 ensures EmittedAt(tbs, map[], predecessors, a) == 0 {
      SumIfEmpty(Keyed(tbs, StartsAt(a)));
    }
    assert RecordsOf(tbs, map[], [], []) && ListsReached(tbs, map[], predecessors.Keys, []);
  }
}
