/** The temporal trace: executed functions in the order they were first seen. */
module Temporal {
  import opened Words
  import opened Bytes
  import opened LogFormat
  import opened ElfIndex
  import Sorting

  datatype Func = Func(name: bytes, seen: u64)

  /** How a symbol index names addresses. */
  function Lookup(index: Table): u64 -> bytes {
    (addr: u64) => NameAt(index, addr)
  }

  /** An executed, numbered block of the named function. */
  predicate BlockOf(tb: TbExec, nameOf: u64 -> bytes, name: bytes) {
    tb.execCount != 0 && tb.firstSeen != 0 && nameOf(tb.start) == name && name != UNKNOWN
  }

  /** `f.seen` is the least number of the function's executed blocks. */
  ghost predicate FirstSeen(tbs: seq<TbExec>, nameOf: u64 -> bytes, f: Func) {
    && (exists i | 0 <= i < |tbs| :: BlockOf(tbs[i], nameOf, f.name) && tbs[i].firstSeen == f.seen)
    && (forall i | 0 <= i < |tbs| && BlockOf(tbs[i], nameOf, f.name) :: f.seen <= tbs[i].firstSeen)
  }

  ghost predicate Minima(tbs: seq<TbExec>, nameOf: u64 -> bytes, m: map<bytes, u64>) {
    && (forall name | name in m :: FirstSeen(tbs, nameOf, Func(name, m[name])))
    && (forall i, name | 0 <= i < |tbs| && BlockOf(tbs[i], nameOf, name) :: name in m)
  }

  /** Groups blocks by function, lowering each function's minimum block by block. */
  method GroupByFunction(tbs: seq<TbExec>, index: Table) returns (m: map<bytes, u64>)
    ensures Minima(tbs, Lookup(index), m)
  {
    m := map[];
    for n := 0 to |tbs|
      invariant Minima(tbs[..n], Lookup(index), m)
    {
      var tb := tbs[n];
      ghost var before := m;
      assert tbs[..n + 1] == tbs[..n] + [tb];
      if tb.execCount != 0 && tb.firstSeen != 0 {
        var name := NameAt(index, tb.start);
        if name != UNKNOWN {
          var entry: u64 := if name in m then m[name] else 0xFFFF_FFFF_FFFF_FFFF;
          if tb.firstSeen < entry {
            entry := tb.firstSeen;
          }
          m := m[name := entry];
          GroupStep(tbs[..n], tb, Lookup(index), before, name, entry);
        }
      }
      if m == before {
        IgnoredStep(tbs[..n], tb, Lookup(index), m);
      }
    }
    assert tbs[..|tbs|] == tbs;
  }

  /** One more block can only lower a function's first number to its own. */
  lemma StillFirst(seen: seq<TbExec>, tb: TbExec, nameOf: u64 -> bytes, f: Func)
    requires FirstSeen(seen, nameOf, f)
    ensures FirstSeen(seen + [tb], nameOf,
                      if BlockOf(tb, nameOf, f.name) && tb.firstSeen < f.seen then Func(f.name, tb.firstSeen) else f)
  {
    var i :| 0 <= i < |seen| && BlockOf(seen[i], nameOf, f.name) && seen[i].firstSeen == f.seen;
    var all := seen + [tb];
    assert all[i] == seen[i] && all[|seen|] == tb;
  }

  lemma NewFirst(seen: seq<TbExec>, tb: TbExec, nameOf: u64 -> bytes, m: map<bytes, u64>, name: bytes)
    requires Minima(seen, nameOf, m) && BlockOf(tb, nameOf, name) && name !in m
    ensures FirstSeen(seen + [tb], nameOf, Func(name, tb.firstSeen))
  {
    assert forall j | 0 <= j < |seen| :: !BlockOf(seen[j], nameOf, name);
    assert (seen + [tb])[|seen|] == tb;
  }

  lemma IgnoredStep(seen: seq<TbExec>, tb: TbExec, nameOf: u64 -> bytes, m: map<bytes, u64>)
    requires Minima(seen, nameOf, m)
    requires forall name | BlockOf(tb, nameOf, name) :: name in m && m[name] <= tb.firstSeen
    ensures Minima(seen + [tb], nameOf, m)
  {
    forall name | name in m ensures FirstSeen(seen + [tb], nameOf, Func(name, m[name])) {
      StillFirst(seen, tb, nameOf, Func(name, m[name]));
    }
  }

  lemma GroupStep(seen: seq<TbExec>, tb: TbExec, nameOf: u64 -> bytes, before: map<bytes, u64>, name: bytes, entry: u64)
    requires Minima(seen, nameOf, before) && BlockOf(tb, nameOf, name)
    requires entry == if name in before then Min(before[name], tb.firstSeen) else tb.firstSeen
    ensures Minima(seen + [tb], nameOf, before[name := entry])
  {
    var m := before[name := entry];
    forall other | other in m ensures FirstSeen(seen + [tb], nameOf, Func(other, m[other])) {
      if other in before {
        StillFirst(seen, tb, nameOf, Func(other, before[other]));
      } else {
        NewFirst(seen, tb, nameOf, before, name);
      }
    }
  }

  // ---- The list ----

  function BySeen(): Func -> int {
    (f: Func) => f.seen
  }

  ghost predicate NamesOnce(funcs: seq<Func>) {
    forall i, j | 0 <= i < j < |funcs| :: funcs[i].name != funcs[j].name
  }

  /** Every executed, known function once, with its first number, in the order of these numbers. */
  ghost predicate Lists(tbs: seq<TbExec>, nameOf: u64 -> bytes, funcs: seq<Func>) {
    && (forall f :: f in funcs <==> FirstSeen(tbs, nameOf, f))
    && NamesOnce(funcs)
    && (forall i, j | 0 <= i < j < |funcs| :: funcs[i].seen <= funcs[j].seen)
  }

  /** Takes the entries out of the map in any order and sorts them. */
  method FunctionOrder(tbs: seq<TbExec>, index: Table) returns (funcs: seq<Func>)
    ensures Lists(tbs, Lookup(index), funcs)
  {
    var m := GroupByFunction(tbs, index);
    var entries := EntriesOf(m);
    funcs := Sorting.SortByKey(entries, BySeen());
    SortedEntriesList(tbs, Lookup(index), m, entries, funcs);
  }

  method EntriesOf(m: map<bytes, u64>) returns (entries: seq<Func>)
    ensures forall f :: f in entries <==> f.name in m && m[f.name] == f.seen
    ensures NamesOnce(entries)
  {
    entries := [];
    var rest := m.Keys;
    while rest != {}
      invariant rest <= m.Keys
      invariant forall f :: f in entries <==> f.name in m && f.name !in rest && m[f.name] == f.seen
      invariant NamesOnce(entries)
      decreases |rest|
    {
      var name :| name in rest;
      assert forall f | f in entries :: f.name != name;
      entries := entries + [Func(name, m[name])];
      rest := rest - {name};
    }
  }

  lemma FirstSeenUnique(tbs: seq<TbExec>, nameOf: u64 -> bytes, f: Func, g: Func)
    requires FirstSeen(tbs, nameOf, f) && FirstSeen(tbs, nameOf, g) && f.name == g.name
    ensures f == g
  {
  }

  lemma SortedEntriesList(tbs: seq<TbExec>, nameOf: u64 -> bytes, m: map<bytes, u64>, entries: seq<Func>,
      funcs: seq<Func>)
    requires Minima(tbs, nameOf, m) && NamesOnce(entries)
    requires forall f :: f in entries <==> f.name in m && m[f.name] == f.seen
    requires Sorting.SortedBy(funcs, BySeen()) && multiset(funcs) == multiset(entries)
    ensures Lists(tbs, nameOf, funcs)
  {
    Sorting.PermutationKeepsMembers(entries, funcs);
    Sorting.PermutationKeepsDistinct(entries, funcs);
    forall f ensures f in funcs <==> FirstSeen(tbs, nameOf, f) {
      if FirstSeen(tbs, nameOf, f) {
        assert f.name in m;
        FirstSeenUnique(tbs, nameOf, f, Func(f.name, m[f.name]));
      }
      if f in funcs {
        assert f == Func(f.name, m[f.name]);
      }
    }
    forall i, j | 0 <= i < j < |funcs| ensures funcs[i].seen <= funcs[j].seen && funcs[i].name != funcs[j].name {
      assert BySeen()(funcs[i]) <= BySeen()(funcs[j]);
      assert funcs[i] in funcs && funcs[j] in funcs;
    }
  }

  // ---- Independence of the hash order ----

  ghost predicate Increasing(funcs: seq<Func>) {
    forall i, j | 0 <= i < j < |funcs| :: funcs[i].seen < funcs[j].seen
  }

  lemma {:induction false} IncreasingIsUnique(a: seq<Func>, b: seq<Func>)
    requires Increasing(a) && Increasing(b) && forall f :: f in a <==> f in b
    ensures a == b
  {
    assert a != [] ==> a[0] in b;
    assert b != [] ==> b[0] in a;
    if a != [] {
      SameFirst(a, b);
      forall f ensures f in a[1..] <==> f in b[1..] {
        RestMembers(a, f);
        RestMembers(b, f);
      }
      IncreasingIsUnique(a[1..], b[1..]);
      assert a == [a[0]] + a[1..] && b == [b[0]] + b[1..];
    }
  }

  lemma SameFirst(a: seq<Func>, b: seq<Func>)
    requires Increasing(a) && Increasing(b) && a != [] && b != [] && a[0] in b && b[0] in a
    ensures a[0] == b[0]
  {
  }

  lemma RestMembers(a: seq<Func>, f: Func)
    requires Increasing(a) && a != []
    ensures f in a[1..] <==> f in a && f != a[0]
  {
    if f in a && f != a[0] {
      var i :| 0 <= i < |a| && a[i] == f;
      assert a[1..][i - 1] == f;
    }
  }

  lemma SwapTied(tbs: seq<TbExec>, nameOf: u64 -> bytes, funcs: seq<Func>, i: nat, j: nat) returns (other: seq<Func>)
    requires Lists(tbs, nameOf, funcs) && i < j < |funcs| && funcs[i].seen == funcs[j].seen
    ensures Lists(tbs, nameOf, other) && other != funcs
  {
    other := funcs[i := funcs[j]][j := funcs[i]];
    assert other[i] == funcs[j] && other[j] == funcs[i];
    assert forall k | 0 <= k < |funcs| && k != i && k != j :: other[k] == funcs[k];
    assert |other| == |funcs|;
    forall f ensures f in other <==> f in funcs {
      if f in funcs {
        var k :| 0 <= k < |funcs| && funcs[k] == f;
        assert other[if k == i then j else if k == j then i else k] == f;
      }
    }
  }

  /** The list does not depend on the hash order exactly when no two functions share a first number. */
  lemma OrderIsDetermined(tbs: seq<TbExec>, nameOf: u64 -> bytes, funcs: seq<Func>)
    requires Lists(tbs, nameOf, funcs)
    ensures (forall other: seq<Func> | Lists(tbs, nameOf, other) :: other == funcs) <==> Increasing(funcs)
  {
    if Increasing(funcs) {
      forall other: seq<Func> | Lists(tbs, nameOf, other) ensures other == funcs {
        assert forall f :: f in other <==> f in funcs;
        assert Increasing(other) by {
          forall i, j | 0 <= i < j < |other| ensures other[i].seen < other[j].seen {
            assert other[i] in funcs && other[j] in funcs && other[i] != other[j];
          }
        }
        IncreasingIsUnique(other, funcs);
      }
    } else {
      var i, j :| 0 <= i < j < |funcs| && funcs[i].seen >= funcs[j].seen;
      var other := SwapTied(tbs, nameOf, funcs, i, j);
    }
  }

  // ---- What the scan says ----

  /** An executed, numbered block whose start lies in symbol `s`. */
  ghost predicate RunsIn(tb: TbExec, index: Table, s: Symbol) {
    tb.execCount != 0 && tb.firstSeen != 0 && ScanFinds(index, tb.start, s)
  }

  /** Some block numbered `f.seen` runs in a symbol of this name. */
  ghost predicate RanAs(tbs: seq<TbExec>, index: Table, f: Func) {
    exists i, s | 0 <= i < |tbs| && RunsIn(tbs[i], index, s) :: s.name == f.name && tbs[i].firstSeen == f.seen
  }

  /** No block that runs in a symbol of this name has a smaller number. */
  ghost predicate NoneEarlier(tbs: seq<TbExec>, index: Table, f: Func) {
    forall i, s | 0 <= i < |tbs| && RunsIn(tbs[i], index, s) && s.name == f.name :: f.seen <= tbs[i].firstSeen
  }

  /** Whatever the index, a listed function has run: a block with its number starts in a symbol of its name. */
  lemma ListedFunctionRan(tbs: seq<TbExec>, index: Table, funcs: seq<Func>, f: Func)
    requires Lists(tbs, Lookup(index), funcs) && f in funcs
    ensures RanAs(tbs, index, f) && f.name != UNKNOWN
  {
    var i :| 0 <= i < |tbs| && BlockOf(tbs[i], Lookup(index), f.name) && tbs[i].firstSeen == f.seen;
    NamedByContaining(index, tbs[i].start);
    var s :| ScanFinds(index, tbs[i].start, s) && s.name == f.name;
    assert RunsIn(tbs[i], index, s);
  }

  lemma RunsInIsBlockOf(tb: TbExec, index: Table, s: Symbol)
    requires RefinesScan(index) && RunsIn(tb, index, s) && s.name != UNKNOWN
    ensures BlockOf(tb, Lookup(index), s.name)
  {
    ContainingGivesName(index, tb.start, s);
  }

  /** When the index agrees with the scan, the list is what the scan says: each function with its least number. */
  lemma ListedByScan(tbs: seq<TbExec>, index: Table, funcs: seq<Func>, f: Func)
    requires Lists(tbs, Lookup(index), funcs) && RefinesScan(index)
    ensures f in funcs <==> f.name != UNKNOWN && RanAs(tbs, index, f) && NoneEarlier(tbs, index, f)
  {
    if f in funcs {
      ListedFunctionRan(tbs, index, funcs, f);
      forall i, s | 0 <= i < |tbs| && RunsIn(tbs[i], index, s) && s.name == f.name ensures f.seen <= tbs[i].firstSeen {
        RunsInIsBlockOf(tbs[i], index, s);
      }
    }
    if f.name != UNKNOWN && RanAs(tbs, index, f) && NoneEarlier(tbs, index, f) {
      ScannedIsFirstSeen(tbs, index, f);
    }
  }

  lemma ScannedIsFirstSeen(tbs: seq<TbExec>, index: Table, f: Func)
    requires RefinesScan(index) && f.name != UNKNOWN && RanAs(tbs, index, f) && NoneEarlier(tbs, index, f)
    ensures FirstSeen(tbs, Lookup(index), f)
  {
    var i, s :| 0 <= i < |tbs| && RunsIn(tbs[i], index, s) && s.name == f.name && tbs[i].firstSeen == f.seen;
    RunsInIsBlockOf(tbs[i], index, s);
    forall j | 0 <= j < |tbs| && BlockOf(tbs[j], Lookup(index), f.name) ensures f.seen <= tbs[j].firstSeen {
      NamedByContaining(index, tbs[j].start);
      var s' :| ScanFinds(index, tbs[j].start, s') && s'.name == f.name;
      assert RunsIn(tbs[j], index, s');
    }
  }

  lemma {:induction false} LeastRun(tbs: seq<TbExec>, nameOf: u64 -> bytes, name: bytes, i: nat) returns (f: Func)
    requires i < |tbs| && BlockOf(tbs[i], nameOf, name)
    ensures f.name == name && f.seen <= tbs[i].firstSeen && FirstSeen(tbs, nameOf, f)
    decreases tbs[i].firstSeen
  {
    if j :| 0 <= j < |tbs| && BlockOf(tbs[j], nameOf, name) && tbs[j].firstSeen < tbs[i].firstSeen {
      f := LeastRun(tbs, nameOf, name, j);
    } else {
      f := Func(name, tbs[i].firstSeen);
    }
  }

  /** Every executed, numbered block in a symbol with a name of its own puts that name on the list. */
  lemma RunFunctionIsListed(tbs: seq<TbExec>, index: Table, funcs: seq<Func>, i: nat, s: Symbol)
    requires Lists(tbs, Lookup(index), funcs) && RefinesScan(index)
    requires i < |tbs| && RunsIn(tbs[i], index, s) && s.name != UNKNOWN
    ensures exists f | f in funcs :: f.name == s.name && f.seen <= tbs[i].firstSeen
  {
    RunsInIsBlockOf(tbs[i], index, s);
    var f := LeastRun(tbs, Lookup(index), s.name, i);
    assert f in funcs;
  }

  // ---- The text ----

  /** A comma separates names in the trace, so a comma inside a name becomes an underscore. */
  function Sanitized(name: bytes): bytes {
    seq(|name|, i requires 0 <= i < |name| => if name[i] == 0x2C then 0x5F else name[i])
  }

  lemma OnlyCommasChange(name: bytes)
    ensures |Sanitized(name)| == |name|
    ensures forall i | 0 <= i < |name| :: Sanitized(name)[i] == if name[i] == ',' as int then '_' as int else name[i]
  {
  }

  function Joined(names: seq<bytes>): bytes {
    if names == [] then [] else if |names| == 1 then names[0] else names[0] + [0x2C] + Joined(names[1..])
  }

  /** A line of the trace file: fixed text, a decimal number, or the list of names. */
  datatype Line = Text(text: string) | Number(n: nat) | Names(names: bytes)

  function TraceHeader(traces: nat): seq<Line> {
    [Text(":temporal_prof_traces"),
     Text("# Num Temporal Profile Traces:"), Number(traces),
     Text("# Temporal Profile Trace Stream Size:"), Number(traces)]
  }

  /** Without functions the file announces no trace; otherwise one of weight 1, whose fields are the names in order. */
  predicate IsTraceFile(lines: seq<Line>, funcs: seq<Func>) {
    if funcs == [] then lines == TraceHeader(0)
    else
      && |lines| == 8 && lines[..5] == TraceHeader(1)
      && lines[5] == Text("# Weight:") && lines[6] == Number(1)
      && lines[7].Names? && Fields(lines[7].names) == SanitizedNames(funcs)
  }

  method Emit(tbs: seq<TbExec>, index: Table) returns (funcs: seq<Func>, lines: seq<Line>)
    ensures Lists(tbs, Lookup(index), funcs)
    ensures IsTraceFile(lines, funcs)
  {
    funcs := FunctionOrder(tbs, index);
    var numTraces := if funcs == [] then 0 else 1;
    lines := [Text(":temporal_prof_traces"), Text("# Num Temporal Profile Traces:"), Number(numTraces)];
    lines := lines + [Text("# Temporal Profile Trace Stream Size:"), Number(numTraces)];
    if funcs != [] {
      var traceLine := Joined(SanitizedNames(funcs)) + [0x2C];
      NamesAreCommaFree(funcs);
      FieldsOfJoined(SanitizedNames(funcs));
      lines := lines + [Text("# Weight:"), Number(1), Names(traceLine)];
    }
  }

  function SanitizedNames(funcs: seq<Func>): seq<bytes> {
    seq(|funcs|, i requires 0 <= i < |funcs| => Sanitized(funcs[i].name))
  }

  /** The comma-terminated fields of a line, as its reader splits it. */
  function Fields(line: bytes): seq<bytes> {
    FieldsFrom([], line)
  }

  function FieldsFrom(field: bytes, line: bytes): seq<bytes>
    decreases |line|
  {
    if line == [] then []
    else if line[0] == 0x2C then [field] + FieldsFrom([], line[1..])
    else FieldsFrom(field + [line[0]], line[1..])
  }

  predicate CommaFree(name: bytes) {
    forall i | 0 <= i < |name| :: name[i] != 0x2C
  }

  lemma NamesAreCommaFree(funcs: seq<Func>)
    ensures forall n | n in SanitizedNames(funcs) :: CommaFree(n)
  {
  }

  lemma {:induction false} OneField(field: bytes, name: bytes, rest: bytes)
    requires CommaFree(name)
    ensures FieldsFrom(field, name + [0x2C] + rest) == [field + name] + FieldsFrom([], rest)
    decreases |name|
  {
    var line := name + [0x2C] + rest;
    if name == [] {
      assert line[1..] == rest && field + name == field;
    } else {
      assert line[1..] == name[1..] + [0x2C] + rest;
      OneField(field + [name[0]], name[1..], rest);
      assert field + [name[0]] + name[1..] == field + name;
    }
  }

  /** Reading the line back gives the names: no name is split or joined with its neighbour. */
  lemma {:induction false} FieldsOfJoined(names: seq<bytes>)
    requires names != [] && forall n | n in names :: CommaFree(n)
    ensures Fields(Joined(names) + [0x2C]) == names
  {
    if |names| == 1 {
      OneField([], names[0], []);
      assert names[0] + [0x2C] + [] == Joined(names) + [0x2C];
      assert names == [names[0]] + [] && [] + names[0] == names[0];
    } else {
      var rest := Joined(names[1..]) + [0x2C];
      OneField([], names[0], rest);
      assert names[0] + [0x2C] + rest == Joined(names) + [0x2C];
      FieldsOfJoined(names[1..]);
      assert [] + names[0] == names[0] && names == [names[0]] + names[1..];
    }
  }
}
