/** Function symbols by address: which of several symbols is kept, how far a symbol reaches, and lookup. */
module ElfIndex {
  import opened Words
  import opened Bytes
  import Sorting

  /** A symbol-table entry as read from the ELF file; `name` is empty if it has none. */
  datatype RawSymbol = RawSymbol(isFunc: bool, value: u64, size: u64, name: bytes)

  datatype Symbol = Symbol(name: bytes, addr: u64, size: u64)

  type Table = m: map<u64, Symbol> | forall a | a in m :: m[a].addr == a

  /** The name of an address no symbol is found for. */
  const UNKNOWN: bytes := AsciiText("[unknown]")

  // ---- Choosing among symbols at one address ----

  predicate Eligible(r: RawSymbol) {
    r.isFunc && r.value != 0 && r.name != []
  }

  function SymbolOf(r: RawSymbol): Symbol {
    Symbol(r.name, r.value, r.size)
  }

  /** A sized symbol is better than one without a size; among equals in that, a longer name is better. */
  predicate Better(a: Symbol, b: Symbol) {
    if (a.size > 0) == (b.size > 0) then |a.name| > |b.name| else a.size > 0
  }

  /** Entry `i` is the first among the best eligible entries at its address. */
  ghost predicate FirstBest(raw: seq<RawSymbol>, i: nat) {
    && i < |raw| && Eligible(raw[i])
    && (forall j | 0 <= j < |raw| && Eligible(raw[j]) && raw[j].value == raw[i].value ::
          !Better(SymbolOf(raw[j]), SymbolOf(raw[i])))
    && (forall j | 0 <= j < i && Eligible(raw[j]) && raw[j].value == raw[i].value ::
          Better(SymbolOf(raw[i]), SymbolOf(raw[j])))
  }

  /** The table keeps, for every address with an eligible entry, the first best one. */
  ghost predicate KeepsFirstBest(raw: seq<RawSymbol>, m: Table) {
    && (forall i | 0 <= i < |raw| && Eligible(raw[i]) :: raw[i].value in m)
    && (forall a | a in m :: KeptAt(raw, m, a))
  }

  method CollectSymbols(raw: seq<RawSymbol>) returns (m: Table)
    ensures KeepsFirstBest(raw, m)
  {
    m := map[];
    for n := 0 to |raw|
      invariant KeepsFirstBest(raw[..n], m)
    {
      var sym := raw[n];
      ghost var before := m;
      if sym.isFunc && sym.value != 0 && sym.name != [] {
        var skip := false;
        if sym.value in m {
          var existing := m[sym.value];
          if existing.size > 0 && sym.size == 0 {
            skip := true;
          } else if existing.size == 0 && sym.size > 0 {
            // the new one has a size
          } else if |sym.name| <= |existing.name| {
            skip := true;
          }
        }
        if !skip {
          m := m[sym.value := Symbol(sym.name, sym.value, sym.size)];
        }
      }
      CollectStep(raw, n, before, m);
    }
    assert raw[..|raw|] == raw;
  }

  /** What one entry does to the table. */
  predicate Collects(before: Table, r: RawSymbol, after: Table) {
    if Eligible(r) && (r.value in before ==> Better(SymbolOf(r), before[r.value])) then
      after == before[r.value := SymbolOf(r)]
    else after == before
  }

  /** The table entry at `a` is the first best of its address. */
  ghost predicate KeptAt(raw: seq<RawSymbol>, m: Table, a: u64)
    requires a in m
  {
    exists i | 0 <= i < |raw| :: FirstBest(raw, i) && m[a] == SymbolOf(raw[i]) && raw[i].value == a
  }

  lemma CollectStep(raw: seq<RawSymbol>, n: nat, before: Table, after: Table)
    requires n < |raw| && KeepsFirstBest(raw[..n], before) && Collects(before, raw[n], after)
    ensures KeepsFirstBest(raw[..n + 1], after)
  {
    forall a | a in after ensures KeptAt(raw[..n + 1], after, a) {
      if a in before {
        assert KeptAt(raw[..n], before, a);
        OldAddress(raw, n, before, after, a);
      } else {
        NewAddress(raw, n, before, after);
      }
    }
    NothingMissing(raw, n, before, after);
  }

  lemma NothingMissing(raw: seq<RawSymbol>, n: nat, before: Table, after: Table)
    requires n < |raw| && KeepsFirstBest(raw[..n], before) && Collects(before, raw[n], after)
    ensures forall i | 0 <= i < n + 1 && Eligible(raw[i]) :: raw[i].value in after
  {
    forall i | 0 <= i < n + 1 && Eligible(raw[i]) ensures raw[i].value in after {
      if i < n {
        assert raw[..n][i].value in before;
      }
    }
  }

  lemma OldAddress(raw: seq<RawSymbol>, n: nat, before: Table, after: Table, a: u64)
    requires n < |raw| && Collects(before, raw[n], after)
    requires a in before && KeptAt(raw[..n], before, a)
    ensures KeptAt(raw[..n + 1], after, a)
  {
    var i :| 0 <= i < n && FirstBest(raw[..n], i) && before[a] == SymbolOf(raw[..n][i]) && raw[..n][i].value == a;
    KeptOrReplaced(raw, n, i);
    assert raw[..n + 1][i] == raw[i] && raw[..n + 1][n] == raw[n];
    assert FirstBest(raw[..n + 1], i) || FirstBest(raw[..n + 1], n);
  }

  lemma NewAddress(raw: seq<RawSymbol>, n: nat, before: Table, after: Table)
    requires n < |raw| && KeepsFirstBest(raw[..n], before) && Collects(before, raw[n], after)
    requires Eligible(raw[n]) && raw[n].value !in before
    ensures raw[n].value in after && KeptAt(raw[..n + 1], after, raw[n].value)
  {
    var seen := raw[..n + 1];
    assert seen[n] == raw[n];
    forall j | 0 <= j < n && Eligible(seen[j]) ensures seen[j].value != raw[n].value {
      assert raw[..n][j].value in before;
    }
    assert FirstBest(seen, n);
  }

  lemma KeptOrReplaced(raw: seq<RawSymbol>, n: nat, i: nat)
    requires n < |raw| && FirstBest(raw[..n], i)
    ensures if Eligible(raw[n]) && raw[n].value == raw[i].value && Better(SymbolOf(raw[n]), SymbolOf(raw[i]))
            then FirstBest(raw[..n + 1], n) else FirstBest(raw[..n + 1], i)
  {
    var seen := raw[..n + 1];
    assert forall j | 0 <= j < n :: seen[j] == raw[..n][j];
    assert seen[n] == raw[n];
  }

  /** Hence the table does not depend on how it was built. */
  lemma TableIsDetermined(raw: seq<RawSymbol>, m: Table, m': Table)
    requires KeepsFirstBest(raw, m) && KeepsFirstBest(raw, m')
    ensures m == m'
  {
    SameKeys(raw, m, m');
    SameKeys(raw, m', m);
    forall a | a in m && a in m' ensures m[a] == m'[a] {
      assert KeptAt(raw, m, a) && KeptAt(raw, m', a);
      var i :| 0 <= i < |raw| && FirstBest(raw, i) && m[a] == SymbolOf(raw[i]) && raw[i].value == a;
      var j :| 0 <= j < |raw| && FirstBest(raw, j) && m'[a] == SymbolOf(raw[j]) && raw[j].value == a;
      assert i == j;
    }
  }

  lemma SameKeys(raw: seq<RawSymbol>, m: Table, m': Table)
    requires KeepsFirstBest(raw, m) && KeepsFirstBest(raw, m')
    ensures m.Keys <= m'.Keys
  {
    forall a | a in m ensures a in m' {
      assert KeptAt(raw, m, a);
      var i :| 0 <= i < |raw| && FirstBest(raw, i) && raw[i].value == a;
    }
  }

  // ---- Sizes ----

  /** `b` is the next symbol address after `a`. */
  ghost predicate NextKey(m: Table, a: u64, b: u64) {
    b in m && a < b && forall x | x in m && a < x :: b <= x
  }

  ghost predicate LastKey(m: Table, a: u64) {
    forall x | x in m :: x <= a
  }

  /** `m'` is `m` with the missing sizes filled in. */
  ghost predicate FillsSizes(m: Table, m': Table) {
    && m'.Keys == m.Keys
    && (forall a | a in m :: m'[a].name == m[a].name)
    && (forall a | a in m && m[a].size > 0 :: m'[a].size == m[a].size)
    && (forall a | a in m && m[a].size == 0 && LastKey(m, a) :: m'[a].size == 0x1000)
    && (forall a, b: u64 | a in m && m[a].size == 0 && NextKey(m, a, b) :: m'[a].size == Min(b - a, 0x1_0000))
  }

  function Identity(): u64 -> int {
    (a: u64) => a
  }

  method SortedKeys(m: Table) returns (addrs: seq<u64>)
    ensures InOrder(m, addrs)
  {
    var keys: seq<u64> := [];
    var rest := m.Keys;
    while rest != {}
      invariant rest <= m.Keys
      invariant forall a :: a in keys <==> a in m.Keys - rest
      invariant forall i, j | 0 <= i < j < |keys| :: keys[i] != keys[j]
      decreases |rest|
    {
      var a :| a in rest;
      keys := keys + [a];
      rest := rest - {a};
    }
    addrs := Sorting.SortByKey(keys, Identity());
    Sorting.PermutationKeepsMembers(keys, addrs);
    Sorting.PermutationKeepsDistinct(keys, addrs);
    forall i, j | 0 <= i < j < |addrs| ensures addrs[i] < addrs[j] {
      assert Identity()(addrs[i]) <= Identity()(addrs[j]);
    }
  }

  ghost predicate InOrder(m: Table, addrs: seq<u64>) {
    && (forall a :: a in addrs <==> a in m)
    && (forall i, j | 0 <= i < j < |addrs| :: addrs[i] < addrs[j])
  }

  /** The size given to the `j`-th symbol if it has none. */
  function GapAt(addrs: seq<u64>, j: nat): int
    requires j < |addrs|
  {
    if j + 1 < |addrs| then Min(addrs[j + 1] as int - addrs[j], 0x1_0000) else 0x1000
  }

  /** The first `n` symbols have their sizes filled in, the others are as they were. */
  ghost predicate FilledUpTo(m: Table, m': Table, addrs: seq<u64>, n: nat) {
    && InOrder(m, addrs) && n <= |addrs| && m'.Keys == m.Keys
    && (forall j | 0 <= j < n :: addrs[j] in m && m'[addrs[j]].name == m[addrs[j]].name
         && m'[addrs[j]].size == if m[addrs[j]].size == 0 then GapAt(addrs, j) else m[addrs[j]].size)
    && (forall j | n <= j < |addrs| :: addrs[j] in m && m'[addrs[j]] == m[addrs[j]])
  }

  lemma NextInOrder(m: Table, addrs: seq<u64>, j: nat, b: u64)
    requires InOrder(m, addrs) && j < |addrs| && NextKey(m, addrs[j], b)
    ensures j + 1 < |addrs| && addrs[j + 1] == b
  {
    assert b in addrs;
    var k :| 0 <= k < |addrs| && addrs[k] == b;
    assert addrs[j + 1] in addrs;
  }

  lemma NotLastInOrder(m: Table, addrs: seq<u64>, j: nat)
    requires InOrder(m, addrs) && j + 1 < |addrs|
    ensures !LastKey(m, addrs[j])
  {
    assert addrs[j + 1] in addrs;
  }

  lemma FilledInOrder(m: Table, m': Table, addrs: seq<u64>)
    requires FilledUpTo(m, m', addrs, |addrs|)
    ensures FillsSizes(m, m')
  {
    forall a | a in m
      ensures m'[a].name == m[a].name && (m[a].size > 0 ==> m'[a].size == m[a].size)
      ensures m[a].size == 0 && LastKey(m, a) ==> m'[a].size == 0x1000
      ensures forall b: u64 | m[a].size == 0 && NextKey(m, a, b) :: m'[a].size == Min(b - a, 0x1_0000)
    {
      assert a in addrs;
      var j :| 0 <= j < |addrs| && addrs[j] == a;
      if j + 1 < |addrs| {
        NotLastInOrder(m, addrs, j);
      }
      forall b: u64 | NextKey(m, a, b) ensures j + 1 < |addrs| && b == addrs[j + 1] {
        NextInOrder(m, addrs, j, b);
      }
    }
  }

  /** The size of the `i`-th symbol is filled in. */
  predicate Fills(before: Table, addrs: seq<u64>, i: nat, after: Table)
    requires i < |addrs| && addrs[i] in before
  {
    var sym := before[addrs[i]];
    && after.Keys == before.Keys
    && (forall a | a in before && a != addrs[i] :: after[a] == before[a])
    && after[addrs[i]].name == sym.name
    && after[addrs[i]].size == if sym.size == 0 then GapAt(addrs, i) else sym.size
  }

  lemma FillStep(m: Table, before: Table, addrs: seq<u64>, i: nat, after: Table)
    requires i < |addrs| && FilledUpTo(m, before, addrs, i) && addrs[i] in before && Fills(before, addrs, i, after)
    ensures FilledUpTo(m, after, addrs, i + 1)
  {
    forall j | 0 <= j < |addrs| && j != i ensures after[addrs[j]] == before[addrs[j]] {
      assert addrs[j] != addrs[i] && addrs[j] in addrs;
    }
  }

  /** One size, in the source's wrapping arithmetic. */
  method InferSize(m: Table, addrs: seq<u64>, i: nat) returns (m': Table)
    requires i < |addrs| && addrs[i] in m && (i + 1 < |addrs| ==> addrs[i] < addrs[i + 1])
    ensures Fills(m, addrs, i, m')
  {
    m' := m;
    var addr := addrs[i];
    if m[addr].size == 0 {
      var nextAddr := if i + 1 < |addrs| then addrs[i + 1] else Wrap64(addr as int + 0x1000);
      var size: u64 := Min(Wrap64(nextAddr as int - addr), 0x1_0000);
      m' := m[addr := m[addr].(size := size)];
    }
  }

  method InferSizes(m: Table) returns (m': Table)
    ensures FillsSizes(m, m')
  {
    var addrs := SortedKeys(m);
    m' := m;
    assert FilledUpTo(m, m', addrs, 0);
    for i := 0 to |addrs|
      invariant FilledUpTo(m, m', addrs, i)
    {
      ghost var before := m';
      m' := InferSize(m', addrs, i);
      FillStep(m, before, addrs, i, m');
    }
    FilledInOrder(m, m', addrs);
  }

  /** A filled-in size is positive and stops short of every later symbol. */
  lemma InferredStopsAtNext(m: Table, m': Table, a: u64, b: u64)
    requires FillsSizes(m, m') && a in m && b in m && m[a].size == 0 && a < b
    ensures 0 < m'[a].size <= 0x1_0000 && a + m'[a].size <= b
  {
    var c := NextKeyExists(m, a, b);
    assert m'[a].size == Min(c - a, 0x1_0000);
  }

  lemma NextKeyExists(m: Table, a: u64, b: u64) returns (c: u64)
    requires b in m && a < b
    ensures NextKey(m, a, c) && c <= b
    decreases b
  {
    if NextKey(m, a, b) {
      c := b;
    } else {
      var x :| x in m && a < x < b;
      c := NextKeyExists(m, a, x);
    }
  }

  // ---- Lookup ----

  predicate Nearest(m: Table, addr: u64, k: u64) {
    k in m && k <= addr && forall j | j in m && j <= addr :: j <= k
  }

  function SymbolAt(m: Table, addr: u64): Option<Symbol> {
    if k :| k in m && Nearest(m, addr, k) && addr < Wrap64(m[k].addr + m[k].size) then Some(m[k]) else None
  }

  function NameAt(m: Table, addr: u64): bytes {
    match SymbolAt(m, addr)
    case Some(s) => s.name
    case None => UNKNOWN
  }

  predicate Contains(s: Symbol, addr: u64) {
    s.addr <= addr < s.addr + s.size
  }

  /** What a scan of all symbols would look for. */
  ghost predicate ScanFinds(m: Table, addr: u64, s: Symbol) {
    s in m.Values && Contains(s, addr)
  }

  lemma NearestExists(m: Table, addr: u64, k: u64) returns (n: u64)
    requires k in m && k <= addr
    ensures Nearest(m, addr, n) && k <= n
    decreases addr - k
  {
    if Nearest(m, addr, k) {
      n := k;
    } else {
      var j :| j in m && k < j <= addr;
      n := NearestExists(m, addr, j);
    }
  }

  /** The lookup never returns a symbol that does not contain the address. */
  lemma FoundContains(m: Table, addr: u64)
    ensures SymbolAt(m, addr).Some? ==> ScanFinds(m, addr, SymbolAt(m, addr).value)
  {
    if s :| SymbolAt(m, addr) == Some(s) {
      var k :| k in m && Nearest(m, addr, k) && addr < Wrap64(m[k].addr + m[k].size);
      assert m[k] == s && m[k] in m.Values;
    }
  }

  /**
   It finds the symbol that contains the address exactly when no other symbol starts in between and
   the symbol's end is not past the last 64-bit address.
   */
  lemma FoundExactlyIf(m: Table, addr: u64, a: u64)
    requires a in m && Contains(m[a], addr)
    ensures SymbolAt(m, addr) == Some(m[a]) <==>
            (forall b | b in m && b <= addr :: b <= a) && a + m[a].size < TWO_64
  {
    var n := NearestExists(m, addr, a);
    if SymbolAt(m, addr) == Some(m[a]) {
      assert m[n] == m[a];
    }
  }

  ghost predicate Disjoint(m: Table) {
    forall a, b | a in m && b in m && a < b :: a + m[a].size <= b
  }

  ghost predicate EndsFit(m: Table) {
    forall a | a in m :: m[a].size == 0 || a + m[a].size < TWO_64
  }

  ghost predicate RefinesScan(m: Table) {
    forall addr, s :: SymbolAt(m, addr) == Some(s) <==> ScanFinds(m, addr, s)
  }

  /** The index answers every query as the scan does exactly when no symbol reaches past the next or past 2^64 - 1. */
  lemma LookupRefinesScan(m: Table)
    ensures RefinesScan(m) <==> Disjoint(m) && EndsFit(m)
  {
    if Disjoint(m) && EndsFit(m) {
      forall addr, s ensures SymbolAt(m, addr) == Some(s) <==> ScanFinds(m, addr, s) {
        FoundContains(m, addr);
        if ScanFinds(m, addr, s) {
          FoundExactlyIf(m, addr, s.addr);
        }
      }
    }
    if RefinesScan(m) {
      forall a, b | a in m && b in m && a < b ensures a + m[a].size <= b {
        if a + m[a].size > b {
          assert ScanFinds(m, b, m[a]);
          FoundExactlyIf(m, b, a);
        }
      }
      forall a | a in m && m[a].size > 0 ensures a + m[a].size < TWO_64 {
        assert ScanFinds(m, a, m[a]);
        FoundExactlyIf(m, a, a);
      }
    }
  }

  // ---- Names ----

  /** An address has a name only from a symbol that contains it. */
  lemma NamedByContaining(m: Table, addr: u64)
    ensures NameAt(m, addr) != UNKNOWN ==> exists s | ScanFinds(m, addr, s) :: s.name == NameAt(m, addr)
    ensures (forall s :: !ScanFinds(m, addr, s)) ==> NameAt(m, addr) == UNKNOWN
  {
    FoundContains(m, addr);
  }

  /** When the index agrees with the scan, the symbol the scan finds gives the name. */
  lemma ContainingGivesName(m: Table, addr: u64, s: Symbol)
    requires RefinesScan(m) && ScanFinds(m, addr, s)
    ensures NameAt(m, addr) == s.name
  {
    assert SymbolAt(m, addr) == Some(s);
  }

  /** Declared ranges only: a symbol without a size cannot overlap anything. */
  ghost predicate DeclaredDisjoint(m: Table) {
    forall a, b | a in m && b in m && a < b && m[a].size > 0 :: a + m[a].size <= b
  }

  /** Filling in sizes neither creates nor removes an overlap. */
  lemma InferenceKeepsDisjoint(m: Table, m': Table)
    requires FillsSizes(m, m')
    ensures Disjoint(m') <==> DeclaredDisjoint(m)
  {
    forall a, b | a in m && b in m && a < b && m[a].size == 0 ensures a + m'[a].size <= b {
      InferredStopsAtNext(m, m', a, b);
    }
    if Disjoint(m') {
      forall a, b | a in m && b in m && a < b && m[a].size > 0 ensures a + m[a].size <= b {
        assert a in m' && b in m';
      }
    }
  }

  /** An index built from the raw symbols. */
  method FromSymbols(raw: seq<RawSymbol>) returns (index: Table)
    ensures exists m :: KeepsFirstBest(raw, m) && FillsSizes(m, index)
  {
    var m := CollectSymbols(raw);
    index := InferSizes(m);
  }

  /** Ends fit: declared ones, and 4 KiB after a last symbol without a size. */
  ghost predicate DeclaredEndsFit(m: Table) {
    && (forall a | a in m && m[a].size > 0 :: a + m[a].size < TWO_64)
    && (forall a | a in m && m[a].size == 0 && LastKey(m, a) :: a + 0x1000 < TWO_64)
  }

  lemma InferenceKeepsEnds(m: Table, index: Table)
    requires FillsSizes(m, index)
    ensures EndsFit(index) <==> DeclaredEndsFit(m)
  {
    forall a | a in m && m[a].size == 0 && !LastKey(m, a) ensures a + index[a].size < TWO_64 {
      var b :| b in m && a < b;
      InferredStopsAtNext(m, index, a, b);
    }
    if EndsFit(index) {
      forall a | a in m ensures index[a].size == 0 || a + index[a].size < TWO_64 {
        assert a in index;
      }
    }
  }

  /**
   Lookup is the scan exactly when the kept symbols' declared ranges are disjoint and end in range, and a
   last symbol without a size starts no later than 4 KiB before the end.
   */
  lemma IndexRefinesScan(raw: seq<RawSymbol>, m: Table, index: Table)
    requires KeepsFirstBest(raw, m) && FillsSizes(m, index)
    ensures RefinesScan(index) <==> DeclaredDisjoint(m) && DeclaredEndsFit(m)
  {
    InferenceKeepsDisjoint(m, index);
    InferenceKeepsEnds(m, index);
    LookupRefinesScan(index);
  }

  /** Two functions of which the second lies within the first. */
  function NestedSymbols(outer: bytes, inner: bytes): seq<RawSymbol> {
    [RawSymbol(true, 0x1000, 0x100, outer), RawSymbol(true, 0x1010, 0x10, inner)]
  }

  lemma NestedTable(outer: bytes, inner: bytes, m: Table, index: Table)
    requires outer != [] && inner != []
    requires KeepsFirstBest(NestedSymbols(outer, inner), m) && FillsSizes(m, index)
    ensures index == map[0x1000 := Symbol(outer, 0x1000, 0x100), 0x1010 := Symbol(inner, 0x1010, 0x10)]
  {
    var raw := NestedSymbols(outer, inner);
    assert raw[0].value in m && raw[1].value in m;
    forall a | a in m
      ensures m[a] == Symbol(outer, 0x1000, 0x100) || m[a] == Symbol(inner, 0x1010, 0x10)
    {
      assert KeptAt(raw, m, a);
    }
    assert index.Keys == {0x1000, 0x1010};
  }

  /**
   From these symbols, every index built has an address inside the outer function that the scan finds
   there and the lookup does not find at all.
   */
  lemma NestedSymbolHidesOuter(outer: bytes, inner: bytes, m: Table, index: Table)
    requires outer != [] && inner != []
    requires KeepsFirstBest(NestedSymbols(outer, inner), m) && FillsSizes(m, index)
    ensures ScanFinds(index, 0x1080, Symbol(outer, 0x1000, 0x100)) && SymbolAt(index, 0x1080) == None
  {
    NestedTable(outer, inner, m, index);
    assert index[0x1000] in index.Values && index[0x1010] in index.Values;
    FoundExactlyIf(index, 0x1080, 0x1000);
    FoundContains(index, 0x1080);
  }
}
