/** The temporal trace of a run lists functions in the order the guest first entered them. */
module StartupOrder {
  import opened Words
  import opened Bytes
  import opened Counting
  import opened GuestTrace
  import opened Profiler
  import opened ControlLaws
  import opened ExecLaws
  import opened FirstSeenLaws
  import opened LogFormat
  import opened NativeParser
  import opened EndToEnd
  import opened ElfIndex
  import opened Temporal

  /** The known functions a trace enters, in the order it first enters them. */
  ghost function FunctionsEntered(t: Trace, nameOf: u64 -> bytes): seq<bytes> {
    if t == [] then []
    else
      var before, ev := FunctionsEntered(t[..|t| - 1], nameOf), t[|t| - 1];
      if ev.Enter? && nameOf(Start(ev.tb)) != UNKNOWN && nameOf(Start(ev.tb)) !in before then
        before + [nameOf(Start(ev.tb))]
      else before
  }

  function NamesOf(funcs: seq<Func>): seq<bytes> {
    seq(|funcs|, i requires 0 <= i < |funcs| => funcs[i].name)
  }

  /** The functions of the blocks in `order`. */
  function NamesAlong(order: seq<TbKey>, nameOf: u64 -> bytes): seq<bytes> {
    seq(|order|, i requires 0 <= i < |order| => nameOf(order[i].start))
  }

  /** Each known name with the position, counted from 1, where it first occurs. */
  ghost function FirstOccurrences(names: seq<bytes>): seq<Func>
    requires |names| < TWO_64
  {
    if names == [] then []
    else
      var before, name := FirstOccurrences(names[..|names| - 1]), names[|names| - 1];
      if name == UNKNOWN || name in NamesOf(before) then before else before + [Func(name, |names|)]
  }

  ghost predicate FirstAt(names: seq<bytes>, f: Func) {
    && 1 <= f.seen <= |names| && names[f.seen - 1] == f.name && f.name != UNKNOWN
    && forall j | 0 <= j < f.seen - 1 :: names[j] != f.name
  }

  lemma InNamesOf(funcs: seq<Func>, name: bytes)
    ensures name in NamesOf(funcs) <==> exists f | f in funcs :: f.name == name
  {
    if name in NamesOf(funcs) {
      var i :| 0 <= i < |funcs| && NamesOf(funcs)[i] == name;
      assert funcs[i] in funcs;
    }
    if f :| f in funcs && f.name == name {
      var i :| 0 <= i < |funcs| && funcs[i] == f;
      assert NamesOf(funcs)[i] == name;
    }
  }

  lemma {:induction false} NamedBefore(names: seq<bytes>, j: nat)
    requires |names| < TWO_64 && j < |names| && names[j] != UNKNOWN
    ensures names[j] in NamesOf(FirstOccurrences(names))
  {
    var n := |names| - 1;
    InNamesOf(FirstOccurrences(names[..n]), names[j]);
    InNamesOf(FirstOccurrences(names), names[j]);
    if j < n {
      NamedBefore(names[..n], j);
    }
  }

  lemma StillFirstAt(names: seq<bytes>, n: nat, f: Func)
    requires n <= |names| && FirstAt(names[..n], f)
    ensures FirstAt(names, f)
  {
    assert forall j | 0 <= j < n :: names[j] == names[..n][j];
  }

  lemma NewIsFirstAt(names: seq<bytes>, n: nat, f: Func)
    requires |names| == n + 1 < TWO_64 && f == Func(names[n], n + 1)
    requires names[n] != UNKNOWN && names[n] !in NamesOf(FirstOccurrences(names[..n]))
    ensures FirstAt(names, f)
  {
    forall j | 0 <= j < n ensures names[j] != names[n] {
      if names[j] == names[n] {
        NamedBefore(names[..n], j);
      }
    }
  }

  lemma {:induction false} OccurrencesAreFirst(names: seq<bytes>)
    requires |names| < TWO_64
    ensures Increasing(FirstOccurrences(names))
    ensures forall f | f in FirstOccurrences(names) :: FirstAt(names, f)
  {
    if names != [] {
      var n := |names| - 1;
      var before := FirstOccurrences(names[..n]);
      OccurrencesAreFirst(names[..n]);
      assert forall f | f in before :: f.seen <= n;
      forall f | f in FirstOccurrences(names) ensures FirstAt(names, f) {
        if f in before {
          StillFirstAt(names, n, f);
        } else {
          NewIsFirstAt(names, n, f);
        }
      }
    }
  }

  lemma FirstIsOccurrence(names: seq<bytes>, f: Func)
    requires |names| < TWO_64 && FirstAt(names, f)
    ensures f in FirstOccurrences(names)
  {
    NamedBefore(names, f.seen - 1);
    InNamesOf(FirstOccurrences(names), f.name);
    OccurrencesAreFirst(names);
    var g :| g in FirstOccurrences(names) && g.name == f.name;
    assert FirstAt(names, g);
    assert names[g.seen - 1] == names[f.seen - 1];
    assert g.seen == f.seen;
  }

  // ---- The records of a run ----

  /** Block records numbered by `order`: the one numbered `n` is for the `n`-th block of `order` and executed. */
  ghost predicate Numbered(tbs: seq<TbExec>, order: seq<TbKey>) {
    && (forall i | 0 <= i < |tbs| && tbs[i].firstSeen != 0 ::
          tbs[i].firstSeen <= |order| && tbs[i].start == order[tbs[i].firstSeen - 1].start && tbs[i].execCount != 0)
    && (forall n | 1 <= n <= |order| :: HasNumber(tbs, n))
  }

  ghost predicate HasNumber(tbs: seq<TbExec>, n: nat) {
    exists i | 0 <= i < |tbs| :: tbs[i].firstSeen == n
  }

  lemma {:induction false} EnteredIsCounted(t: Trace, k: TbKey)
    requires k in FirstEntries(t)
    ensures Count(t, Entered(HasKey(k))) > 0
  {
    var t0, ev := t[..|t| - 1], t[|t| - 1];
    if k in FirstEntries(t0) {
      EnteredIsCounted(t0, k);
    } else {
      assert HasKey(k)(ev.tb);
    }
  }

  lemma EnteredIsExecuted(c: Config, t: Trace, states: seq<State>, k: TbKey)
    requires Execution(c, t, states) && k in states[|t|].tbs && k in FirstEntries(t)
    ensures TotalExec(states[|t|], k) != 0
  {
    TotalExecIsEntries(c, t, states, k);
    EnteredIsCounted(t, k);
  }

  lemma NumberedPosition(c: Config, t: Trace, states: seq<State>, k: TbKey) returns (q: nat)
    requires Execution(c, t, states) && Quiet(states[|t|]) && Drawn(t) == FirstEntries(t)
    requires Get(states[|t|].firstSeen, k) != 0
    ensures q < |FirstEntries(t)| && FirstEntries(t)[q] == k && Get(states[|t|].firstSeen, k) == q + 1
  {
    NumbersFollowEntries(c, t, states);
    assert k in FirstEntries(t);
    q :| 0 <= q < |FirstEntries(t)| && FirstEntries(t)[q] == k;
  }

  lemma BlockIsNumbered(c: Config, t: Trace, states: seq<State>, keys: seq<TbKey>, tbs: seq<TbExec>, i: nat)
    requires Execution(c, t, states) && Quiet(states[|t|]) && Drawn(t) == FirstEntries(t)
    requires ListsBlocks(states[|t|], keys, tbs) && i < |tbs| && tbs[i].firstSeen != 0
    ensures tbs[i].firstSeen <= |FirstEntries(t)|
    ensures tbs[i].start == FirstEntries(t)[tbs[i].firstSeen - 1].start && tbs[i].execCount != 0
  {
    var k := keys[i];
    assert k in keys;
    var q := NumberedPosition(c, t, states, k);
    EnteredIsExecuted(c, t, states, k);
    BlockStart(c, t, states, k);
  }

  lemma BlockStart(c: Config, t: Trace, states: seq<State>, k: TbKey)
    requires Execution(c, t, states) && k in states[|t|].tbs
    ensures Start(states[|t|].tbs[k]) == k.start
  {
    ControlAlways(c, t, states);
  }

  lemma NumberIsGiven(c: Config, t: Trace, states: seq<State>, keys: seq<TbKey>, tbs: seq<TbExec>, n: nat)
    requires Execution(c, t, states) && Quiet(states[|t|]) && Drawn(t) == FirstEntries(t)
    requires ListsBlocks(states[|t|], keys, tbs) && 1 <= n <= |FirstEntries(t)|
    ensures HasNumber(tbs, n)
  {
    NumbersFollowEntries(c, t, states);
    var k := FirstEntries(t)[n - 1];
    SeqAlways(c, t, states);
    assert k in states[|t|].tbs && k in keys;
    var i :| 0 <= i < |keys| && keys[i] == k;
    assert tbs[i].firstSeen == n;
  }

  lemma RunIsNumbered(c: Config, t: Trace, states: seq<State>, keys: seq<TbKey>, tbs: seq<TbExec>)
    requires Execution(c, t, states) && Quiet(states[|t|]) && Drawn(t) == FirstEntries(t)
    requires ListsBlocks(states[|t|], keys, tbs)
    ensures Numbered(tbs, FirstEntries(t))
  {
    forall i | 0 <= i < |tbs| && tbs[i].firstSeen != 0
      ensures tbs[i].firstSeen <= |FirstEntries(t)|
      ensures tbs[i].start == FirstEntries(t)[tbs[i].firstSeen - 1].start && tbs[i].execCount != 0
    {
      BlockIsNumbered(c, t, states, keys, tbs, i);
    }
    forall n | 1 <= n <= |FirstEntries(t)| ensures HasNumber(tbs, n) {
      NumberIsGiven(c, t, states, keys, tbs, n);
    }
  }

  lemma BlockHasName(tbs: seq<TbExec>, order: seq<TbKey>, nameOf: u64 -> bytes, i: nat, name: bytes)
    requires Numbered(tbs, order) && i < |tbs|
    ensures BlockOf(tbs[i], nameOf, name) <==>
            tbs[i].firstSeen != 0 && NamesAlong(order, nameOf)[tbs[i].firstSeen - 1] == name && name != UNKNOWN
  {
  }

  lemma FirstSeenIsFirstAt(tbs: seq<TbExec>, order: seq<TbKey>, nameOf: u64 -> bytes, f: Func)
    requires Numbered(tbs, order) && FirstSeen(tbs, nameOf, f)
    ensures FirstAt(NamesAlong(order, nameOf), f)
  {
    var names := NamesAlong(order, nameOf);
    var i :| 0 <= i < |tbs| && BlockOf(tbs[i], nameOf, f.name) && tbs[i].firstSeen == f.seen;
    BlockHasName(tbs, order, nameOf, i, f.name);
    forall j | 0 <= j < f.seen - 1 ensures names[j] != f.name {
      assert HasNumber(tbs, j + 1);
      var k :| 0 <= k < |tbs| && tbs[k].firstSeen == j + 1;
      BlockHasName(tbs, order, nameOf, k, f.name);
    }
  }

  lemma FirstAtIsFirstSeen(tbs: seq<TbExec>, order: seq<TbKey>, nameOf: u64 -> bytes, f: Func)
    requires Numbered(tbs, order) && FirstAt(NamesAlong(order, nameOf), f)
    ensures FirstSeen(tbs, nameOf, f)
  {
    assert HasNumber(tbs, f.seen);
    var i :| 0 <= i < |tbs| && tbs[i].firstSeen == f.seen;
    BlockHasName(tbs, order, nameOf, i, f.name);
    forall k | 0 <= k < |tbs| && BlockOf(tbs[k], nameOf, f.name) ensures f.seen <= tbs[k].firstSeen {
      BlockHasName(tbs, order, nameOf, k, f.name);
    }
  }

  lemma ListIsOccurrences(tbs: seq<TbExec>, order: seq<TbKey>, nameOf: u64 -> bytes, funcs: seq<Func>)
    requires |order| < TWO_64 && Numbered(tbs, order) && Lists(tbs, nameOf, funcs)
    ensures funcs == FirstOccurrences(NamesAlong(order, nameOf))
  {
    var names := NamesAlong(order, nameOf);
    var occurrences := FirstOccurrences(names);
    OccurrencesAreFirst(names);
    forall f ensures f in funcs <==> f in occurrences {
      if f in funcs {
        FirstSeenIsFirstAt(tbs, order, nameOf, f);
        FirstIsOccurrence(names, f);
      }
      if f in occurrences {
        FirstAtIsFirstSeen(tbs, order, nameOf, f);
      }
    }
    assert Increasing(funcs) by {
      forall i, j | 0 <= i < j < |funcs| ensures funcs[i].seen < funcs[j].seen {
        assert funcs[i] in occurrences && funcs[j] in occurrences && funcs[i] != funcs[j];
        assert FirstAt(names, funcs[i]) && FirstAt(names, funcs[j]);
      }
    }
    IncreasingIsUnique(funcs, occurrences);
  }

  /**
   For any number of vCPUs and any retranslations, the numbers in a parsed profile are distinct. So its
   function list is the same for every hash order; ties can only come from logs no plugin wrote.
   */
  lemma FunctionListIsDetermined(c: Config, t: Trace, states: seq<State>, h: FileHeader, during: seq<Call>,
                                 d: Dump, wallTime: u64, p: ProfileData, nameOf: u64 -> bytes, funcs: seq<Func>)
    requires CompleteRun(c, t, states, h, during, d, wallTime, p) && Lists(p.tbExecs, nameOf, funcs)
    ensures Increasing(funcs)
    ensures forall other: seq<Func> | Lists(p.tbExecs, nameOf, other) :: other == funcs
  {
    ParsedDump(c, t, states, h, during, d, wallTime, p);
    forall i, j | 0 <= i < j < |funcs| ensures funcs[i].seen < funcs[j].seen {
      assert funcs[i] in funcs && funcs[j] in funcs;
      NumbersOfFunctionsDiffer(c, t, states, d.keys, d.tbs, nameOf, funcs[i], funcs[j]);
    }
    OrderIsDetermined(p.tbExecs, nameOf, funcs);
  }

  lemma NumbersOfFunctionsDiffer(c: Config, t: Trace, states: seq<State>, keys: seq<TbKey>, tbs: seq<TbExec>,
                                 nameOf: u64 -> bytes, f: Func, g: Func)
    requires Execution(c, t, states) && ListsBlocks(states[|t|], keys, tbs)
    requires FirstSeen(tbs, nameOf, f) && FirstSeen(tbs, nameOf, g) && f.name != g.name
    ensures f.seen != g.seen
  {
    var i :| 0 <= i < |tbs| && BlockOf(tbs[i], nameOf, f.name) && tbs[i].firstSeen == f.seen;
    var j :| 0 <= j < |tbs| && BlockOf(tbs[j], nameOf, g.name) && tbs[j].firstSeen == g.seen;
    if f.seen == g.seen {
      NumbersDiffer(c, t, states, keys[i], keys[j]);
    }
  }

  // ---- The naive trace ----

  lemma FewEntries(t: Trace)
    ensures |FirstEntries(t)| <= |t|
  {
  }

  lemma {:induction false} OccurrencesAreEntered(t: Trace, nameOf: u64 -> bytes)
    requires |t| < TWO_64
    ensures |FirstEntries(t)| < TWO_64
    ensures NamesOf(FirstOccurrences(NamesAlong(FirstEntries(t), nameOf))) == FunctionsEntered(t, nameOf)
  {
    FewEntries(t);
    if t != [] {
      var t0, ev := t[..|t| - 1], t[|t| - 1];
      FewEntries(t0);
      OccurrencesAreEntered(t0, nameOf);
      var names := NamesAlong(FirstEntries(t0), nameOf);
      if ev.Enter? {
        if KeyOf(ev.tb) in FirstEntries(t0) {
          var q :| 0 <= q < |names| && FirstEntries(t0)[q] == KeyOf(ev.tb);
          if names[q] != UNKNOWN {
            NamedBefore(names, q);
          }
        } else {
          var name := nameOf(Start(ev.tb));
          assert NamesAlong(FirstEntries(t), nameOf) == names + [name];
          OneMoreName(names, name);
        }
      }
    }
  }

  lemma OneMoreOccurrence(names: seq<bytes>, name: bytes)
    requires |names| + 1 < TWO_64
    ensures FirstOccurrences(names + [name]) ==
            var before := FirstOccurrences(names);
            if name == UNKNOWN || name in NamesOf(before) then before else before + [Func(name, |names| + 1)]
  {
    var all := names + [name];
    assert all[..|all| - 1] == names && all[|all| - 1] == name;
  }

  lemma NamesOfAppend(funcs: seq<Func>, f: Func)
    ensures NamesOf(funcs + [f]) == NamesOf(funcs) + [f.name]
  {
  }

  lemma OneMoreName(names: seq<bytes>, name: bytes)
    requires |names| + 1 < TWO_64
    ensures NamesOf(FirstOccurrences(names + [name])) ==
            var before := NamesOf(FirstOccurrences(names));
            if name == UNKNOWN || name in before then before else before + [name]
  {
    OneMoreOccurrence(names, name);
    NamesOfAppend(FirstOccurrences(names), Func(name, |names| + 1));
  }

  /**
   From the guest to the linker, for any number of vCPUs: if numbers were drawn in the order of first
   entries, the functions listed from the parsed profile are the known functions entered, in the order of
   their first entries, whatever the hash order.
   */
  lemma FunctionsInExecutionOrder(c: Config, t: Trace, states: seq<State>, h: FileHeader, during: seq<Call>,
                                  d: Dump, wallTime: u64, p: ProfileData,
                                  index: Table, funcs: seq<Func>)
    requires CompleteRun(c, t, states, h, during, d, wallTime, p)
    requires Drawn(t) == FirstEntries(t) && Lists(p.tbExecs, Lookup(index), funcs)
    ensures NamesOf(funcs) == FunctionsEntered(t, Lookup(index))
  {
    ParsedDump(c, t, states, h, during, d, wallTime, p);
    RunIsNumbered(c, t, states, d.keys, d.tbs);
    OccurrencesAreEntered(t, Lookup(index));
    ListIsOccurrences(p.tbExecs, FirstEntries(t), Lookup(index), funcs);
  }

  /** In particular after one vCPU's run without retranslation before a first execution. */
  lemma OneVcpuExecutionOrder(c: Config, t: Trace, states: seq<State>, h: FileHeader, during: seq<Call>,
                              d: Dump, wallTime: u64, p: ProfileData,
                              index: Table, funcs: seq<Func>)
    requires CompleteRun(c, t, states, h, during, d, wallTime, p)
    requires c.vcpus == 1 && NoEarlyRetranslation(t) && Lists(p.tbExecs, Lookup(index), funcs)
    ensures NamesOf(funcs) == FunctionsEntered(t, Lookup(index))
  {
    OneVcpuDrawsInOrder(c, t, states);
    FunctionsInExecutionOrder(c, t, states, h, during, d, wallTime, p, index, funcs);
  }

  // ---- By the scan ----

  /** `nameOf` names every address by the symbol a scan finds there, and by nothing if it finds none. */
  ghost predicate NamesByScan(index: Table, nameOf: u64 -> bytes) {
    && (forall addr, s | ScanFinds(index, addr, s) :: nameOf(addr) == s.name)
    && (forall addr | (forall s :: !ScanFinds(index, addr, s)) :: nameOf(addr) == UNKNOWN)
  }

  lemma LookupIsByScan(index: Table, nameOf: u64 -> bytes, addr: u64)
    requires RefinesScan(index) && NamesByScan(index, nameOf)
    ensures Lookup(index)(addr) == nameOf(addr)
  {
    NamedByContaining(index, addr);
    if s :| ScanFinds(index, addr, s) {
      ContainingGivesName(index, addr, s);
    }
  }

  lemma {:induction false} EnteredByScan(t: Trace, index: Table, nameOf: u64 -> bytes)
    requires RefinesScan(index) && NamesByScan(index, nameOf)
    ensures FunctionsEntered(t, Lookup(index)) == FunctionsEntered(t, nameOf)
  {
    if t != [] {
      EnteredByScan(t[..|t| - 1], index, nameOf);
      if t[|t| - 1].Enter? {
        LookupIsByScan(index, nameOf, Start(t[|t| - 1].tb));
      }
    }
  }

  /**
   When the index agrees with the scan, the listed functions are those whose symbols contain the blocks
   entered, in the order of their first entries.
   */
  lemma SymbolsInExecutionOrder(c: Config, t: Trace, states: seq<State>, h: FileHeader, during: seq<Call>,
                                d: Dump, wallTime: u64, p: ProfileData,
                                index: Table, nameOf: u64 -> bytes, funcs: seq<Func>)
    requires CompleteRun(c, t, states, h, during, d, wallTime, p)
    requires Drawn(t) == FirstEntries(t) && Lists(p.tbExecs, Lookup(index), funcs)
    requires RefinesScan(index) && NamesByScan(index, nameOf)
    ensures NamesOf(funcs) == FunctionsEntered(t, nameOf)
  {
    FunctionsInExecutionOrder(c, t, states, h, during, d, wallTime, p, index, funcs);
    EnteredByScan(t, index, nameOf);
  }
}
