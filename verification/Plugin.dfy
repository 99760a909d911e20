/**
 The plugin's global state and its callbacks, cut at their atomic sections: each method is one of the
 machine's steps, and calls for different vCPUs may alternate as they like. Every object carries, as
 ghosts, the trace of what happened to it and the run of the profiler machine it has gone through.
 */
module Plugin {
  import opened Words
  import opened Counting
  import opened Bytes
  import opened EdgeStorage
  import opened Decoder
  import opened GuestTrace
  import opened Profiler
  import opened EdgeLaws
  import opened ExecLaws
  import opened FallThroughs
  import opened FallThroughLaws
  import opened LogFormat
  import opened NativeParser
  import opened LogRoundTrip
  import opened LogLaws
  import opened EndToEnd
  import opened ExitDump
  import opened Decoding
  import ProfileWriter

  /**
     One vCPU's slots other than its edge accumulator: scoreboard, counters, indirect calls, callbacks under way,
     position.
   */
  datatype Slot = Slot(
    lastTbEnd: u64, fallThrough: u64, pending: u64,
    exec: map<TbKey, nat>, indirect: EdgeCounts,
    numbering: Option<Numbering>, flight: Option<Flight>,
    current: Option<Tb>, next: nat)

  function VcpuOf(slot: Slot, edges: EdgeCounts): Vcpu {
    Vcpu(slot.lastTbEnd, slot.fallThrough, slot.pending, slot.exec, edges, slot.indirect,
         slot.numbering, slot.flight, slot.current, slot.next)
  }

  class PluginState {
    const config: Config
    const arch: Arch
    var slots: seq<Slot>
    var accumulators: seq<EdgeAccumulator>
    var tbs: map<TbKey, Tb>
    var armed: set<TbKey>
    var firstSeen: map<TbKey, nat>
    var nextSeq: nat
    var directs: set<Edge>
    var flushed: map<u64, nat>
    const writer: ProfileWriter.Writer
    ghost const header: FileHeader
    ghost const meta: seq<Call>            // the writer's first calls, which describe the run
    ghost var calls: seq<Call>             // the writer calls so far
    ghost var log: seq<seq<EdgeRecord>>    // the flushed batches among them
    ghost var trace: Trace
    ghost var states: seq<State>

    /** Each vCPU has a slot and an accumulator of its own, configured alike. */
    ghost predicate Shape()
      reads this`slots, this`accumulators, accumulators
    {
      && |slots| == |accumulators| == config.vcpus
      && (forall i, j | 0 <= i < j < |accumulators| :: accumulators[i] != accumulators[j])
      && forall i | 0 <= i < |accumulators| ::
           accumulators[i].capacity == config.topN && accumulators[i].streaming == config.streaming
    }

    ghost function Vcpus(): seq<Vcpu>
      requires Shape()
      reads this, accumulators
    {
      seq(config.vcpus, v requires 0 <= v < config.vcpus && Shape() reads this, accumulators =>
        VcpuOf(slots[v], accumulators[v].edges))
    }

    /** The machine state this object stands for. */
    ghost function View(): State
      requires Shape()
      reads this, accumulators
    {
      State(Vcpus(), tbs, armed, firstSeen, nextSeq, flushed, log)
    }

    /** The log file holds exactly the calls made, all of them flushes or metadata. */
    ghost predicate Logged()
      reads this`calls, writer
    {
      && writer.out == Log(header, calls) && writer.RunningTotals() == TotalsOf(calls)
      && ValidHeader(header) && ValidCalls(calls)
    }

    ghost predicate Valid()
      reads this, accumulators, writer
    {
      && Shape() && Logged() && OnlyFlushes(calls, log) && Introduced(meta, calls)
      && Execution(config, trace, states) && states[|trace|] == View()
      && AllDecoded(arch, trace)
      && (config.tier >= 2 ==> directs == DirectCalls(trace))
    }

    constructor (c: Config, arch: Arch, sysemu: bool, textStart: u64, textEnd: u64, entryAddr: u64,
                 binary: bytes, archName: bytes)
      requires c.tier < 0x100
      ensures Valid() && config == c && this.arch == arch && trace == []
      ensures header == FileHeader(1, c.tier, 8, (if sysemu then 0x1 else 0) + (if c.streaming then 0x2 else 0),
                                   textStart, textStart, textEnd, entryAddr, ProfileWriter.ZeroBuildId())
      ensures calls == meta == MetaCalls(binary, archName, ModeName(sysemu))
    {
      config := c;
      this.arch := arch;
      slots := FreshSlots(c.vcpus);
      var accs := NewAccumulators(c);
      accumulators := accs;
      tbs, armed, firstSeen, nextSeq, directs, flushed := map[], {}, map[], 1, {}, map[];
      var w := new ProfileWriter.Writer(c.tier, sysemu, c.streaming, textStart, textStart, textEnd, entryAddr);
      writer := w;
      var h := ProfileWriter.NewHeader(c.tier, sysemu, c.streaming, textStart, textStart, textEnd, entryAddr);
      header := h;
      calls, log, trace, states := [], [], [], [Init(c)];
      meta := MetaCalls(binary, archName, ModeName(sysemu));
      new;
      EmptyLog(header);
      WriteMeta(binary, archName, ModeName(sysemu));
      FreshIsValid();
    }

    /** With all fields as at first, the object stands for the machine's first state. */
    lemma FreshIsValid()
      requires Shape() && tbs == map[] && armed == {} && firstSeen == map[] && nextSeq == 1 && flushed == map[]
      requires forall v | 0 <= v < config.vcpus :: slots[v] == FreshSlot() && accumulators[v].edges == map[]
      requires Logged() && OnlyFlushes(calls, log) && log == [] && calls == meta
      requires trace == [] && states == [Init(config)] && directs == {}
      ensures Valid()
    {
      assert Vcpus() == Init(config).vcpus;
    }

    /** The writer's first records: where the profile comes from. */
    method WriteMeta(binary: bytes, archName: bytes, mode: bytes)
      requires Logged() && OnlyFlushes(calls, log) && calls == []
      modifies this`calls, writer
      ensures Logged() && OnlyFlushes(calls, log) && calls == MetaCalls(binary, archName, mode)
    {
      WriteOne(AsciiText("binary_path"), binary);
      WriteOne(AsciiText("arch"), archName);
      WriteOne(AsciiText("mode"), mode);
    }

    method WriteOne(key: bytes, value: bytes)
      requires Logged() && OnlyFlushes(calls, log)
      modifies this`calls, writer
      ensures Logged() && OnlyFlushes(calls, log) && calls == old(calls) + [StringMeta(key, value)]
    {
      var ok := writer.WriteStringMeta(key, value);
      Booked(header, calls, StringMeta(key, value));
      calls := calls + [StringMeta(key, value)];
    }

    // ---- Translation: tiers 0 to 2 ----

    method TranslateTb(tb: Tb)
      requires Valid() && Decoded(arch, tb) && (KeyOf(tb) in tbs ==> tbs[KeyOf(tb)] == tb)
      modifies this`tbs, this`armed, this`firstSeen, this`directs, this`trace, this`states
      ensures Valid() && trace == old(trace) + [Translate(tb)]
    {
      InstrumentTb(tb);
      OneMoreTranslation(arch, trace, tb);
      Advance(Translate(tb));
    }

    /** The tiers in their order. */
    method InstrumentTb(tb: Tb)
      requires Shape() && Decoded(arch, tb) && (KeyOf(tb) in tbs ==> tbs[KeyOf(tb)] == tb)
      modifies this`tbs, this`armed, this`firstSeen, this`directs
      ensures Shape() && Translates(old(View()), tb, View())
      ensures directs == if config.tier >= 2 then old(directs) + DirectsIn(tb.insns) else old(directs)
    {
      RegisterTb(tb);
      if config.tier >= 2 {
        ListDirectsOf(tb);
      }
    }

    /** Tier 2 adds the block's direct calls and branches. */
    method ListDirectsOf(tb: Tb)
      requires Decoded(arch, tb) && Shape()
      modifies this`directs
      ensures Shape() && View() == old(View()) && directs == old(directs) + DirectsIn(tb.insns)
    {
      directs := CollectDirects(arch, tb.insns, directs);
      assert Vcpus() == old(Vcpus());
    }

    /** Tier 0 looks the block up or enters it. */
    method RegisterTb(tb: Tb)
      requires Shape() && (KeyOf(tb) in tbs ==> tbs[KeyOf(tb)] == tb)
      modifies this`tbs, this`armed, this`firstSeen
      ensures Shape() && Translates(old(View()), tb, View())
    {
      var k := KeyOf(tb);
      if k in tbs {
        armed := armed - {k};
      } else {
        tbs := tbs[k := tb];
        armed := armed + {k};
        firstSeen := firstSeen[k := 0];
      }
      assert Vcpus() == old(Vcpus());
    }

    /** Books one event whose effect the fields now show. */
    ghost method Advance(ev: Event)
      requires Shape() && Execution(config, trace, states) && Next(config, states[|trace|], ev, View())
      modifies this`trace, this`states
      ensures trace == old(trace) + [ev] && states == old(states) + [View()]
      ensures Execution(config, trace, states) && states[|trace|] == View()
    {
      ExecutionExtends(config, trace, states, ev, View());
      trace, states := trace + [ev], states + [View()];
      assert Vcpus() == old(Vcpus());
    }

    // ---- Execution ----

    /** No callback of the vCPU is under way. */
    predicate Idling(v: nat)
      requires v < |slots|
      reads this`slots
    {
      slots[v].numbering.None? && slots[v].flight.None?
    }

    /** The inline stores of tiers 1 and 2 at the vCPU's next instruction. */
    method ReachInsn(v: nat)
      requires Valid() && v < config.vcpus && Idling(v)
      requires slots[v].current.Some? && slots[v].next < |slots[v].current.value.insns|
      modifies this`slots, this`trace, this`states
      ensures Valid() && trace == old(trace) + [Reach(v, old(slots[v].current.value), old(slots[v].next))]
    {
      ghost var tb, i := slots[v].current.value, slots[v].next;
      StoreInline(v);
      OneMoreEvent(arch, trace, Reach(v, tb, i));
      Advance(Reach(v, tb, i));
    }

    method StoreInline(v: nat)
      requires Shape() && v < config.vcpus && Idling(v)
      requires slots[v].current.Some? && slots[v].next < |slots[v].current.value.insns|
      modifies this`slots
      ensures Shape() && Reaches(config, old(View()), v, old(slots[v]).current.value, old(slots[v]).next, View())
    {
      var tb, i := slots[v].current.value, slots[v].next;
      var slot := slots[v].(next := i + 1);
      if config.tier >= 1 && i == |tb.insns| - 1 {
        slot := slot.(lastTbEnd := End(tb));
        slot := slot.(fallThrough := FallThrough(tb));
      }
      if config.tier >= 2 && tb.insns[i].cls.Indirect? {
        slot := slot.(pending := tb.insns[i].addr);
      }
      slots := slots[v := slot];
      assert Vcpus() == old(Vcpus())[v := Stored(config, old(Vcpus())[v], tb, i)];
    }

    method LogFlush(batch: seq<EdgeRecord>, elapsed: u64, vcpu: u32, n: u32)
      requires Logged() && OnlyFlushes(calls, log) && AllFit(batch)
      modifies this`calls, this`log, writer
      ensures Logged() && OnlyFlushes(calls, log) && log == old(log) + [batch]
      ensures calls == old(calls) + [BranchBatch(batch), FlushMarker(elapsed, vcpu, n)]
    {
      ghost var before := calls;
      LogBatch(batch);
      LogMarker(elapsed, vcpu, n);
      TwoMore(before, BranchBatch(batch), FlushMarker(elapsed, vcpu, n));
    }

    method LogBatch(batch: seq<EdgeRecord>)
      requires Logged() && OnlyFlushes(calls, log) && AllFit(batch)
      modifies this`calls, this`log, writer
      ensures Logged() && OnlyFlushes(calls, log)
      ensures calls == old(calls) + [BranchBatch(batch)] && log == old(log) + [batch]
    {
      var ok := writer.WriteBranchEdgeBatch(batch);
      Booked(header, calls, BranchBatch(batch));
      OneMoreFlush(calls, log, batch);
      calls := calls + [BranchBatch(batch)];
      log := log + [batch];
    }

    method LogMarker(elapsed: u64, v: u32, n: u32)
      requires Logged() && OnlyFlushes(calls, log)
      modifies this`calls, writer
      ensures Logged() && OnlyFlushes(calls, log)
      ensures calls == old(calls) + [FlushMarker(elapsed, v, n)]
    {
      var ok := writer.WriteFlushMarker(elapsed, v, n);
      OneMoreMarker(calls, log, FlushMarker(elapsed, v, n));
      Book(FlushMarker(elapsed, v, n));
    }

    /** Records a taken branch; in streaming mode a full accumulator is drained into a flight. */
    method RecordEdge(v: nat, from: u64, to: u64)
      requires Shape() && v < config.vcpus && slots[v].flight.None?
      modifies accumulators[v], this`slots
      ensures |slots| == |old(slots)| && slots == old(slots)[v := old(slots)[v].(flight := slots[v].flight)]
      ensures RecordsEdge(config, old(accumulators[v].edges), Edge(from, to), accumulators[v].edges, slots[v].flight)
    {
      var acc := accumulators[v];
      acc.Record(from, to);
      if config.streaming && acc.ShouldFlush(config.topN) {
        var batch := acc.Drain();
        slots := slots[v := slots[v].(flight := Some(Flight(batch, false)))];
      }
    }

    method RecordIndirectCall(v: nat, callsite: u64, target: u64)
      requires v < |slots|
      modifies this`slots
      ensures slots == old(slots)[v := old(slots)[v].(indirect := Bump(old(slots)[v].indirect, Edge(callsite, target),
              1))]
    {
      slots := slots[v := slots[v].(indirect := Bump(slots[v].indirect, Edge(callsite, target), 1))];
    }

    /** The branch callback: records the edge, and pairs a pending indirect callsite with its target. */
    method BranchTaken(v: nat, to: u64)
      requires Shape() && v < config.vcpus && slots[v].flight.None?
      modifies accumulators[v], this`slots
      ensures |slots| == |old(slots)|
      ensures var u := old(slots[v]);
              if u.lastTbEnd == 0 then slots == old(slots) && accumulators[v].edges == old(accumulators[v].edges)
              else
                && slots == old(slots)[v := u.(indirect := if config.tier >= 2 && u.pending != 0
                                                            then Bump(u.indirect, Edge(u.pending, to), 1)
                                                            else u.indirect,
                                               flight := slots[v].flight)]
                && RecordsEdge(config, old(accumulators[v].edges), Edge(u.lastTbEnd, to), accumulators[v].edges,
                               slots[v].flight)
    {
      var from := slots[v].lastTbEnd;
      if from == 0 {
        return;
      }
      RecordEdge(v, from, to);
      if config.tier >= 2 {
        var callsite := slots[v].pending;
        if callsite != 0 {
          RecordIndirectCall(v, callsite, to);
        }
      }
    }

    /** Tier 0 at block entry: count, and start the first-seen callback when this vCPU's count becomes 1. */
    method CountExecution(v: nat, k: TbKey)
      requires v < |slots| && slots[v].numbering.None?
      modifies this`slots
      ensures slots == old(slots)[v := old(slots)[v].(
                exec := Bump(old(slots)[v].exec, k, 1),
                numbering := if k in armed && Get(old(slots)[v].exec, k) == 0 then Some(Numbering(k, None)) else None)]
    {
      slots := slots[v := slots[v].(exec := Bump(slots[v].exec, k, 1))];
      if k in armed && slots[v].exec[k] == 1 {
        slots := slots[v := slots[v].(numbering := Some(Numbering(k, None)))];
      }
    }

    /** Tier 2 clears the pending callsite; the vCPU is now at the block's first instruction. */
    method SettleIn(v: nat, tb: Tb)
      requires v < |slots|
      modifies this`slots
      ensures slots == old(slots)[v := old(slots)[v].(pending := if config.tier >= 2 then 0 else old(slots)[v].pending,
                                                      current := Some(tb), next := 0)]
    {
      if config.tier >= 2 {
        slots := slots[v := slots[v].(pending := 0)];
      }
      slots := slots[v := slots[v].(current := Some(tb), next := 0)];
    }

    /** What happens at block entry that concerns the vCPU only, in registration order. */
    method RunEntryCallbacks(v: nat, tb: Tb)
      requires Shape() && v < config.vcpus && Idling(v)
      modifies accumulators[v], this`slots
      ensures Shape() && slots == old(slots)[v := slots[v]]
      ensures Arrives(config, VcpuOf(old(slots[v]), old(accumulators[v].edges)), tb,
                      KeyOf(tb) in armed && Get(old(slots[v]).exec, KeyOf(tb)) == 0,
                      VcpuOf(slots[v], accumulators[v].edges))
    {
      CountExecution(v, KeyOf(tb));
      if config.tier >= 1 && slots[v].fallThrough != Start(tb) {
        BranchTaken(v, Start(tb));
      }
      SettleIn(v, tb);
    }

    /** A vCPU enters a block. */
    method EnterTb(v: nat, tb: Tb)
      requires Valid() && v < config.vcpus && Idling(v) && KeyOf(tb) in tbs && tbs[KeyOf(tb)] == tb
      modifies accumulators[v], this`slots, this`trace, this`states
      ensures Valid() && trace == old(trace) + [Enter(v, tb)]
    {
      ArriveAt(v, tb);
      OneMoreEvent(arch, trace, Enter(v, tb));
      Advance(Enter(v, tb));
    }

    method ArriveAt(v: nat, tb: Tb)
      requires Shape() && v < config.vcpus && Idling(v) && KeyOf(tb) in tbs && tbs[KeyOf(tb)] == tb
      modifies accumulators[v], this`slots
      ensures Shape() && Enters(config, old(View()), v, tb, View())
    {
      ghost var before := Vcpus();
      RunEntryCallbacks(v, tb);
      assert Vcpus() == before[v := VcpuOf(slots[v], accumulators[v].edges)];
    }

    /** The first-seen callback's `fetch_add`. */
    method TakeNumber(v: nat)
      requires Valid() && v < config.vcpus && slots[v].numbering.Some? && slots[v].numbering.value.taken.None?
      modifies this`slots, this`nextSeq, this`trace, this`states
      ensures Valid() && trace == old(trace) + [Event.TakeNumber(v)]
    {
      FetchAdd(v);
      OneMoreEvent(arch, trace, Event.TakeNumber(v));
      Advance(Event.TakeNumber(v));
    }

    method FetchAdd(v: nat)
      requires Shape() && v < config.vcpus && slots[v].numbering.Some? && slots[v].numbering.value.taken.None?
      modifies this`slots, this`nextSeq
      ensures Shape() && TakesNumber(old(View()), v, View())
    {
      ghost var before := Vcpus();
      slots := slots[v := slots[v].(numbering := Some(slots[v].numbering.value.(taken := Some(nextSeq))))];
      nextSeq := nextSeq + 1;
      assert Vcpus() == before[v := VcpuOf(slots[v], accumulators[v].edges)];
    }

    /** Its store. */
    method StoreNumber(v: nat)
      requires Valid() && v < config.vcpus && slots[v].numbering.Some? && slots[v].numbering.value.taken.Some?
      modifies this`slots, this`firstSeen, this`trace, this`states
      ensures Valid() && trace == old(trace) + [Event.StoreNumber(v)]
    {
      PutNumber(v);
      OneMoreEvent(arch, trace, Event.StoreNumber(v));
      Advance(Event.StoreNumber(v));
    }

    method PutNumber(v: nat)
      requires Shape() && v < config.vcpus && slots[v].numbering.Some? && slots[v].numbering.value.taken.Some?
      modifies this`slots, this`firstSeen
      ensures Shape() && StoresNumber(old(View()), v, View())
    {
      ghost var before := Vcpus();
      firstSeen := firstSeen[slots[v].numbering.value.key := slots[v].numbering.value.taken.value];
      slots := slots[v := slots[v].(numbering := None)];
      assert Vcpus() == before[v := VcpuOf(slots[v], accumulators[v].edges)];
    }

    method AddToFlushed(batch: seq<EdgeRecord>)
      modifies this`flushed
      ensures flushed == AddBatch(old(flushed), batch)
    {
      for i := 0 to |batch|
        invariant AddBatch(flushed, batch[i..]) == AddBatch(old(flushed), batch)
      {
        assert batch[i..][1..] == batch[i + 1..];
        flushed := Bump(flushed, batch[i].to, batch[i].count);
      }
    }

    /** A flush under the lock of the per-target counts. */
    method CountFlush(v: nat)
      requires Valid() && v < config.vcpus && slots[v].numbering.None?
      requires slots[v].flight.Some? && !slots[v].flight.value.counted
      modifies this`slots, this`flushed, this`trace, this`states
      ensures Valid() && trace == old(trace) + [Event.CountFlush(v)]
    {
      CountBatch(v);
      OneMoreEvent(arch, trace, Event.CountFlush(v));
      Advance(Event.CountFlush(v));
    }

    method CountBatch(v: nat)
      requires Shape() && v < config.vcpus && slots[v].numbering.None?
      requires slots[v].flight.Some? && !slots[v].flight.value.counted
      modifies this`slots, this`flushed
      ensures Shape() && CountsFlush(old(View()), v, View())
    {
      ghost var before := Vcpus();
      AddToFlushed(slots[v].flight.value.batch);
      slots := slots[v := slots[v].(flight := Some(slots[v].flight.value.(counted := true)))];
      assert Vcpus() == before[v := VcpuOf(slots[v], accumulators[v].edges)];
    }

    /** A flush under the writer's lock: the batch and a marker. */
    method WriteFlush(v: nat, elapsed: u64)
      requires Valid() && v < config.vcpus && config.tier >= 1 && |trace| < TWO_64
      requires slots[v].flight.Some? && slots[v].flight.value.counted
      modifies this`slots, this`calls, this`log, this`trace, this`states, writer
      ensures Valid() && trace == old(trace) + [Event.WriteFlush(v)]
      ensures var batch := old(slots[v]).flight.value.batch;
              calls == old(calls) + [BranchBatch(batch),
                  FlushMarker(elapsed, v % 0x1_0000_0000, |batch| % 0x1_0000_0000)]
    {
      FlightFits(config, trace, states, v);
      WriteOut(v, elapsed);
      OneMoreEvent(arch, trace, Event.WriteFlush(v));
      Advance(Event.WriteFlush(v));
    }

    method WriteOut(v: nat, elapsed: u64)
      requires Shape() && Logged() && OnlyFlushes(calls, log) && v < config.vcpus
      requires slots[v].flight.Some? && slots[v].flight.value.counted && AllFit(slots[v].flight.value.batch)
      modifies this`slots, this`calls, this`log, writer
      ensures Shape() && Logged() && OnlyFlushes(calls, log) && WritesFlush(old(View()), v, View())
      ensures var batch := old(slots[v]).flight.value.batch;
              calls == old(calls) + [BranchBatch(batch),
                  FlushMarker(elapsed, v % 0x1_0000_0000, |batch| % 0x1_0000_0000)]
    {
      ghost var before := Vcpus();
      var batch := slots[v].flight.value.batch;
      var vcpu, n := v % 0x1_0000_0000, |batch| % 0x1_0000_0000;
      LogFlush(batch, elapsed, vcpu, n);
      slots := slots[v := slots[v].(flight := None)];
      assert Vcpus() == before[v := VcpuOf(slots[v], accumulators[v].edges)];
    }

    // ---- Exit ----

    /** Drains every accumulator; the vCPUs have stopped. */
    method DrainAll() returns (all: seq<EdgeRecord>, ghost batches: seq<seq<EdgeRecord>>)
      requires Shape() && Quiet(View())
      modifies accumulators
      ensures all == Flatten(batches) && DrainsAll(batches, old(Vcpus()))
      ensures forall i | 0 <= i < |accumulators| :: accumulators[i].edges == map[]
    {
      all, batches := [], [];
      for v := 0 to |accumulators|
        invariant |batches| == v && all == Flatten(batches)
        invariant forall i | 0 <= i < v :: Enumerates(batches[i], old(accumulators[i].edges))
        invariant forall i | 0 <= i < v :: accumulators[i].edges == map[]
        invariant forall i | v <= i < |accumulators| :: accumulators[i].edges == old(accumulators[i].edges)
      {
        var batch := accumulators[v].Drain();
        assert (batches + [batch])[..|batches|] == batches;
        all := all + batch;
        batches := batches + [batch];
      }
    }

    /** Execution counts of all blocks, summed over the vCPUs. */
    method SumCounters() returns (totals: map<TbKey, nat>)
      requires Shape()
      ensures totals == ExecTotals(View())
    {
      var execs := seq(|slots|, v requires 0 <= v < |slots| reads this => slots[v].exec);
      totals := SumAllCounters(tbs, execs);
      forall k | k in tbs ensures totals[k] == TotalExec(View(), k) {
        SlicesSum(execs, Vcpus(), k);
      }
    }

    /** Indirect calls of all vCPUs, merged. */
    method SumIndirects() returns (indirects: seq<CallRecord>)
      requires Shape()
      ensures ListsIndirects(View(), indirects)
    {
      var maps := seq(|slots|, v requires 0 <= v < |slots| reads this => slots[v].indirect);
      indirects := MergeIndirects(maps);
      forall e: Edge ensures TotalIf(indirects, Is(e)) == IndirectCalls(View(), Is(e)) {
        IndirectSlices(maps, Vcpus(), Is(e));
      }
    }

    method DumpBlocks(totals: map<TbKey, nat>) returns (keys: seq<TbKey>, records: seq<TbExec>)
      requires Valid() && |trace| < TWO_64 - 1 && totals == ExecTotals(View())
      ensures ListsBlocks(View(), keys, records)
    {
      forall k | k in tbs ensures totals[k] < TWO_64 && Get(firstSeen, k) < TWO_64 {
        TotalsAreSmall(config, trace, states, k);
      }
      keys, records := ListBlocks(tbs, totals, firstSeen);
    }

    method DumpDirects(totals: map<TbKey, nat>) returns (records: seq<CallRecord>)
      requires Valid() && |trace| < TWO_64 - 1 && totals == ExecTotals(View())
      ensures ListsDirects(View(), directs, records) && AllFit(records)
    {
      ghost var index: seq<DirectCallIndex.Entry>;
      records, index := ListDirects(tbs, totals, directs);
      forall e | e in index ensures e.exec < TWO_64 {
        var k :| k in tbs && DirectCallIndex.EntryOf(tbs, totals, k) == e;
        TotalsAreSmall(config, trace, states, k);
      }
      DirectsFit(index, records);
    }

    /** Drains and merges the accumulators, and derives the fall-throughs. */
    method DumpEdges(totals: map<TbKey, nat>) returns (edges: seq<EdgeRecord>, falls: seq<EdgeRecord>)
      requires Valid() && Quiet(View()) && config.tier >= 1 && |trace| < TWO_64 - 1 && totals == ExecTotals(View())
      modifies accumulators
      ensures DistinctEdges(edges) && AllFit(edges) && AllFit(falls)
      ensures ExitFallThroughs(old(View()), edges, falls)
    {
      ghost var s := View();
      ghost var batches: seq<seq<EdgeRecord>>;
      var all: seq<EdgeRecord>;
      all, batches := DrainAll();
      edges := MergeEntries(all);
      MergesDrained(s, batches, edges);
      falls := ComputeFallThroughs(tbs, totals, edges, flushed);
      EdgesFit(config, trace, states, edges);
      FallsFit(config, trace, states, edges, falls);
    }

    /** Tier 2's part. */
    method DumpCalls(totals: map<TbKey, nat>) returns (directCalls: seq<CallRecord>, indirectCalls: seq<CallRecord>)
      requires Valid() && |trace| < TWO_64 - 1 && totals == ExecTotals(View())
      ensures AllFit(directCalls) && AllFit(indirectCalls)
      ensures config.tier >= 2 ==> ListsDirects(View(), directs, directCalls) && ListsIndirects(View(), indirectCalls)
    {
      directCalls, indirectCalls := [], [];
      if config.tier >= 2 {
        directCalls := DumpDirects(totals);
        indirectCalls := SumIndirects();
        IndirectsFit(config, trace, states, indirectCalls);
      }
    }

    /** Everything the exit handler will write. */
    method MakeDump() returns (d: Dump)
      requires Valid() && Quiet(View()) && |trace| < TWO_64 - 1
      modifies accumulators
      ensures IsDump(config, old(View()), DirectCalls(trace), d)
    {
      var totals := SumCounters();
      var keys, blocks := DumpBlocks(totals);
      var directCalls, indirectCalls := DumpCalls(totals);
      var edges, falls := [], [];
      if config.tier >= 1 {
        edges, falls := DumpEdges(totals);
      }
      d := Dump(keys, blocks, edges, falls, directCalls, indirectCalls);
    }

    /** Writes the dump, tier by tier, and the footer. */
    method WriteDump(d: Dump, wallTime: u64)
      requires Logged() && AllFit(d.edges) && AllFit(d.falls) && AllFit(d.directs) && AllFit(d.indirects)
      modifies this`calls, writer
      ensures Logged() && calls == RunCalls(config, old(calls), d, wallTime)
    {
      WriteBlocks(d.tbs);
      WriteEdges(d);
      WriteCalls(d);
      Regroup(old(calls), [TbExecBatch(d.tbs)], EdgeCalls(config, d), CallCalls(config, d));
      WriteLast(wallTime);
    }

    method WriteBlocks(blocks: seq<TbExec>)
      requires Logged()
      modifies this`calls, writer
      ensures Logged() && calls == old(calls) + [TbExecBatch(blocks)]
    {
      var ok := writer.WriteTbExecBatch(blocks);
      Book(TbExecBatch(blocks));
    }

    /** Tier 1's part. */
    method WriteEdges(d: Dump)
      requires Logged() && AllFit(d.edges) && AllFit(d.falls)
      modifies this`calls, writer
      ensures Logged() && calls == old(calls) + EdgeCalls(config, d)
    {
      if config.tier >= 1 {
        var ok := writer.WriteBranchEdgeBatch(d.edges);
        Book(BranchBatch(d.edges));
        ok := writer.WriteFallThroughBatch(d.falls);
        Book(FallThroughBatch(d.falls));
      }
    }

    /** Tier 2's part. */
    method WriteCalls(d: Dump)
      requires Logged() && AllFit(d.directs) && AllFit(d.indirects)
      modifies this`calls, writer
      ensures Logged() && calls == old(calls) + CallCalls(config, d)
    {
      if config.tier >= 2 {
        var ok := writer.WriteDirectCallBatch(d.directs);
        Book(DirectCallBatch(d.directs));
        ok := writer.WriteIndirectCallBatch(d.indirects);
        Book(IndirectCallBatch(d.indirects));
      }
    }

    method WriteLast(wallTime: u64)
      requires Logged()
      modifies this`calls, writer
      ensures Logged() && calls == old(calls) + [ClosingCall(old(calls), wallTime)]
    {
      var ok := writer.WriteTheFooter(wallTime);
      Book(ClosingCall(calls, wallTime));
    }

    /** Books a call the writer has just made. */
    ghost method Book(call: Call)
      requires writer.out == Log(header, calls) + EncodeFrames(Frames(call))
      requires writer.RunningTotals() == CallTotals(TotalsOf(calls), call)
      requires ValidHeader(header) && ValidCalls(calls) && ValidCall(call)
      modifies this`calls
      ensures Logged() && calls == old(calls) + [call]
    {
      Booked(header, calls, call);
      calls := calls + [call];
    }

    /**
     The exit callback. Whatever parses the file afterwards gets the profile of a complete run of
     this plugin's trace.
     */
    method PluginExit(wallTime: u64) returns (d: Dump)
      requires Valid() && Quiet(View()) && |trace| < TWO_64 - 1
      modifies this`calls, accumulators, writer
      ensures Logged() && calls == RunCalls(config, old(calls), d, wallTime)
      ensures forall p | IsProfileOf(writer.out, p) ::
                CompleteRun(config, trace, states, header, old(calls), d, wallTime, p)
    {
      d := MakeDump();
      WriteDump(d, wallTime);
    }
  }

  function ModeName(sysemu: bool): bytes {
    if sysemu then AsciiText("sysemu") else AsciiText("linux-user")
  }

  function MetaCalls(binary: bytes, archName: bytes, mode: bytes): seq<Call> {
    [StringMeta(AsciiText("binary_path"), binary), StringMeta(AsciiText("arch"), archName),
     StringMeta(AsciiText("mode"), mode)]
  }

  /** The calls start with these, and no later one is metadata. */
  ghost predicate Introduced(meta: seq<Call>, calls: seq<Call>) {
    meta <= calls && forall i | |meta| <= i < |calls| :: !calls[i].StringMeta?
  }

  lemma Regroup(a: seq<Call>, b: seq<Call>, c: seq<Call>, d: seq<Call>)
    ensures a + b + c + d == a + (b + c + d)
  {
  }

  lemma TwoMore(calls: seq<Call>, x: Call, y: Call)
    ensures calls + [x] + [y] == calls + [x, y]
  {
  }

  lemma OneMoreEvent(arch: Arch, t: Trace, ev: Event)
    requires !ev.Translate?
    ensures DirectCalls(t + [ev]) == DirectCalls(t)
    ensures AllDecoded(arch, t) ==> AllDecoded(arch, t + [ev])
  {
    assert (t + [ev])[..|t|] == t;
  }

  lemma OneMoreTranslation(arch: Arch, t: Trace, tb: Tb)
    ensures DirectCalls(t + [Translate(tb)]) == DirectCalls(t) + DirectsIn(tb.insns)
    ensures AllDecoded(arch, t) && Decoded(arch, tb) ==> AllDecoded(arch, t + [Translate(tb)])
  {
    assert (t + [Translate(tb)])[..|t|] == t;
  }

  /** No count of a drained batch exceeds the trace's length. */
  lemma FlightFits(c: Config, t: Trace, states: seq<State>, v: nat)
    requires c.tier >= 1 && Execution(c, t, states) && |t| < TWO_64
    requires v < |states[|t|].vcpus| && states[|t|].vcpus[v].flight.Some?
    ensures AllFit(states[|t|].vcpus[v].flight.value.batch)
  {
    var s := states[|t|];
    forall e: Edge ensures TotalIf(s.vcpus[v].flight.value.batch, Is(e)) < TWO_64 {
      TakenBranchesConserved(c, t, states, Is(e));
      CountAtMostLength(t, Taken(Is(e)));
      SumByMember(s.vcpus, v, Holds(Is(e)));
    }
    FitsByTotals(s.vcpus[v].flight.value.batch);
  }

  function FreshSlots(n: nat): (slots: seq<Slot>)
    ensures |slots| == n && forall i | 0 <= i < n :: slots[i] == FreshSlot()
  {
    seq(n, i => FreshSlot())
  }

  function FreshSlot(): Slot {
    Slot(0, 0, 0, map[], map[], None, None, None, 0)
  }

  method NewAccumulators(c: Config) returns (accs: seq<EdgeAccumulator>)
    ensures |accs| == c.vcpus && fresh(accs)
    ensures forall i, j | 0 <= i < j < |accs| :: accs[i] != accs[j]
    ensures forall i | 0 <= i < |accs| ::
              accs[i].capacity == c.topN && accs[i].streaming == c.streaming && accs[i].edges == map[]
  {
    accs := [];
    for v := 0 to c.vcpus
      invariant |accs| == v && fresh(accs)
      invariant forall i, j | 0 <= i < j < v :: accs[i] != accs[j]
      invariant forall i | 0 <= i < v ::
          accs[i].capacity == c.topN && accs[i].streaming == c.streaming && accs[i].edges == map[]
    {
      var acc := new EdgeAccumulator(c.topN, c.streaming);
      accs := accs + [acc];
    }
  }

  lemma EmptyLog(h: FileHeader)
    ensures Log(h, []) == EncodeHeader(h) && TotalsOf([]) == Totals(0, 0, 0)
  {
  }

  lemma OneMoreFlush(calls: seq<Call>, log: seq<seq<EdgeRecord>>, batch: seq<EdgeRecord>)
    requires OnlyFlushes(calls, log)
    ensures OnlyFlushes(calls + [BranchBatch(batch)], log + [batch])
  {
    assert (calls + [BranchBatch(batch)])[..|calls|] == calls;
  }

  lemma OneMoreMarker(calls: seq<Call>, log: seq<seq<EdgeRecord>>, marker: Call)
    requires OnlyFlushes(calls, log) && marker.FlushMarker?
    ensures OnlyFlushes(calls + [marker], log)
  {
    assert (calls + [marker])[..|calls|] == calls;
  }

  /** The books after one more call. */
  lemma Booked(h: FileHeader, calls: seq<Call>, call: Call)
    ensures Log(h, calls + [call]) == Log(h, calls) + EncodeFrames(Frames(call))
    ensures TotalsOf(calls + [call]) == CallTotals(TotalsOf(calls), call)
    ensures ValidCalls(calls) && ValidCall(call) ==> ValidCalls(calls + [call])
    ensures !call.BranchBatch? ==> FlushedBatches(calls + [call]) == FlushedBatches(calls)
  {
    LogAppend(h, calls, call);
    TotalsAppend(calls, call);
    NoFlush(calls, call);
  }

  lemma TotalsAppend(calls: seq<Call>, call: Call)
    ensures TotalsOf(calls + [call]) == CallTotals(TotalsOf(calls), call)
  {
    assert (calls + [call])[..|calls|] == calls;
  }

  lemma NoFlush(calls: seq<Call>, call: Call)
    ensures !call.BranchBatch? ==> FlushedBatches(calls + [call]) == FlushedBatches(calls)
  {
    assert (calls + [call])[..|calls|] == calls;
  }
}
