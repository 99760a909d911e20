/**
 Lock-free growth of the per-vCPU store, step by atomic step. Callers run `ensure_vcpu_state`
 concurrently; each load, `fetch_add` and slot store is one step of one caller.
 */
module VcpuStore {
  import opened Words

  const MAX_VCPUS := 256

  /** Where a caller is. `Wants` in the loop test, `Claims` past it, `Holds` with a slot index but not stored. */
  datatype Pc =
    | AtIf
    | Wants              // about to load `len` in the loop condition
    | Claims             // found `len` too small, about to `fetch_add`
    | Holds(idx: nat)    // claimed `idx`, about to publish
    | Panicked           // the index assertion failed
    | Done

  /** A caller asks for `count` vCPUs. */
  datatype Caller = Caller(count: nat, pc: Pc)

  /** `slots[i]` is null or holds who published it. */
  datatype Store = Store(len: nat, slots: seq<Option<nat>>, callers: seq<Caller>)

  function Start(counts: seq<nat>): Store {
    Store(0, seq(MAX_VCPUS, i => None), seq(|counts|, i requires 0 <= i < |counts| => Caller(counts[i], AtIf)))
  }

  /** One atomic step of caller `c`. */
  function Step(s: Store, c: nat): Store
    requires c < |s.callers|
  {
    var me := s.callers[c];
    match me.pc
    case AtIf => Goto(s, c, if s.len < me.count then Wants else Done)
    case Wants => Goto(s, c, if s.len < me.count then Claims else Done)
    case Claims => Goto(s.(len := s.len + 1), c, if s.len < MAX_VCPUS then Holds(s.len) else Panicked)
    case Holds(idx) =>
      if idx < |s.slots| then Goto(s.(slots := s.slots[idx := Some(c)]), c, Wants) else s
    case Panicked => s
    case Done => s
  }

  function Goto(s: Store, c: nat, pc: Pc): Store
    requires c < |s.callers|
  {
    s.(callers := s.callers[c := s.callers[c].(pc := pc)])
  }

  predicate ValidSchedule(callers: nat, schedule: seq<nat>) {
    forall i | 0 <= i < |schedule| :: schedule[i] < callers
  }

  /** The store after a schedule: which caller steps when. */
  function Run(counts: seq<nat>, schedule: seq<nat>): Store
    requires ValidSchedule(|counts|, schedule)
    ensures |Run(counts, schedule).callers| == |counts|
  {
    if schedule == [] then Start(counts)
    else Step(Run(counts, schedule[..|schedule| - 1]), schedule[|schedule| - 1])
  }

  /** `get_mut`: the slot of a vCPU, if published. */
  function GetMut(s: Store, idx: nat): Option<nat> {
    if idx >= s.len || idx >= |s.slots| then None else s.slots[idx]
  }

  // ---- Counting callers ----

  /** How many callers have passed the check but not pushed yet. */
  ghost function Claiming(callers: seq<Caller>): nat {
    if callers == [] then 0 else Claiming(callers[1..]) + (if callers[0].pc.Claims? then 1 else 0)
  }

  lemma {:induction false} ClaimingUpdate(callers: seq<Caller>, c: nat, x: Caller)
    requires c < |callers|
    ensures Claiming(callers[c := x]) + (if callers[c].pc.Claims? then 1 else 0) ==
            Claiming(callers) + (if x.pc.Claims? then 1 else 0)
  {
    if c == 0 {
      assert callers[c := x][1..] == callers[1..];
    } else {
      assert callers[c := x][1..] == callers[1..][c - 1 := x];
      ClaimingUpdate(callers[1..], c - 1, x);
    }
  }

  lemma {:induction false} ClaimingAtMostAll(callers: seq<Caller>)
    ensures Claiming(callers) <= |callers|
  {
    if callers != [] {
      ClaimingAtMostAll(callers[1..]);
    }
  }

  // ---- The invariant ----

  ghost predicate Safe(s: Store, m: nat) {
    && |s.slots| == MAX_VCPUS
    && (forall c | 0 <= c < |s.callers| :: s.callers[c].count <= m)
    && Bounded(s, m) && HeldOnce(s) && Covered(s) && Settled(s)
  }

  /** With K callers, growth overshoots the largest request by less than K. */
  ghost predicate Bounded(s: Store, m: nat) {
    s.len + Claiming(s.callers) == 0 || s.len + Claiming(s.callers) <= m + |s.callers| - 1
  }

  /** A claimed index is below `len`, unpublished, and claimed once. */
  ghost predicate HeldOnce(s: Store)
    requires |s.slots| == MAX_VCPUS
  {
    && (forall c | 0 <= c < |s.callers| && s.callers[c].pc.Holds? ::
          s.callers[c].pc.idx < s.len && s.callers[c].pc.idx < MAX_VCPUS && s.slots[s.callers[c].pc.idx].None?)
    && (forall c, d | 0 <= c < d < |s.callers| && s.callers[c].pc.Holds? && s.callers[d].pc.Holds? ::
          s.callers[c].pc.idx != s.callers[d].pc.idx)
  }

  /** Every index below `len` is published or held; none above is published. */
  ghost predicate Covered(s: Store)
    requires |s.slots| == MAX_VCPUS
  {
    && (forall i | 0 <= i < s.len && i < MAX_VCPUS ::
          s.slots[i].Some? || exists c | 0 <= c < |s.callers| :: s.callers[c].pc == Holds(i))
    && (forall i | s.len <= i < MAX_VCPUS :: s.slots[i].None?)
  }

  /** Only past the capacity does anyone panic, and whoever is done has enough slots. */
  ghost predicate Settled(s: Store) {
    && (forall c | 0 <= c < |s.callers| && s.callers[c].pc.Panicked? :: MAX_VCPUS < s.len)
    && (forall c | 0 <= c < |s.callers| && s.callers[c].pc.Done? :: s.callers[c].count <= s.len)
  }

  lemma StepKeepsBound(s: Store, c: nat, m: nat)
    requires Safe(s, m) && c < |s.callers|
    ensures Bounded(Step(s, c), m)
  {
    var s' := Step(s, c);
    ClaimingUpdate(s.callers, c, s'.callers[c]);
    ClaimingAtMostAll(s'.callers);
    assert s.callers[c := s.callers[c]] == s.callers;
  }

  lemma StepKeepsHeldOnce(s: Store, c: nat, m: nat)
    requires Safe(s, m) && c < |s.callers|
    ensures |Step(s, c).slots| == MAX_VCPUS && HeldOnce(Step(s, c))
  {
  }

  lemma StepKeepsCovered(s: Store, c: nat, m: nat)
    requires Safe(s, m) && c < |s.callers|
    ensures |Step(s, c).slots| == MAX_VCPUS && Covered(Step(s, c))
  {
    var s' := Step(s, c);
    forall i | 0 <= i < s'.len && i < MAX_VCPUS
      ensures s'.slots[i].Some? || exists d | 0 <= d < |s'.callers| :: s'.callers[d].pc == Holds(i)
    {
      if i == s.len {
        assert s'.callers[c].pc == Holds(i);
      } else if s.slots[i].None? {
        var d :| 0 <= d < |s.callers| && s.callers[d].pc == Holds(i);
        assert d != c ==> s'.callers[d].pc == Holds(i);
      }
    }
  }

  lemma StepKeepsSettled(s: Store, c: nat, m: nat)
    requires Safe(s, m) && c < |s.callers|
    ensures Settled(Step(s, c))
  {
  }

  lemma StepKeepsSafe(s: Store, c: nat, m: nat)
    requires Safe(s, m) && c < |s.callers|
    ensures Safe(Step(s, c), m)
  {
    StepKeepsBound(s, c, m);
    StepKeepsHeldOnce(s, c, m);
    StepKeepsCovered(s, c, m);
    StepKeepsSettled(s, c, m);
    assert forall d | 0 <= d < |s.callers| :: Step(s, c).callers[d].count == s.callers[d].count;
  }

  lemma StartIsSafe(counts: seq<nat>, m: nat)
    requires forall i | 0 <= i < |counts| :: counts[i] <= m
    ensures Safe(Start(counts), m)
  {
    NoneClaimsAtStart(Start(counts).callers);
  }

  lemma {:induction false} NoneClaimsAtStart(callers: seq<Caller>)
    requires forall i | 0 <= i < |callers| :: callers[i].pc.AtIf?
    ensures Claiming(callers) == 0
  {
    if callers != [] {
      NoneClaimsAtStart(callers[1..]);
    }
  }

  /** Every reachable store is safe, whatever the schedule. */
  lemma {:induction false} AlwaysSafe(counts: seq<nat>, m: nat, schedule: seq<nat>)
    requires ValidSchedule(|counts|, schedule)
    requires forall i | 0 <= i < |counts| :: counts[i] <= m
    ensures Safe(Run(counts, schedule), m)
  {
    if schedule == [] {
      StartIsSafe(counts, m);
    } else {
      AlwaysSafe(counts, m, schedule[..|schedule| - 1]);
      StepKeepsSafe(Run(counts, schedule[..|schedule| - 1]), schedule[|schedule| - 1], m);
    }
  }

  /** `len`, with the callers about to push, never exceeds M + K - 1. */
  lemma GrowthIsBounded(counts: seq<nat>, m: nat, schedule: seq<nat>)
    requires counts != [] && ValidSchedule(|counts|, schedule)
    requires forall i | 0 <= i < |counts| :: counts[i] <= m
    ensures Run(counts, schedule).len + Claiming(Run(counts, schedule).callers) <= m + |counts| - 1
  {
    AlwaysSafe(counts, m, schedule);
  }

  /** With M + K - 1 within the capacity the assertion cannot fire. */
  lemma NeverPanics(counts: seq<nat>, m: nat, schedule: seq<nat>, c: nat)
    requires ValidSchedule(|counts|, schedule)
    requires forall i | 0 <= i < |counts| :: counts[i] <= m
    requires c < |counts| && m + |counts| - 1 <= 256
    ensures !Run(counts, schedule).callers[c].pc.Panicked?
  {
    AlwaysSafe(counts, m, schedule);
  }

  // ---- The bound is tight ----

  function Same(k: nat, m: nat): seq<nat> {
    seq(k, i => m)
  }

  /** One more step of caller `c`. */
  lemma Next(counts: seq<nat>, schedule: seq<nat>, c: nat) returns (longer: seq<nat>)
    requires ValidSchedule(|counts|, schedule) && c < |counts|
    ensures ValidSchedule(|counts|, longer) && Run(counts, longer) == Step(Run(counts, schedule), c)
  {
    longer := schedule + [c];
    assert longer[..|longer| - 1] == schedule;
  }

  /** Caller 0 is about to check, with `n` slots filled; the others have not begun. */
  ghost predicate Filled(s: Store, k: nat, m: nat, n: nat) {
    && s.len == n && |s.slots| == MAX_VCPUS && |s.callers| == k > 0 && s.callers[0] == Caller(m, Wants)
    && forall c | 1 <= c < k :: s.callers[c] == Caller(m, AtIf)
  }

  lemma {:induction false} Fill(k: nat, m: nat, n: nat) returns (schedule: seq<nat>)
    requires k > 0 && n < m && n <= MAX_VCPUS
    ensures ValidSchedule(k, schedule) && Filled(Run(Same(k, m), schedule), k, m, n)
  {
    if n == 0 {
      schedule := Next(Same(k, m), [], 0);
    } else {
      schedule := Fill(k, m, n - 1);
      schedule := Next(Same(k, m), schedule, 0);
      schedule := Next(Same(k, m), schedule, 0);
      schedule := Next(Same(k, m), schedule, 0);
    }
  }

  /** The first `j` callers have passed the check at the same `len`. */
  ghost predicate Gathered(s: Store, k: nat, m: nat, j: nat) {
    && s.len == m - 1 && |s.callers| == k
    && (forall c | 0 <= c < k :: s.callers[c] == Caller(m, if c < j then Claims else AtIf))
  }

  lemma {:induction false} Gather(k: nat, m: nat, j: nat) returns (schedule: seq<nat>)
    requires 0 < j <= k && 0 < m <= MAX_VCPUS
    ensures ValidSchedule(k, schedule) && Gathered(Run(Same(k, m), schedule), k, m, j)
  {
    if j == 1 {
      schedule := Fill(k, m, m - 1);
      schedule := Next(Same(k, m), schedule, 0);
    } else {
      schedule := Gather(k, m, j - 1);
      schedule := Next(Same(k, m), schedule, j - 1);
      schedule := Next(Same(k, m), schedule, j - 1);
    }
  }

  /** The first `i` of them have claimed a slot. */
  ghost predicate Claimed(s: Store, k: nat, m: nat, i: nat) {
    s.len == m - 1 + i && |s.callers| == k && forall c | i <= c < k :: s.callers[c].pc == Claims
  }

  lemma {:induction false} Claim(k: nat, m: nat, i: nat) returns (schedule: seq<nat>)
    requires i <= k && 0 < k && 0 < m <= MAX_VCPUS && m - 1 + i <= MAX_VCPUS
    ensures ValidSchedule(k, schedule) && Claimed(Run(Same(k, m), schedule), k, m, i)
  {
    if i == 0 {
      schedule := Gather(k, m, k);
    } else {
      schedule := Claim(k, m, i - 1);
      schedule := Next(Same(k, m), schedule, i - 1);
    }
  }

  /** K callers that ask for M vCPUs each can fail the assertion as soon as M + K - 1 exceeds the capacity. */
  lemma SomeSchedulePanics(k: nat, m: nat) returns (schedule: seq<nat>, c: nat)
    requires k > 0 && m > 0 && m + k - 1 > MAX_VCPUS
    ensures ValidSchedule(k, schedule) && c < k && Run(Same(k, m), schedule).callers[c].pc.Panicked?
  {
    if m > MAX_VCPUS {
      c := 0;
      schedule := Fill(k, m, MAX_VCPUS);
      schedule := Next(Same(k, m), schedule, 0);
      schedule := Next(Same(k, m), schedule, 0);
    } else {
      c := MAX_VCPUS - m + 1;
      schedule := Claim(k, m, c);
      schedule := Next(Same(k, m), schedule, c);
    }
  }

  /** So the assertion is safe under every schedule exactly up to M + K - 1 = 256. */
  lemma SafeCapacity(k: nat, m: nat)
    requires k > 0 && m > 0
    ensures (forall schedule, c | ValidSchedule(k, schedule) && 0 <= c < k ::
               !Run(Same(k, m), schedule).callers[c].pc.Panicked?) <==> m + k - 1 <= 256
  {
    if m + k - 1 <= MAX_VCPUS {
      forall schedule, c | ValidSchedule(k, schedule) && 0 <= c < k
        ensures !Run(Same(k, m), schedule).callers[c].pc.Panicked?
      {
        NeverPanics(Same(k, m), m, schedule, c);
      }
    } else {
      var schedule, c := SomeSchedulePanics(k, m);
    }
  }

  /** A published slot is never published again or cleared, over any further steps. */
  lemma {:induction false} PublishedSlotsStay(counts: seq<nat>, m: nat, before: seq<nat>, after: seq<nat>, i: nat)
    requires ValidSchedule(|counts|, before) && ValidSchedule(|counts|, after)
             && ValidSchedule(|counts|, before + after)
    requires forall j | 0 <= j < |counts| :: counts[j] <= m
    requires i < MAX_VCPUS && |Run(counts, before).slots| == MAX_VCPUS && Run(counts, before).slots[i].Some?
    ensures |Run(counts, before + after).slots| == MAX_VCPUS
    ensures Run(counts, before + after).slots[i] == Run(counts, before).slots[i]
    decreases |after|
  {
    if after == [] {
      assert before + after == before;
    } else {
      var front, c := after[..|after| - 1], after[|after| - 1];
      assert before + after == before + front + [c];
      assert (before + after)[..|before + after| - 1] == before + front;
      PublishedSlotsStay(counts, m, before, front, i);
      AlwaysSafe(counts, m, before + front);
    }
  }

  /** What a caller pushes is what `get_mut` finds at its index, after any further steps. */
  lemma PushIsFound(counts: seq<nat>, m: nat, before: seq<nat>, c: nat, after: seq<nat>, idx: nat)
    requires ValidSchedule(|counts|, before + [c]) && ValidSchedule(|counts|, after)
    requires ValidSchedule(|counts|, before) && ValidSchedule(|counts|, before + [c] + after)
    requires forall j | 0 <= j < |counts| :: counts[j] <= m
    requires c < |counts| && Run(counts, before).callers[c].pc == Holds(idx)
    ensures idx < 256 && GetMut(Run(counts, before + [c] + after), idx) == Some(c)
  {
    AlwaysSafe(counts, m, before);
    assert (before + [c])[..|before|] == before;
    assert Run(counts, before + [c]) == Step(Run(counts, before), c);
    AlwaysSafe(counts, m, before + [c] + after);
    PublishedSlotsStay(counts, m, before + [c], after, idx);
  }

  /** When no caller holds an index any more, every index below `len` is published. */
  lemma AllPublishedAtTheEnd(counts: seq<nat>, m: nat, schedule: seq<nat>)
    requires ValidSchedule(|counts|, schedule)
    requires forall i | 0 <= i < |counts| :: counts[i] <= m
    requires forall c | 0 <= c < |counts| :: Run(counts, schedule).callers[c].pc.Done?
    ensures |Run(counts, schedule).slots| == MAX_VCPUS
    ensures forall i | 0 <= i < Run(counts, schedule).len && i < MAX_VCPUS :: GetMut(Run(counts, schedule), i).Some?
    ensures forall c | 0 <= c < |counts| :: counts[c] <= Run(counts, schedule).len
  {
    AlwaysSafe(counts, m, schedule);
    CountsStay(counts, schedule);
  }

  /**
   When a caller returns, `len` covers its request, and a slot it asked for is null exactly while some
   other caller still holds that index.
   */
  lemma ReturnedSlots(counts: seq<nat>, m: nat, schedule: seq<nat>, c: nat, i: nat)
    requires ValidSchedule(|counts|, schedule)
    requires forall j | 0 <= j < |counts| :: counts[j] <= m
    requires c < |counts| && Run(counts, schedule).callers[c].pc.Done? && i < counts[c] && i < MAX_VCPUS
    ensures GetMut(Run(counts, schedule), i).None? <==>
            exists d | 0 <= d < |counts| :: d != c && Run(counts, schedule).callers[d].pc == Holds(i)
  {
    AlwaysSafe(counts, m, schedule);
    CountsStay(counts, schedule);
  }

  lemma {:induction false} CountsStay(counts: seq<nat>, schedule: seq<nat>)
    requires ValidSchedule(|counts|, schedule)
    ensures forall c | 0 <= c < |counts| :: Run(counts, schedule).callers[c].count == counts[c]
  {
    if schedule != [] {
      CountsStay(counts, schedule[..|schedule| - 1]);
    }
  }

  /**
   A caller that returns may still find its own slot empty: another caller claimed the index but has
   not published it. Here caller 1 wants one vCPU and returns while slot 0 is null.
   */
  lemma ReturnsBeforePublished() returns (schedule: seq<nat>)
    ensures ValidSchedule(2, schedule)
    ensures Run([2, 1], schedule).callers[1] == Caller(1, Done)
    ensures GetMut(Run([2, 1], schedule), 0) == None
  {
    var counts := [2, 1];
    schedule := [0, 0, 0, 1];
    var s0 := Start(counts);
    var s1 := Step(s0, 0);
    var s2 := Step(s1, 0);
    var s3 := Step(s2, 0);
    assert [0][..0] == [] && [0, 0][..1] == [0] && [0, 0, 0][..2] == [0, 0] && schedule[..3] == [0, 0, 0];
    assert Run(counts, [0]) == s1 && Run(counts, [0, 0]) == s2 && Run(counts, [0, 0, 0]) == s3;
  }
}
