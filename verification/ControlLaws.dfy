/** The scoreboard tracks the trace: every reachable state agrees with what the vCPUs really did. */
module ControlLaws {
  import opened Words
  import opened GuestTrace
  import opened Profiler

  ghost predicate Tracks(c: Config, t: Trace, v: nat, u: Vcpu) {
    && u.current == LastEntered(t, v)
    && (c.tier >= 1 ==>
      match LastFinished(t, v)
      case None => u.lastTbEnd == 0 && u.fallThrough == 0
      case Some(p) => u.lastTbEnd == End(p) && u.fallThrough == FallThrough(p))
    && (c.tier >= 2 ==> u.pending == PendingCallsite(t, v))
  }

  ghost predicate Control(c: Config, t: Trace, s: State) {
    && |s.vcpus| == c.vcpus
    && (forall v | 0 <= v < c.vcpus :: Tracks(c, t, v, s.vcpus[v]))
    && (forall i | 0 <= i < |t| && t[i].Enter? :: KeyOf(t[i].tb) in s.tbs && s.tbs[KeyOf(t[i].tb)] == t[i].tb)
    && (forall k | k in s.tbs :: KeyOf(s.tbs[k]) == k)
    && VcpusBelow(t, c.vcpus) && StaysInTb(t)
  }

  lemma TracksStep(c: Config, t: Trace, v: nat, u: Vcpu, ev: Event, u': Vcpu)
    requires Tracks(c, t, v, u)
    requires match ev
             case Enter(w, tb) => if w == v then (exists first :: Arrives(c, u, tb, first, u')) else u' == u
             case Reach(w, tb, i) =>
               if w == v then i < |tb.insns| && u.current == Some(tb) && u' == Stored(c, u, tb, i) else u' == u
             case _ => u' == u.(numbering := u'.numbering, flight := u'.flight)
    ensures Tracks(c, t + [ev], v, u')
  {
    assert (t + [ev])[..|t|] == t;
  }

  lemma ControlStep(c: Config, t: Trace, s: State, ev: Event, s': State)
    requires Control(c, t, s) && Next(c, s, ev, s')
    ensures Control(c, t + [ev], s')
  {
    assert (t + [ev])[..|t|] == t;
    forall v | 0 <= v < c.vcpus ensures Tracks(c, t + [ev], v, s'.vcpus[v]) {
      TracksStep(c, t, v, s.vcpus[v], ev, s'.vcpus[v]);
    }
  }

  /** Every reachable state is in control. */
  lemma {:induction false} ControlAlways(c: Config, t: Trace, states: seq<State>)
    requires Execution(c, t, states)
    ensures Control(c, t, states[|t|])
  {
    if t != [] {
      ExecutionStep(c, t, states);
      ControlAlways(c, t[..|t| - 1], states[..|t|]);
      ControlStep(c, t[..|t| - 1], states[|t| - 1], t[|t| - 1], states[|t|]);
    }
  }

  /** The callback's scoreboard test recognises exactly the taken branches of the trace. */
  lemma FiresExactlyOnTakenBranches(c: Config, t: Trace, s: State, v: nat, tb: Tb)
    requires Control(c, t, s) && v < c.vcpus && c.tier >= 1
    ensures Fires(c, s.vcpus[v], tb) <==> ArrivalOf(t, v, tb).Branched?
    ensures Fires(c, s.vcpus[v], tb) ==> ArrivalOf(t, v, tb).from == s.vcpus[v].lastTbEnd
  {
    assert Tracks(c, t, v, s.vcpus[v]);
  }

  /** A translation of the block. */
  predicate Translated(t: Trace, tb: Tb) {
    exists i | 0 <= i < |t| :: t[i] == Translate(tb)
  }

  /** The known blocks are those translated, under their start and 16-bit instruction count. */
  ghost predicate KnowsTranslated(t: Trace, s: State) {
    && (forall k | k in s.tbs :: Translated(t, s.tbs[k]))
    && (forall i | 0 <= i < |t| && t[i].Translate? ::
          var k := TbKey(t[i].tb.insns[0].addr, |t[i].tb.insns| % 0x1_0000); k in s.tbs && s.tbs[k] == t[i].tb)
  }

  lemma TranslatedLater(t: Trace, ev: Event, tb: Tb)
    requires Translated(t, tb)
    ensures Translated(t + [ev], tb)
  {
    var i :| 0 <= i < |t| && t[i] == Translate(tb);
    assert (t + [ev])[i] == Translate(tb);
  }

  lemma KnowsTranslatedStep(c: Config, t: Trace, s: State, ev: Event, s': State)
    requires KnowsTranslated(t, s) && Next(c, s, ev, s')
    ensures KnowsTranslated(t + [ev], s')
  {
    var t' := t + [ev];
    assert t'[|t|] == ev;
    forall k | k in s'.tbs ensures Translated(t', s'.tbs[k]) {
      if k in s.tbs {
        TranslatedLater(t, ev, s.tbs[k]);
      }
    }
    assert forall i | 0 <= i < |t| :: t'[i] == t[i];
  }

  lemma {:induction false} KnownAreTranslated(c: Config, t: Trace, states: seq<State>)
    requires Execution(c, t, states)
    ensures KnowsTranslated(t, states[|t|])
  {
    if t != [] {
      ExecutionStep(c, t, states);
      KnownAreTranslated(c, t[..|t| - 1], states[..|t|]);
      KnowsTranslatedStep(c, t[..|t| - 1], states[|t| - 1], t[|t| - 1], states[|t|]);
    }
  }
}
