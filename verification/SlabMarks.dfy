/**
  The mark that a close leaves on half-used runs, in memory: while threads run, every run in use reads
  unmarked, so a reboot finds marked exactly the runs that the close before it marked.
 */
module SlabMarks {
  import opened SlabHeap
  import opened SlabHeapProof
  import opened SlabCrash
  import opened SlabCrashProof

  /** Memory has the mark that the run's metadata says. */
  ghost predicate MarkOk(s: State, r: Run) {
    Live(s.h, r) ==> Now(s, Mark(r)) == Num(if s.h.metas[r].polluted then 1 else 0)
  }

  ghost predicate Marks(s: State) {
    forall r {:trigger MarkOk(s, r)} :: MarkOk(s, r)
  }

  /** Of all stores, only those of construct go to marks, and they clear them. */
  lemma MarkStays(s: State, s': State, a: SlabCrash.Step, r: Run)
    requires SlabCrashProof.Inv(s) && NextStep(s, s', a)
    ensures Now(s', Mark(r)) == Now(s, Mark(r))
            || (a.Construct? && a.t in s.acts && s.acts[a.t].Build? && r == Run(s.acts[a.t].e, s.acts[a.t].rid))
  {
    if a.Construct? {
      ConstructMark(s, s', a.t, a.w, r) by { assert ActOk(s, a.t); }
    } else if a.NewExtent? {
      LatestWithout(s.base, s.log, Bits(a.e), Runs({}), Mark(r));
    } else if a.WriteBack? {
      LatestWithout(s.base, s.log, a.loc, Now(s, a.loc), Mark(r));
    } else if s'.log != s.log {
      assert s'.base == s.base && s'.log == s.log + [s'.log[|s.log|]] && s'.log[|s.log|].loc != Mark(r);
      LatestStore(s, s'.log[|s.log|], Mark(r));
    }
  }

  lemma ConstructMark(s: State, s': State, t: Thread, w: Write, r: Run)
    requires ActOk(s, t) && ConstructStep(s, s', t, w)
    ensures Now(s', Mark(r)) == Now(s, Mark(r)) || r == Run(s.acts[t].e, s.acts[t].rid)
  {
    var a := s.acts[t];
    assert w in Constructs(Run(a.e, a.rid), a.b, a.count);
    if s'.log != s.log { LatestStore(s, w, Mark(r)); }
  }

  /** A run comes into use only when its bit is set. */
  lemma OnlySetBit(s: State, s': State, a: SlabCrash.Step, r: Run)
    requires SlabCrashProof.Inv(s) && NextStep(s, s', a) && !a.SetBit? && Live(s'.h, r)
    ensures Live(s.h, r) && s'.h.metas[r].polluted == s.h.metas[r].polluted
  {
    if a.Local? {
      LocalLive(s, s', a.step, r);
    } else if a.ClearBit? {
      SpillKeepIs(s.h, a.c);
      ReturnedLive(s.h, s'.h, s.h.caches[a.c][0].run, r);
    } else {
      OtherLive(s, s', a, r);
    }
  }

  lemma OtherLive(s: State, s': State, a: SlabCrash.Step, r: Run)
    requires NextStep(s, s', a) && !a.SetBit? && !a.Local? && !a.ClearBit? && Live(s'.h, r)
    ensures Live(s.h, r) && s'.h.metas[r].polluted == s.h.metas[r].polluted
  {
    assert Home(s'.h, s'.h.metas[r].bin) == Home(s.h, s.h.metas[r].bin);
    assert Holds(s.h, Home(s.h, s.h.metas[r].bin), r);
  }

  lemma LocalLive(s: State, s': State, step: SlabHeap.Step, r: Run)
    requires SlabCrashProof.Inv(s) && LocalStep(s, s', step) && Live(s'.h, r)
    ensures Live(s.h, r) && s'.h.metas[r] == s.h.metas[r]
  {
    if step.Spill? {
      SpillParts(s.h, step.c, Region(r, 0));
    } else {
      assert Home(s'.h, s'.h.metas[r].bin) == Home(s.h, s.h.metas[r].bin);
    }
  }

  /** When the bit is set, construct has cleared the mark. */
  lemma NewRunUnmarked(s: State, s': State, t: Thread, r: Run)
    requires SlabCrashProof.Inv(s) && MarkOk(s, r) && SetBitStep(s, s', t)
    ensures MarkOk(s', r)
  {
    var a := s.acts[t];
    assert ActOk(s, t);
    LatestStore(s, s'.log[|s.log|], Mark(r));
    StockRun(s.h, a.b, a.e, a.count, r);
    if r == Run(a.e, a.rid) {
      assert Write(Mark(r), Num(0)) in Constructs(r, a.b, a.count) - a.todo;
    }
  }

  lemma NextMarks(s: State, s': State, a: SlabCrash.Step)
    requires SlabCrashProof.Inv(s) && Marks(s) && NextStep(s, s', a)
    ensures Marks(s')
  {
    forall r ensures MarkOk(s', r) {
      assert MarkOk(s, r);
      if a.SetBit? {
        NewRunUnmarked(s, s', a.t, r);
      } else if Live(s'.h, r) {
        OnlySetBit(s, s', a, r);
        MarkStays(s, s', a, r);
        if a.Construct? && s.acts[a.t].Build? { BuildIsDead(s, a.t); }
      }
    }
  }

  lemma {:induction false} MarksOverRuns(states: seq<State>, steps: seq<SlabCrash.Step>, n: nat)
    requires SlabCrashProof.Trace(states, steps) && Marks(states[0]) && n <= |steps|
    ensures Marks(states[n])
  {
    if n > 0 {
      MarksOverRuns(states, steps, n - 1);
      StepMarks(states, steps, n - 1);
    }
  }

  lemma StepMarks(states: seq<State>, steps: seq<SlabCrash.Step>, n: nat)
    requires SlabCrashProof.Trace(states, steps) && n < |steps| && Marks(states[n])
    ensures Marks(states[n + 1])
  {
    SlabCrashProof.TraceInv(states, steps, n);
    NextMarks(states[n], states[n + 1], steps[n]);
  }

  lemma LiveUnmarked(s: State, r: Run)
    requires SlabCrashProof.Inv(s) && Marks(s) && Live(s.h, r)
    ensures Now(s, Mark(r)) == Num(0)
  {
    assert MarkOk(s, r) && RunOk(s.h, r);
  }

  /**
    In every run that starts with the marks as its heap has them, a new pool's among them, every run in use
    reads unmarked at every moment.
   */
  lemma RunsAreUnmarked(states: seq<State>, steps: seq<SlabCrash.Step>, n: nat, r: Run)
    requires SlabCrashProof.Trace(states, steps) && Marks(states[0]) && n <= |steps| && Live(states[n].h, r)
    ensures Now(states[n], Mark(r)) == Num(0)
  {
    MarksOverRuns(states, steps, n);
    SlabCrashProof.TraceInv(states, steps, n);
    LiveUnmarked(states[n], r);
  }

  lemma NewPoolMarks(h: Heap, base: map<Loc, Val>, threads: set<Thread>)
    requires SlabHeapProof.Init(h)
    ensures Marks(State(h, base, [], map t | t in threads :: Idle))
  {
  }
}
