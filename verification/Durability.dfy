/**
  What a crash leaves and what recovery makes of it, over every run of the store machine.
 */
module Durability {
  import opened RecordMemory
  import opened RecordWrite
  import opened Recovery
  import opened StoreMachine
  import opened StoreInvariant

  /** Thread t was writing region r for an operation whose whole record is im. */
  ghost predicate InFlight(s: State, r: Region, im: Record) {
    exists t <- s.pc :: s.pc[t].Writing? && s.pc[t].job.addr == r && Whole(im, s.pc[t].job.op)
  }

  /** Every valid record a crash can leave was written whole; it is in flight or no newer than its key's index entry. */
  lemma CrashFacts(s: State, img: map<Region, Record>, busy: set<Region>, r: Region)
    requires Inv(s) && Crash(s, img, busy) && r in busy && img[r].ctrl.Valid?
    ensures Genuine(s, img[r])
    ensures Dominated(s, img[r]) || InFlight(s, r, img[r])
  {
    assert RegionInv(s, r);
    assert CrashImage(r, s.mem[r], img[r]);
    match s.place[r]
    case Held(t) =>
      assert ThreadInv(s, t);
      if s.pc[t].Writing? {
        var job := s.pc[t].job;
        assert job.op in s.begun;
        if job.reuse {
          ReuseIsTornFree(job, s.mem[r], img[r]);
        }
      }
    case Linked =>
      assert img[r] == s.mem[r].base;
      assert KeyInv(s, img[r].key);
    case _ =>
  }

  lemma IndexSurvives(s: State, img: map<Region, Record>, busy: set<Region>, k: Key)
    requires Inv(s) && Crash(s, img, busy) && k in s.index
    ensures s.index[k] in busy && img[s.index[k]] == s.mem[s.index[k]].base
    ensures Candidate(Objects(img, busy), k, s.index[k])
    ensures VersionOf(Objects(img, busy), s.index[k]) == Newer(s, k)
  {
    LoadedVersion(s, k);
    assert CrashImage(s.index[k], s.mem[s.index[k]], img[s.index[k]]);
  }

  /** The recovered record of a key. */
  ghost function Recovered(s': State, k: Key): Record
    requires k in s'.index && s'.index[k] in s'.mem
  {
    s'.mem[s'.index[k]].base
  }

  ghost predicate Durable(s: State, s': State, k: Key) {
    && k in s'.index && s'.index[k] in s'.mem
    && var rec := Recovered(s', k);
    && rec.ctrl.Valid? && rec.key == k && Genuine(s, rec)
    && (forall a <- s.acked | a.key == k :: a.version <= rec.ctrl.version)
    && ((k in s.index && s.index[k] in s.mem && rec.ctrl.version == Newer(s, k)) || InFlight(s, s'.index[k], rec))
  }

  /** What the scan that completed worked on. */
  ghost function Scanned(o: Outage): map<Region, Object>
    requires o.busy <= o.img.Keys
  {
    Remaining(Objects(o.img, o.busy), o.cuts)
  }

  /** A valid record that is still there is what the crash left, and its key's index entry is at least as new. */
  lemma ScannedRecord(s: State, s': State, o: Outage, r: Region)
    requires RecoverStep(s, s', o) && Usable(Scanned(o), r)
    ensures r in o.busy && o.img[r].ctrl.Valid? && Scanned(o)[r] == Kv(o.img[r])
    ensures o.img[r].key in s'.index && s'.index[o.img[r].key] in s'.mem
    ensures o.img[r].ctrl.version <= LoadVersion(s'.mem[s'.index[o.img[r].key]].base.ctrl)
  {
    var objs, left := Objects(o.img, o.busy), Scanned(o);
    RemainingIsPart(objs, o.cuts, r);
    IndexIsNewest(left, o.order);
    var k := o.img[r].key;
    assert Candidate(left, k, r);
    RemainingIsPart(objs, o.cuts, s'.index[k]);
  }

  lemma RecoveredKey(s: State, s': State, o: Outage, k: Key)
    requires Inv(s) && RecoverStep(s, s', o) && k in s'.index
    ensures Durable(s, s', k)
    ensures s'.index[k] in o.busy && Recovered(s', k) == o.img[s'.index[k]]
    ensures Recovered(s', k).ctrl.version <= s'.ver[SlotOf(k)]
    ensures k in s.index && s.index[k] in s.mem ==> Newer(s, k) <= Recovered(s', k).ctrl.version
  {
    var left := Scanned(o);
    IndexIsNewest(left, o.order);
    var r := s'.index[k];
    assert Candidate(left, k, r);
    ScannedRecord(s, s', o, r);
    CrashFacts(s, o.img, o.busy, r);
    if k in s.index { IndexedSurvives(s, s', o, k); }
    forall a <- s.acked | a.key == k ensures a.version <= o.img[r].ctrl.version {
      assert AckInv(s, a);
    }
    var sc := ScanAll(left, o.order);
    assert SlotMax(left, o.order, SlotOf(k), sc.ver[SlotOf(k)]);
    assert InSlot(left, SlotOf(k), r) && r in o.order;
  }

  /** An indexed key is indexed again, at its version or a newer one. */
  lemma IndexedSurvives(s: State, s': State, o: Outage, k: Key)
    requires Inv(s) && RecoverStep(s, s', o) && k in s.index
    ensures s.index[k] in s.mem && k in s'.index && s'.index[k] in s'.mem
    ensures Newer(s, k) <= LoadVersion(s'.mem[s'.index[k]].base.ctrl)
  {
    var objs := Objects(o.img, o.busy);
    IndexSurvives(s, o.img, o.busy, k);
    var q := SurvivorOfAll(objs, o.cuts, s.index[k]);
    RemainingIsPart(objs, o.cuts, q);
    ScannedRecord(s, s', o, q);
  }

  lemma AckedKeysSurvive(s: State, s': State, o: Outage)
    requires Inv(s) && RecoverStep(s, s', o)
    ensures forall k <- s.index :: k in s'.index
    ensures forall a <- s.acked :: a.key in s'.index
  {
    forall k <- s.index ensures k in s'.index { IndexedSurvives(s, s', o, k); }
    forall a <- s.acked ensures a.key in s'.index { assert AckInv(s, a); }
  }

  /** The region as recovery leaves it. */
  ghost predicate Rebuilt(s: State, s': State, o: Outage, r: Region) {
    && Domains(s') && r in s'.mem && r in o.img && s'.mem[r] == Mem(o.img[r], []) && s'.begun == s.begun
    && s'.place[r] == (if r in s'.index.Values then Linked else if r in o.late then Retired else Free)
    && s'.token[r] == Token(!s'.place[r].Free?, [])
  }

  lemma IsRebuilt(s: State, s': State, o: Outage, r: Region)
    requires Inv(s) && RecoverStep(s, s', o) && r in o.img
    ensures Rebuilt(s, s', o, r)
  {
  }

  lemma WinnerInv(s: State, s': State, o: Outage, k: Key)
    requires k in s'.index && s'.index[k] in o.img && Rebuilt(s, s', o, s'.index[k]) && Durable(s, s', k)
    ensures RegionInv(s', s'.index[k])
  {
  }

  lemma LateInv(s: State, s': State, o: Outage, r: Region)
    requires r in o.img && r in o.late && r !in s'.index.Values && Rebuilt(s, s', o, r) && Genuine(s, o.img[r])
    requires o.img[r].ctrl.Valid? && Dominated(s', o.img[r])
    ensures RegionInv(s', r)
  {
  }

  lemma RecoveredRegion(s: State, s': State, o: Outage, r: Region)
    requires Inv(s) && RecoverStep(s, s', o) && r in s'.mem
    ensures Domains(s') && RegionInv(s', r)
  {
    IsRebuilt(s, s', o, r);
    if r in s'.index.Values {
      var k :| k in s'.index && s'.index[k] == r;
      RecoveredKey(s, s', o, k);
      WinnerInv(s, s', o, k);
    } else if r in o.late {
      ScannedRecord(s, s', o, r);
      CrashFacts(s, o.img, o.busy, r);
      LateInv(s, s', o, r);
    }
  }

  lemma RecoveredKeys(s: State, s': State, o: Outage)
    requires Inv(s) && RecoverStep(s, s', o) && Domains(s')
    ensures Keys(s') && Acks(s')
  {
    forall k | k in s'.index ensures KeyInv(s', k) { RecoveredKey(s, s', o, k); }
    forall a | a in s'.acked ensures AckInv(s', a) {
      AckedKeysSurvive(s, s', o);
      RecoveredKey(s, s', o, a.key);
    }
  }

  lemma RecoverInv(s: State, s': State, o: Outage)
    requires Inv(s) && RecoverStep(s, s', o)
    ensures Inv(s')
  {
    assert Domains(s') && forall t <- s'.pc :: s'.pc[t] == Idle;
    forall r | r in s'.mem ensures RegionInv(s', r) { RecoveredRegion(s, s', o, r); }
    RecoveredKeys(s, s', o);
  }

  /** The operation a thread has under way is one it was allowed to call. */
  predicate KnownOp(s: State, p: Pc) {
    && (p.Begun? ==> p.op.kind.Upsert? || p.op.key in s.index)
    && (p.Writing? ==> p.job.op.kind.Upsert? || p.job.op.key in s.index)
  }

  ghost predicate Known(s: State) {
    forall t <- s.pc :: KnownOp(s, s.pc[t])
  }

  lemma NextInv(s: State, s': State, a: Step)
    requires Inv(s) && Known(s) && NextStep(s, s', a) && CallAllowed(s, a)
    ensures Inv(s')
  {
    match a
    case Begin(t, kind, key, value) => BeginInv(s, s', t, kind, key, value);
    case TakeLimbo(t, r) => TakeInv(s, s', t, r, true);
    case TakeFresh(t, r) => TakeInv(s, s', t, r, false);
    case Write(t, job, mem, store) => RecordInv(s, s', t, job, mem, store);
    case PublishToken(t) => TokenInv(s, s', t, false);
    case AwaitToken(t) => TokenInv(s, s', t, true);
    case LinkRecord(t) => LinkInv(s, s', t);
    case RetireVictim(t) => RetireInv(s, s', t);
    case Lookup(t, key) => ReadInv(s, s', t, key);
    case EndRead(t, _) => var k: Key :| true; ReadInv(s, s', t, k);
    case Recycle(t, r) => RecycleInv(s, s', t, r);
    case Fire(r) => FireInv(s, s', r);
    case AwaitFire(r) => AwaitFireInv(s, s', r);
    case CrashRecover(o) => RecoverInv(s, s', o);
  }

  lemma KnownFrame(s: State, s': State, t: Thread)
    requires Known(s) && s.index.Keys <= s'.index.Keys && s'.pc.Keys == s.pc.Keys
    requires forall u <- s.pc | u != t :: s'.pc[u] == s.pc[u]
    requires t in s'.pc ==> KnownOp(s', s'.pc[t])
    ensures Known(s')
  {
    forall u <- s'.pc ensures KnownOp(s', s'.pc[u]) {
      if u != t { assert KnownOp(s, s.pc[u]); }
    }
  }

  /** Steps of an operation on its own record. */
  lemma OwnStepKnown(s: State, s': State, a: Step)
    requires Known(s) && NextStep(s, s', a) && (a.TakeLimbo? || a.TakeFresh? || a.Write? || a.PublishToken?
             || a.AwaitToken?)
    ensures Known(s')
  {
    assert KnownOp(s, s.pc[a.t]);
    assert a.Write? ==> a.job.op == s.pc[a.t].job.op;
    KnownFrame(s, s', a.t);
  }

  lemma NextKnown(s: State, s': State, a: Step)
    requires Known(s) && NextStep(s, s', a) && CallAllowed(s, a)
    ensures Known(s')
  {
    if a.TakeLimbo? || a.TakeFresh? || a.Write? || a.PublishToken? || a.AwaitToken? {
      OwnStepKnown(s, s', a);
      return;
    }
    if a.Begin? || a.LinkRecord? || a.RetireVictim? || a.Lookup? || a.EndRead? {
      KnownFrame(s, s', a.t);
    }
  }

  lemma {:induction false} RunInv(states: seq<State>, steps: seq<Step>)
    requires Run(states, steps)
    ensures Inv(states[|steps|]) && Known(states[|steps|])
  {
    if steps == [] {
      InitInv(states[0]);
    } else {
      var n := |steps| - 1;
      assert Run(states[..n + 1], steps[..n]);
      RunInv(states[..n + 1], steps[..n]);
      NextInv(states[n], states[n + 1], steps[n]);
      NextKnown(states[n], states[n + 1], steps[n]);
    }
  }

  /**
    Durability.  After any run, any crash and any recovery, however often it is cut off, every key with an
    acknowledged operation is recovered; and every recovered record was written whole by one
    operation, is at least as new as every acknowledged operation on its key, and is either the
    version the index held or one that was in flight.
   */
  lemma DurabilityOverRuns(states: seq<State>, steps: seq<Step>, s': State, o: Outage)
    requires Run(states, steps) && RecoverStep(states[|steps|], s', o)
    ensures forall k <- s'.index :: Durable(states[|steps|], s', k)
    ensures forall a <- states[|steps|].acked :: a.key in s'.index
  {
    var s := states[|steps|];
    RunInv(states, steps);
    forall k <- s'.index ensures Durable(s, s', k) { RecoveredKey(s, s', o, k); }
    AckedKeysSurvive(s, s', o);
  }

  /** A lookup never sees a torn, recycled or foreign record: until the reader lets go, it is its key's, whole. */
  lemma ReadersSeeWholeRecords(states: seq<State>, steps: seq<Step>, t: Thread)
    requires Run(states, steps) && t in states[|steps|].pc && states[|steps|].pc[t].Reading?
    ensures var s := states[|steps|];
            var k, r := s.pc[t].key, s.pc[t].at;
            r in s.mem && View(s.mem[r]).key == k && View(s.mem[r]).ctrl.Valid? && Genuine(s, View(s.mem[r]))
  {
    RunInv(states, steps);
    assert ThreadInv(states[|steps|], t);
  }
}
