/**
  When an acknowledged write is really the one found after a crash.

  Versions are taken by post-increment, and recovery sets a slot's counter to the highest version
  it found, so a key that holds its slot's maximum is written again with the version it already
  has.  `Clean` is the test a caller could make before the call; the lemmas say what holds when
  every call passes it, that it always passes until the first crash, and that a write which fails
  it is lost.
 */
module Freshness {
  import opened RecordMemory
  import opened RecordWrite
  import opened Recovery
  import opened StoreMachine
  import opened StoreInvariant
  import opened Durability

  /** The key's next version exceeds the one the index has. */
  ghost predicate Clean(s: State, k: Key) {
    |s.ver| == SLOTS && (k in s.index ==> s.index[k] in s.mem && Newer(s, k) < s.ver[SlotOf(k)])
  }

  ghost predicate CleanStep(s: State, a: Step) {
    a.Begin? ==> Clean(s, a.key)
  }

  ghost predicate Claimed(s: State, op: Op) {
    (op.key, op.version) in s.claim && s.claim[(op.key, op.version)] == op
  }

  ghost predicate ClaimedRecord(s: State, im: Record) {
    im.ctrl.Valid? && (im.key, im.ctrl.version) in s.claim && Whole(im, s.claim[(im.key, im.ctrl.version)])
  }

  ghost predicate ClaimedThread(s: State, t: Thread)
    requires t in s.pc
  {
    match s.pc[t]
    case Begun(op) => Claimed(s, op)
    case Writing(job) => Claimed(s, job.op) && (job.reuse ==> ClaimedRecord(s, job.prior))
    case Unlinking(op, v) => Claimed(s, op) && v in s.mem && ClaimedRecord(s, s.mem[v].base)
    case _ => true
  }

  ghost predicate ClaimedRegion(s: State, r: Region)
    requires r in s.mem && r in s.place
  {
    !s.place[r].Free? && !s.place[r].Held? ==> ClaimedRecord(s, s.mem[r].base)
  }

  /** A key and version name one operation among all records, threads and acknowledgements. */
  ghost predicate Claims(s: State) {
    && (forall r {:trigger ClaimedRegion(s, r)} :: r in s.mem && r in s.place ==> ClaimedRegion(s, r))
    && (forall t {:trigger ClaimedThread(s, t)} :: t in s.pc ==> ClaimedThread(s, t))
    && (forall a {:trigger Claimed(s, a)} :: a in s.acked ==> Claimed(s, a))
  }

  /** With clean calls, a version just taken is new to the key. */
  lemma BeginClaims(s: State, s': State, t: Thread, kind: Kind, key: Key, value: seq<int>)
    requires Inv(s) && Claims(s) && BeginStep(s, s', t, kind, key, value) && Clean(s, key)
    ensures Claims(s')
  {
    var v := s.ver[SlotOf(key)];
    forall r | r in s'.mem && r in s'.place ensures ClaimedRegion(s', r) {
      assert RegionInv(s, r) && ClaimedRegion(s, r);
      if s.place[r].Linked? { assert KeyInv(s, s.mem[r].base.key); }
    }
    forall u | u in s'.pc ensures ClaimedThread(s', u) {
      assert ThreadInv(s, u) && ClaimedThread(s, u);
    }
    forall a | a in s'.acked ensures Claimed(s', a) {
      assert AckInv(s, a) && Claimed(s, a);
    }
  }

  lemma RecordClaims(s: State, s': State, t: Thread, job': Job, mem': Mem, store: Store)
    requires Inv(s) && Claims(s) && RecordStep(s, s', t, job', mem', store)
    ensures Claims(s')
  {
    WriterAlone(s, t);
    assert ClaimedThread(s, t);
    forall r | r in s'.mem && r in s'.place ensures ClaimedRegion(s', r) { assert ClaimedRegion(s, r); }
    forall u | u in s'.pc ensures ClaimedThread(s', u) {
      assert ThreadInv(s, u) && ClaimedThread(s, u);
    }
    forall a | a in s'.acked ensures Claimed(s', a) { assert Claimed(s, a); }
  }

  /** Steps that move regions and thread positions without writing any record. */
  lemma MoveClaims(s: State, s': State, t: Thread, touched: set<Region>)
    requires Claims(s) && s'.mem == s.mem && s'.claim == s.claim && s'.pc.Keys == s.pc.Keys
             && s'.place.Keys == s.place.Keys
    requires forall u <- s.pc | u != t :: s'.pc[u] == s.pc[u]
    requires t in s'.pc ==> ClaimedThread(s', t)
    requires forall r <- s.place | r !in touched :: s'.place[r] == s.place[r]
    requires forall r <- touched :: r in s.mem && r in s.place ==> ClaimedRegion(s', r)
    requires forall a <- s'.acked :: a in s.acked || Claimed(s', a)
    ensures Claims(s')
  {
    forall r | r in s'.mem && r in s'.place ensures ClaimedRegion(s', r) { assert ClaimedRegion(s, r); }
    forall u | u in s'.pc ensures ClaimedThread(s', u) { if u != t { assert ClaimedThread(s, u); } }
    forall a | a in s'.acked ensures Claimed(s', a) { if a in s.acked { assert Claimed(s, a); } }
  }

  lemma TakeClaims(s: State, s': State, t: Thread, r: Region, limbo: bool)
    requires Inv(s) && Claims(s) && TakeStep(s, s', t, r, limbo)
    ensures Claims(s')
  {
    assert ClaimedRegion(s, r) && ClaimedThread(s, t);
    MoveClaims(s, s', t, {r});
  }

  lemma LinkClaims(s: State, s': State, t: Thread)
    requires Inv(s) && Claims(s) && LinkStep(s, s', t)
    ensures Claims(s')
  {
    var op, r := s.pc[t].job.op, s.pc[t].job.addr;
    LinkedClaim(s, s', t);
    if op.key in s.index {
      LoadedVersion(s, op.key);
      assert ClaimedRegion(s, s.index[op.key]);
      MoveClaims(s, s', t, {r, s.index[op.key]});
    } else {
      MoveClaims(s, s', t, {r});
    }
  }

  lemma LinkedClaim(s: State, s': State, t: Thread)
    requires Inv(s) && Claims(s) && LinkStep(s, s', t)
    ensures var r := s.pc[t].job.addr; r in s.mem && Claimed(s', s.pc[t].job.op) && ClaimedRecord(s', s.mem[r].base)
  {
    WriterAlone(s, t);
    assert ClaimedThread(s, t);
  }

  lemma RetireClaims(s: State, s': State, t: Thread)
    requires Inv(s) && Claims(s) && RetireStep(s, s', t)
    ensures Claims(s')
  {
    assert ClaimedThread(s, t) && ThreadInv(s, t);
    MoveClaims(s, s', t, {s.pc[t].victim});
  }

  lemma TokenClaims(s: State, s': State, t: Thread, flush: bool)
    requires Inv(s) && Claims(s) && TokenStep(s, s', t, flush)
    ensures Claims(s')
  {
    assert ClaimedThread(s, t);
    MoveClaims(s, s', t, {});
  }

  /** Steps of no operation: lookups and the recycling of garbage. */
  lemma QuietClaims(s: State, s': State, a: Step)
    requires Inv(s) && Claims(s) && NextStep(s, s', a)
    requires a.Lookup? || a.EndRead? || a.Recycle? || a.Fire? || a.AwaitFire?
    ensures Claims(s')
  {
    if a.Lookup? || a.EndRead? {
      MoveClaims(s, s', a.t, {});
    } else {
      RecyclingClaims(s, s', a);
    }
  }

  lemma RecyclingClaims(s: State, s': State, a: Step)
    requires Inv(s) && Claims(s) && NextStep(s, s', a) && (a.Recycle? || a.Fire? || a.AwaitFire?)
    ensures Claims(s')
  {
    var t: Thread :| t !in s.pc || ClaimedThread(s, t);
    assert t in s.pc ==> ClaimedThread(s, t);
    assert ClaimedRegion(s, a.r);
    MoveClaims(s, s', t, {a.r});
  }

  lemma CrashClaims(s: State, img: map<Region, Record>, busy: set<Region>, r: Region)
    requires Inv(s) && Claims(s) && Crash(s, img, busy) && r in busy && img[r].ctrl.Valid?
    ensures ClaimedRecord(s, img[r])
  {
    assert RegionInv(s, r) && ClaimedRegion(s, r);
    assert CrashImage(r, s.mem[r], img[r]);
    if s.place[r].Held? {
      var t := s.place[r].holder;
      assert ThreadInv(s, t) && ClaimedThread(s, t);
      HeldCrashClaims(s, t, r, img[r]);
    }
  }

  lemma HeldCrashClaims(s: State, t: Thread, r: Region, im: Record)
    requires Domains(s) && t in s.pc && ThreadInv(s, t) && ClaimedThread(s, t) && r in s.mem && s.place[r] == Held(t)
    requires (s.pc[t].Writing? && s.pc[t].job.addr == r) || (s.pc[t].Unlinking? && s.pc[t].victim == r)
    requires CrashImage(r, s.mem[r], im) && im.ctrl.Valid? && (s.token[r].base || true in s.token[r].pending)
    ensures ClaimedRecord(s, im)
  {
    if s.pc[t].Writing? && s.pc[t].job.reuse {
      ReuseIsTornFree(s.pc[t].job, s.mem[r], im);
    }
  }

  lemma RecoverRegionClaim(s: State, s': State, o: Outage, r: Region)
    requires Inv(s) && Claims(s) && RecoverStep(s, s', o) && r in s'.mem && r in s'.place
    ensures ClaimedRegion(s', r)
  {
    if r in s'.index.Values {
      var k :| k in s'.index && s'.index[k] == r;
      RecoveredKey(s, s', o, k);
      CrashClaims(s, o.img, o.busy, r);
    } else if r in o.late {
      ScannedRecord(s, s', o, r);
      CrashClaims(s, o.img, o.busy, r);
    }
  }

  lemma RecoverClaims(s: State, s': State, o: Outage)
    requires Inv(s) && Claims(s) && RecoverStep(s, s', o)
    ensures Claims(s')
  {
    forall r | r in s'.mem && r in s'.place ensures ClaimedRegion(s', r) { RecoverRegionClaim(s, s', o, r); }
    forall a | a in s'.acked ensures Claimed(s', a) { assert Claimed(s, a); }
  }

  lemma NextClaims(s: State, s': State, a: Step)
    requires Inv(s) && Claims(s) && NextStep(s, s', a) && CleanStep(s, a)
    ensures Claims(s')
  {
    match a
    case Begin(t, kind, key, value) => BeginClaims(s, s', t, kind, key, value);
    case TakeLimbo(t, r) => TakeClaims(s, s', t, r, true);
    case TakeFresh(t, r) => TakeClaims(s, s', t, r, false);
    case Write(t, job, mem, store) => RecordClaims(s, s', t, job, mem, store);
    case PublishToken(t) => TokenClaims(s, s', t, false);
    case AwaitToken(t) => TokenClaims(s, s', t, true);
    case LinkRecord(t) => LinkClaims(s, s', t);
    case RetireVictim(t) => RetireClaims(s, s', t);
    case CrashRecover(o) => RecoverClaims(s, s', o);
    case _ => QuietClaims(s, s', a);
  }

  ghost predicate CleanRun(states: seq<State>, steps: seq<Step>) {
    Run(states, steps) && forall i | 0 <= i < |steps| :: CleanStep(states[i], steps[i])
  }

  lemma {:induction false} RunClaims(states: seq<State>, steps: seq<Step>)
    requires CleanRun(states, steps)
    ensures Claims(states[|steps|])
  {
    if steps != [] {
      var n := |steps| - 1;
      assert CleanRun(states[..n + 1], steps[..n]);
      RunInv(states[..n + 1], steps[..n]);
      RunClaims(states[..n + 1], steps[..n]);
      NextClaims(states[n], states[n + 1], steps[n]);
    }
  }

  lemma SameClaim(s: State, im: Record, a: Op)
    requires ClaimedRecord(s, im) && Claimed(s, a) && im.key == a.key && a.version <= im.ctrl.version
    ensures Whole(im, a) || a.version < im.ctrl.version
  {
  }

  lemma AckedOrOlder(s: State, s': State, o: Outage, a: Op)
    requires Inv(s) && Claims(s) && RecoverStep(s, s', o) && a in s.acked
    ensures a.key in s'.index && s'.index[a.key] in s'.mem && Recovered(s', a.key).ctrl.Valid?
    ensures Whole(Recovered(s', a.key), a) || a.version < Recovered(s', a.key).ctrl.version
  {
    assert a.key in s'.index by { AckedKeysSurvive(s, s', o); }
    var r := s'.index[a.key];
    assert r in s'.mem && r in o.busy && Recovered(s', a.key) == o.img[r] && o.img[r].key == a.key
           && o.img[r].ctrl.Valid?
           && a.version <= o.img[r].ctrl.version by {
      RecoveredKey(s, s', o, a.key);
    }
    assert ClaimedRecord(s, o.img[r]) by { CrashClaims(s, o.img, o.busy, r); }
    assert Claimed(s, a);
    SameClaim(s, o.img[r], a);
  }

  /**
    Strict durability.  Over every run, crashes and recoveries included, whose calls were all clean:
    an acknowledged operation is either exactly the record recovered for its key or strictly older.
   */
  lemma AcknowledgedIsRecovered(states: seq<State>, steps: seq<Step>, s': State, o: Outage, a: Op)
    requires CleanRun(states, steps) && RecoverStep(states[|steps|], s', o)
    requires a in states[|steps|].acked
    ensures a.key in s'.index && s'.index[a.key] in s'.mem && Recovered(s', a.key).ctrl.Valid?
    ensures Whole(Recovered(s', a.key), a) || a.version < Recovered(s', a.key).ctrl.version
  {
    RunInv(states, steps);
    RunClaims(states, steps);
    AckedOrOlder(states[|steps|], s', o, a);
  }

  // Until the first crash every call is clean

  ghost predicate AllClean(s: State) {
    forall k :: Clean(s, k)
  }

  lemma NextClean(s: State, s': State, a: Step)
    requires Inv(s) && Known(s) && AllClean(s) && NextStep(s, s', a) && CallAllowed(s, a) && !a.CrashRecover?
    ensures AllClean(s')
  {
    NextInv(s, s', a);
    forall k ensures Clean(s', k) { KeyClean(s, s', a, k); }
  }

  lemma KeyClean(s: State, s': State, a: Step, k: Key)
    requires Inv(s) && Inv(s') && Known(s) && Clean(s, k) && NextStep(s, s', a) && CallAllowed(s, a) && !a.CrashRecover?
    ensures Clean(s', k)
  {
    if a.LinkRecord? {
      LinkClean(s, s', a.t, k);
    } else if k in s'.index {
      assert KeyInv(s', k) && KeyInv(s, k);
      if a.Write? { WriterAlone(s, a.t); }
    }
  }

  lemma LinkClean(s: State, s': State, t: Thread, k: Key)
    requires Inv(s) && Inv(s') && Known(s) && Clean(s, k) && LinkStep(s, s', t)
    ensures Clean(s', k)
  {
    WriterAlone(s, t);
    if k in s'.index {
      assert KeyInv(s', k);
      if s'.index[k] != s.pc[t].job.addr { assert KeyInv(s, k); }
    }
  }

  lemma {:induction false} FirstSessionIsClean(states: seq<State>, steps: seq<Step>)
    requires Run(states, steps) && forall a <- steps :: !a.CrashRecover?
    ensures AllClean(states[|steps|]) && CleanRun(states, steps)
  {
    if steps != [] {
      var n := |steps| - 1;
      assert Run(states[..n + 1], steps[..n]);
      RunInv(states[..n + 1], steps[..n]);
      FirstSessionIsClean(states[..n + 1], steps[..n]);
      forall i | 0 <= i < |steps| ensures CleanStep(states[i], steps[i]) {
        if i < n { assert CleanStep(states[..n + 1][i], steps[..n][i]); }
      }
      assert steps[n] in steps;
      NextClean(states[n], states[n + 1], steps[n]);
    }
  }

  // After a crash

  /** Every recovery leaves, in every slot with a surviving record, a key whose next write is not clean. */
  lemma RecoveryLeavesStaleCounter(s: State, s': State, o: Outage, k: Key)
    returns (holder: Key)
    requires Inv(s) && RecoverStep(s, s', o) && k in s'.index
    ensures holder in s'.index && SlotOf(holder) == SlotOf(k) && !Clean(s', holder)
  {
    var left := Scanned(o);
    var slot := SlotOf(k);
    IndexIsNewest(left, o.order);
    RecoveredKey(s, s', o, k);
    var v := s'.ver[slot];
    assert SlotMax(left, o.order, slot, v);
    holder := k;
    if v != 0 {
      var r :| r in o.order && InSlot(left, slot, r) && VersionOf(left, r) == v;
      holder := left[r].rec.key;
      ScannedRecord(s, s', o, r);
      RecoveredKey(s, s', o, holder);
    }
  }

  /** states[i] begins t's operation on k, states[n] links it; in between nobody else links k and nothing crashes. */
  ghost predicate SoloOp(states: seq<State>, steps: seq<Step>, t: Thread, k: Key) {
    && |states| == |steps| + 1 && |steps| >= 2
    && (forall i | 0 <= i < |steps| :: Inv(states[i]) && NextStep(states[i], states[i + 1], steps[i]))
    && steps[0].Begin? && steps[0].t == t && steps[0].key == k
    && steps[|steps| - 1] == LinkRecord(t)
    && forall i | 1 <= i < |steps| - 1 ::
       !steps[i].CrashRecover? && steps[i] != LinkRecord(t) && !LinksKey(states[i], steps[i], k)
  }

  ghost predicate LinksKey(s: State, a: Step, k: Key) {
    a.LinkRecord? && a.t in s.pc && s.pc[a.t].Writing? && s.pc[a.t].job.op.key == k
  }

  ghost predicate Carries(s: State, t: Thread, op: Op) {
    t in s.pc && ((s.pc[t].Begun? && s.pc[t].op == op) || (s.pc[t].Writing? && s.pc[t].job.op == op))
  }

  ghost predicate Unmoved(s: State, s': State, k: Key) {
    && (k in s'.index <==> k in s.index)
    && (k in s.index ==>
       s.index[k] in s.mem && s'.index[k] == s.index[k] && s'.index[k] in s'.mem
         && s'.mem[s.index[k]] == s.mem[s.index[k]])
  }

  lemma EntryUnmoved(s: State, s': State, a: Step, k: Key)
    requires Inv(s) && NextStep(s, s', a) && !a.CrashRecover? && !LinksKey(s, a, k)
    ensures Unmoved(s, s', k)
  {
    if k in s.index { assert KeyInv(s, k); }
    if a.Write? {
      WriteUnmoved(s, s', a, k);
    } else if a.LinkRecord? {
      assert s'.mem == s.mem;
    } else {
      assert s'.mem == s.mem && s'.index == s.index;
    }
  }

  /** A writer's region is not the one that a key is found at. */
  lemma WriteUnmoved(s: State, s': State, a: Step, k: Key)
    requires Inv(s) && a.Write? && NextStep(s, s', a)
    ensures Unmoved(s, s', k)
  {
    if k in s.index { assert KeyInv(s, k); }
    WriterAlone(s, a.t);
  }

  /** A step that neither links t's record nor crashes keeps t's operation under way. */
  lemma StillCarries(s: State, s': State, a: Step, t: Thread, op: Op)
    requires NextStep(s, s', a) && Carries(s, t, op) && !a.CrashRecover? && a != LinkRecord(t)
    ensures Carries(s', t, op)
  {
    if a.TakeLimbo? || a.TakeFresh? {
      assert a.t != t ==> s'.pc[t] == s.pc[t];
    } else if a.Write? {
      assert a.t != t ==> s'.pc[t] == s.pc[t];
    } else if a.Recycle? || a.Fire? || a.AwaitFire? {
      assert s'.pc == s.pc;
    } else {
      assert a.t != t ==> s'.pc[t] == s.pc[t];
    }
  }

  lemma {:induction false} SoloCarries(states: seq<State>, steps: seq<Step>, t: Thread, k: Key, n: nat)
    requires SoloOp(states, steps, t, k) && 1 <= n <= |steps| - 1
    ensures Carries(states[n], t, states[1].pc[t].op) && Unmoved(states[0], states[n], k)
  {
    var op := states[1].pc[t].op;
    if n == 1 {
      assert NextStep(states[0], states[1], steps[0]);
      if k in states[0].index { assert KeyInv(states[0], k); }
    } else {
      SoloCarries(states, steps, t, k, n - 1);
      assert NextStep(states[n - 1], states[n], steps[n - 1]) && Inv(states[n - 1]);
      EntryUnmoved(states[n - 1], states[n], steps[n - 1], k);
      StillCarries(states[n - 1], states[n], steps[n - 1], t, op);
    }
  }

  /**
    A write that nobody races takes effect exactly when its call was clean: otherwise the index
    answers "expired" and keeps the old record, and the operation still reports success.
   */
  lemma WriteTakesEffectIffClean(states: seq<State>, steps: seq<Step>, t: Thread, k: Key)
    requires SoloOp(states, steps, t, k) && (steps[0].kind.Upsert? || k in states[0].index)
    ensures var s, s' := states[|steps| - 1], states[|steps|];
            var r := s.pc[t].job.addr;
            && s.pc[t].Writing?
            && (k in s'.index && s'.index[k] == r <==> Clean(states[0], k))
            && (!Clean(states[0], k) ==> s'.index == s.index && s'.pc[t] == Unlinking(s.pc[t].job.op, r))
  {
    var n := |steps| - 1;
    SoloCarries(states, steps, t, k, n);
    var s, s' := states[n], states[n + 1];
    assert Inv(s) && NextStep(s, s', steps[n]);
    assert NextStep(states[0], states[1], steps[0]) && Inv(states[0]);
    WriterAlone(s, t);
    if k in s.index {
      LoadedVersion(s, k);
      assert KeyInv(states[0], k);
    }
  }
}
