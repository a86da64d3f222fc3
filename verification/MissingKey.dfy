/**
  update and remove on a key the store does not have.

  The index operation of remove is an upsert, so on a missing key it inserts the tombstone; the
  not-found branch then recycles that very record.  update does not insert, but recycles a durable
  valid record that no index entry dominates.
 */
module MissingKey {
  import opened RecordMemory
  import opened RecordWrite
  import opened Recovery
  import opened StoreMachine
  import opened StoreInvariant
  import opened Durability
  import opened SoloRun

  /** Linking keeps the store's invariant exactly when the operation is an upsert or the key is known. */
  lemma LinkKeepsInvIff(s: State, s': State, t: Thread)
    requires Inv(s) && LinkStep(s, s', t)
    ensures Inv(s') <==> s.pc[t].job.op.kind.Upsert? || s.pc[t].job.op.key in s.index
  {
    var op, r := s.pc[t].job.op, s.pc[t].job.addr;
    WriterAlone(s, t);
    if op.kind.Upsert? || op.key in s.index {
      LinkInv(s, s', t);
    } else if op.kind.Remove? {
      assert s'.index[op.key] == r && s'.place[r] == Limbo(t);
      assert Inv(s') ==> KeyInv(s', op.key);
    } else {
      assert op.key !in s'.index && s'.mem[r].base.key == op.key;
      assert Inv(s') ==> RegionInv(s', r);
    }
  }

  /**
    Updating a missing key changes nothing that a lookup sees and acknowledges nothing, but every crash
    before the record is reused brings the key in, at the update's version or a newer one.
   */
  lemma UpdateMissingComesBack(s: State, s1: State, t: Thread, s2: State, o: Outage)
    requires Inv(s) && LinkStep(s, s1, t) && s.pc[t].job.op.kind.Update? && s.pc[t].job.op.key !in s.index
    requires RecoverStep(s1, s2, o)
    ensures s1.index == s.index && s1.mem == s.mem && s1.acked == s.acked && s1.pc[t] == Idle
    ensures var op := s.pc[t].job.op;
            op.key in s2.index && s2.index[op.key] in s2.mem && VersionAt(s2, op.key) >= op.version
  {
    UpdateMissing(s, s1, t);
    DurableComesBack(s1, s2, o, s.pc[t].job.addr);
  }

  lemma UpdateMissing(s: State, s1: State, t: Thread)
    requires Inv(s) && LinkStep(s, s1, t) && s.pc[t].job.op.kind.Update? && s.pc[t].job.op.key !in s.index
    ensures s1.index == s.index && s1.mem == s.mem && s1.token == s.token && s1.acked == s.acked && s1.pc[t] == Idle
    ensures var op, r := s.pc[t].job.op, s.pc[t].job.addr;
            && r in s1.mem && s1.mem[r].log == [] && Whole(s1.mem[r].base, op) && r in s1.token
            && s1.token[r] == Token(true, [])
  {
    WriterAlone(s, t);
  }

  /** A durable valid record with a busy token brings its key in. */
  lemma DurableComesBack(s: State, s': State, o: Outage, r: Region)
    requires RecoverStep(s, s', o) && r in s.mem && r in s.token
    requires s.mem[r].log == [] && s.mem[r].base.ctrl.Valid? && s.token[r] == Token(true, [])
    ensures var k := s.mem[r].base.key;
            k in s'.index && s'.index[k] in s'.mem && VersionAt(s', k) >= s.mem[r].base.ctrl.version
  {
    assert CrashImage(r, s.mem[r], o.img[r]);
    QuietImage(r, s.mem[r], o.img[r]);
    var objs := Objects(o.img, o.busy);
    var q := ScanComesBack(objs, o.cuts, o.order, r);
    assert s'.index[s.mem[r].base.key] == q && s'.mem[q] == Mem(o.img[q], []);
  }

  lemma ScanComesBack(objs: map<Region, Object>, cuts: seq<CutScan>, order: seq<Region>, r: Region) returns (q: Region)
    requires Usable(objs, r) && CutOff(objs, cuts) && Enumerates(order, Remaining(objs, cuts))
    ensures var sc := ScanAll(Remaining(objs, cuts), order); var k := objs[r].rec.key;
            k in sc.index && sc.index[k] == q && Usable(objs, q) && VersionOf(objs, q) >= VersionOf(objs, r)
  {
    var left := Remaining(objs, cuts);
    var p := SurvivorOfAll(objs, cuts, r);
    IndexIsNewest(left, order);
    q := ScanAll(left, order).index[objs[r].rec.key];
    assert Newest(left, objs[r].rec.key, q);
    RemainingIsPart(objs, cuts, q);
  }

  /** Thread t, idle, starts an upsert of `other` and takes the record at r from its limbo list. */
  lemma Reuse(s1: State, t: Thread, r: Region, other: Key) returns (s2: State, s3: State, a: Step)
    requires |s1.ver| == SLOTS && t in s1.pc && s1.pc[t] == Idle && r in s1.place && s1.place[r] == Limbo(t)
    requires r in s1.mem && |s1.mem[r].base.value| >= HEADER - VALUE
    ensures NextStep(s1, s2, a) && CallAllowed(s1, a) && NextStep(s2, s3, TakeLimbo(t, r))
    ensures s3.mem == s1.mem && s3.index == s1.index
    ensures t in s3.pc && s3.pc[t].Writing?
    ensures s3.pc[t].job == ReuseJob(s3.pc[t].job.op, r, s1.mem[r].base) && s3.pc[t].job.op.key == other
            && s3.pc[t].job.op.value == []
  {
    var slot := SlotOf(other);
    var op := Op(Upsert, other, [], s1.ver[slot]);
    s2 := s1.(ver := s1.ver[slot := op.version + 1], pc := s1.pc[t := Begun(op)],
              begun := s1.begun + {op}, claim := s1.claim[(other, op.version) := op]);
    a := Begin(t, Upsert, other, []);
    s3 := s2.(place := s2.place[r := Held(t)], pc := s2.pc[t := Writing(ReuseJob(op, r, s1.mem[r].base))]);
  }

  /** One store or write-back of t on its record. */
  lemma WriteOne(s: State, t: Thread, job': Job, m': Mem, q: Store) returns (e: State, a: Step)
    requires t in s.pc && s.pc[t].Writing? && s.pc[t].job.addr in s.mem
    requires WriteStep(s.pc[t].job, s.mem[s.pc[t].job.addr], job', m', q)
    ensures NextStep(s, e, a) && CallAllowed(s, a)
    ensures e == s.(mem := s.mem[s.pc[t].job.addr := m'], pc := s.pc[t := Writing(job')])
  {
    e := s.(mem := s.mem[s.pc[t].job.addr := m'], pc := s.pc[t := Writing(job')]);
    a := Write(t, job', m', q);
  }

  /** Up to where the record's fields may be filled in. */
  lemma OpenForFill(s3: State, t: Thread, r: Region) returns (states: seq<State>, steps: seq<Step>)
    requires t in s3.pc && s3.pc[t].Writing? && r in s3.mem && s3.mem[r].log == []
    requires s3.pc[t].job == ReuseJob(s3.pc[t].job.op, r, s3.mem[r].base)
    ensures Chain(states, steps) && states[0] == s3
    ensures var e := states[|steps|];
            e.index == s3.index && r in e.mem && t in e.pc && e.pc[t] == Writing(s3.pc[t].job.(stage := Fill))
  {
    var job, m := s3.pc[t].job, s3.mem[r];
    var m4 := Mem(m.base, [PutCtrl(Invalid)]);
    var s4, a4 := WriteOne(s3, t, job.(stage := if job.Same() then Fill else FlushInvalid), m4, PutCtrl(Invalid));
    states, steps := [s4], [];
    if !job.Same() {
      var e, a5 := FlushOne(s4, t, r);
      Before(s4, a5, [e], []);
      states, steps := [s4] + [e], [a5] + [];
    }
    Before(s3, a4, states, steps);
    states, steps := [s3] + states, [a4] + steps;
  }

  lemma FlushOne(s: State, t: Thread, r: Region) returns (e: State, a: Step)
    requires t in s.pc && s.pc[t].Writing? && s.pc[t].job.addr == r && r in s.mem && s.pc[t].job.stage == FlushInvalid
    ensures NextStep(s, e, a) && CallAllowed(s, a) && e.index == s.index && r in e.mem
    ensures t in e.pc && e.pc[t] == Writing(s.pc[t].job.(stage := Fill))
  {
    e, a := WriteOne(s, t, s.pc[t].job.(stage := Fill), WriteBack(r, s.mem[r], HEADER), PutCtrl(Invalid));
  }

  /** From there, the key is the first of the fields to be written. */
  lemma Overwrite(s3: State, t: Thread, r: Region, other: Key) returns (states: seq<State>, steps: seq<Step>)
    requires t in s3.pc && s3.pc[t].Writing? && r in s3.mem && s3.mem[r].log == []
    requires s3.pc[t].job == ReuseJob(s3.pc[t].job.op, r, s3.mem[r].base) && s3.pc[t].job.op.key == other
    ensures Chain(states, steps) && states[0] == s3 && states[|steps|].index == s3.index
    ensures r in states[|steps|].mem && View(states[|steps|].mem[r]).key == other
  {
    states, steps := OpenForFill(s3, t, r);
    var last, a := WriteKey(states[|steps|], t, r, other);
    OneStep(states, steps, last, a);
    states, steps := states + [last], steps + [a];
  }

  lemma WriteKey(e: State, t: Thread, r: Region, other: Key) returns (last: State, a: Step)
    requires t in e.pc && e.pc[t].Writing? && e.pc[t].job.addr == r && r in e.mem
    requires e.pc[t].job.stage == Fill && e.pc[t].job.op.key == other && PutKey(other) in e.pc[t].job.todo
    ensures NextStep(e, last, a) && CallAllowed(e, a) && last.index == e.index && r in last.mem
            && View(last.mem[r]).key == other
  {
    var job, key := e.pc[t].job, PutKey(other);
    var m6 := e.mem[r].(log := e.mem[r].log + [key]);
    last, a := WriteOne(e, t, job.(todo := job.todo - {key}), m6, key);
    assert m6.log[|m6.log| - 1] == key;
  }

  /**
    Removing a missing key lets the same thread's next write put another key's record where the
    index looks for the removed one.
   */
  lemma RemoveMissingCorrupts(s: State, s1: State, t: Thread, other: Key)
    returns (states: seq<State>, steps: seq<Step>)
    requires Inv(s) && LinkStep(s, s1, t) && s.pc[t].job.op.kind.Remove? && s.pc[t].job.op.value == []
    requires s.pc[t].job.op.key !in s.index
    ensures Chain(states, steps) && states[0] == s1
    ensures var k, e := s.pc[t].job.op.key, states[|steps|];
            k in e.index && e.index[k] in e.mem && View(e.mem[e.index[k]]).key == other
  {
    var r := s.pc[t].job.addr;
    WriterAlone(s, t);
    states, steps := ReuseAndOverwrite(s1, t, r, other);
  }

  lemma ReuseAndOverwrite(s1: State, t: Thread, r: Region, other: Key) returns (states: seq<State>, steps: seq<Step>)
    requires |s1.ver| == SLOTS && t in s1.pc && s1.pc[t] == Idle && r in s1.place && s1.place[r] == Limbo(t)
    requires r in s1.mem && s1.mem[r].log == [] && |s1.mem[r].base.value| >= HEADER - VALUE
    ensures Chain(states, steps) && states[0] == s1 && states[|steps|].index == s1.index
    ensures r in states[|steps|].mem && View(states[|steps|].mem[r]).key == other
  {
    var s2, s3, a := Reuse(s1, t, r, other);
    states, steps := Overwrite(s3, t, r, other);
    Before(s2, TakeLimbo(t, r), states, steps);
    Before(s1, a, [s2] + states, [TakeLimbo(t, r)] + steps);
    states, steps := [s1] + ([s2] + states), [a] + ([TakeLimbo(t, r)] + steps);
  }

  /** The run from a new store: one removal of a key it does not have, and a write of any other key. */
  lemma RemoveMissingRun(s: State, t: Thread, r: Region, key: Key, other: Key)
    returns (s1: State, states: seq<State>, steps: seq<Step>)
    requires Init(s) && t in s.pc && r in s.mem && |s.mem[r].base.value| >= HEADER - VALUE
    ensures NextStep(s, s1, Begin(t, Remove, key, [])) && Chain(states, steps) && states[0] == s1
    ensures var e := states[|steps|]; key in e.index && e.index[key] in e.mem && View(e.mem[e.index[key]]).key == other
  {
    var op := Op(Remove, key, [], 0);
    s1 := Called(s, t, op);
    var job, m;
    states, steps, job, m := CallToLink(s, t, op, r);
    var p := states[|steps|];
    var p1 := p.(index := p.index[key := r], place := p.place[r := Limbo(t)], pc := p.pc[t := Idle]);
    OneStep(states, steps, p1, LinkRecord(t));
    var more, acts := ReuseAndOverwrite(p1, t, r, other);
    Join(states + [p1], steps + [LinkRecord(t)], more, acts);
    states, steps := Joined(states + [p1], more), steps + [LinkRecord(t)] + acts;
  }
}
