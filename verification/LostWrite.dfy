/**
  The write that is acknowledged and lost, as a run from a new store: write a key, crash, recover, write
  it again.  The second write gets the version the first one had and is dropped as expired.  Both records
  are then valid at that version, and the next recovery takes the one its scan meets first.
 */
module LostWrite {
  import opened RecordMemory
  import opened RecordWrite
  import opened Recovery
  import opened StoreMachine
  import opened SoloRun

  /** A store that holds one key, at version 0, and nothing else. */
  ghost predicate HoldsOne(s: State, op: Op, r: Region) {
    && op.version == 0 && r in s.mem && s.mem.Keys == s.token.Keys == s.place.Keys
    && s.index == map[op.key := r] && s.place[r] == Linked && s.token[r] == Token(true, [])
    && s.mem[r].log == [] && Whole(s.mem[r].base, op) && |s.ver| == SLOTS
    && forall q {:trigger s.mem[q]} | q in s.mem && q != r ::
       s.mem[q].log == [] && s.token[q] == Token(false, []) && s.place[q] == Free
  }

  /** The link of the first write. */
  function LinkedFirst(p: State, t: Thread, op: Op, r: Region): State {
    p.(index := p.index[op.key := r], place := p.place[r := Linked], pc := p.pc[t := Idle], acked := p.acked + {op})
  }

  /** The first write, from the empty store. */
  lemma FirstWrite(s: State, t: Thread, key: Key, value: seq<int>, r: Region)
    returns (states: seq<State>, steps: seq<Step>)
    requires Init(s) && t in s.pc && r in s.mem && |value| + HEADER - VALUE <= |s.mem[r].base.value|
    ensures Chain(states, steps) && states[0] == s
    ensures var op, e := Op(Upsert, key, value, 0), states[|steps|];
            && HoldsOne(e, op, r) && e.acked == e.begun == {op} && e.pc.Keys == s.pc.Keys
            && e.mem == s.mem[r := e.mem[r]]
  {
    var op := Op(Upsert, key, value, 0);
    var job, m;
    states, steps, job, m := WriteToLink(s, t, op, r);
    var p := states[|steps|];
    var e := LinkedFirst(p, t, op, r);
    OneStep(states, steps, e, LinkRecord(t));
    states, steps := states + [e], steps + [LinkRecord(t)];
  }

  lemma ScanOne(objs: map<Region, Object>, r: Region)
    requires Usable(objs, r)
    ensures var sc := ScanAll(objs, [r]);
            && sc.index == map[objs[r].rec.key := r] && sc.dropped == {}
            && (VersionOf(objs, r) == 0 ==> sc.ver == seq(SLOTS, _ => 0))
  {
    assert [r][..0] == [] && ScanAll(objs, []) == Start();
    assert ScanAll(objs, [r]) == Visit(objs, Start(), r);
  }

  /** What recovery makes of that store: only the version table and the threads' positions change. */
  ghost function Restarted(s: State): State {
    s.(ver := seq(SLOTS, _ => 0), pc := map t | t in s.pc :: Idle)
  }

  lemma StillOne(s: State, op: Op, r: Region)
    requires HoldsOne(s, op, r)
    ensures HoldsOne(Restarted(s), op, r) && Restarted(s).ver[SlotOf(op.key)] == 0
  {
  }

  lemma RestartedIs(s: State, op: Op, r: Region, img: map<Region, Record>)
    requires HoldsOne(s, op, r) && img == map q | q in s.mem :: s.mem[q].base
    ensures AfterScan(s, img, Scan(map[op.key := r], seq(SLOTS, _ => 0), {}), {}) == Restarted(s)
  {
    var index := map[op.key := r];
    assert index[op.key] == r && index.Values == {r};
    var e := AfterScan(s, img, Scan(map[op.key := r], seq(SLOTS, _ => 0), {}), {});
    assert e.mem == s.mem && e.token == s.token && e.place == s.place;
  }

  lemma CrashAfter(s: State, op: Op, r: Region) returns (o: Outage)
    requires HoldsOne(s, op, r)
    ensures RecoverStep(s, Restarted(s), o)
  {
    var img := map q | q in s.mem :: s.mem[q].base;
    o := Outage(img, {r}, [], [r], {});
    assert Crash(s, img, {r}) by { QuietCrash(s, op, r, img); }
    var objs := Objects(img, {r});
    ScanOne(objs, r);
    RestartedIs(s, op, r, img);
    assert ScanAll(objs, [r]) == Scan(map[op.key := r], seq(SLOTS, _ => 0), {});
  }

  /** With nothing pending a crash leaves what there is. */
  lemma QuietCrash(s: State, op: Op, r: Region, img: map<Region, Record>)
    requires HoldsOne(s, op, r) && img == map q | q in s.mem :: s.mem[q].base
    ensures Crash(s, img, {r})
  {
    forall q <- img ensures CrashImage(q, s.mem[q], img[q]) {
      assert s.mem[q].log == [];
      assert img[q] == Replay(s.mem[q].base, [], q, KeepAll(0));
    }
  }

  /** Two records of one key at version 0, the first of them in the index, and nothing else. */
  ghost predicate Tied(s: State, first: Op, r: Region, second: Op, q: Region) {
    && r != q && first.version == second.version == 0 && first.key == second.key
    && r in s.mem && q in s.mem && s.mem.Keys == s.token.Keys && s.index == map[first.key := r]
    && Whole(s.mem[r].base, first) && Whole(s.mem[q].base, second)
    && forall x {:trigger s.mem[x]} | x in s.mem :: s.mem[x].log == [] && s.token[x] == Token(x == r || x == q, [])
  }

  /** The second write of the key is dropped and acknowledged. */
  lemma SecondWrite(s: State, t: Thread, first: Op, r: Region, value: seq<int>, q: Region)
    returns (states: seq<State>, steps: seq<Step>)
    requires HoldsOne(s, first, r) && s.ver[SlotOf(first.key)] == 0 && t in s.pc && s.pc[t] == Idle
    requires q in s.mem && q != r && |value| + HEADER - VALUE <= |s.mem[q].base.value|
    ensures Chain(states, steps) && states[0] == s
    ensures var op, e := Op(Upsert, first.key, value, 0), states[|steps|];
            && e.acked == s.acked + {op} && e.index == s.index && r in e.mem && e.mem[r] == s.mem[r]
            && e.pc.Keys == s.pc.Keys && (forall u <- s.pc :: e.pc[u] == s.pc[u]) && Tied(e, first, r, op, q)
  {
    var op := Op(Upsert, first.key, value, 0);
    var job, m;
    states, steps, job, m := WriteToLink(s, t, op, q);
    var p := states[|steps|];
    assert p.index == s.index && p.mem[r] == s.mem[r] && VersionAt(p, first.key) == 0;
    var p1 := p.(pc := p.pc[t := Unlinking(op, q)]);
    OneStep(states, steps, p1, LinkRecord(t));
    var e := p1.(place := p1.place[q := Retired], pc := p1.pc[t := Idle], acked := p1.acked + {op});
    OneStep(states + [p1], steps + [LinkRecord(t)], e, RetireVictim(t));
    states, steps := states + [p1] + [e], steps + [LinkRecord(t)] + [RetireVictim(t)];
  }

  lemma StillFirst(m: Mem, a: Op, b: Op)
    requires m.log == [] && Whole(m.base, a) && a.value != b.value
    ensures Whole(View(m), a) && !Whole(View(m), b)
  {
    assert View(m) == m.base;
    assert a.value == m.base.value[..|a.value|];
    assert b.value <= m.base.value ==> b.value == m.base.value[..|b.value|];
  }

  /**
    In every new store with a thread and two regions, for any key and any two different values: a run in
    which the first value is written and acknowledged, and then the second, and the store is left with
    the first.
   */
  lemma AcknowledgedWriteIsLost(s: State, t: Thread, key: Key, v1: seq<int>, v2: seq<int>, r: Region, q: Region)
    returns (states: seq<State>, steps: seq<Step>, n: nat)
    requires Init(s) && t in s.pc && r in s.mem && q in s.mem && q != r && v1 != v2
    requires |v1| + HEADER - VALUE <= |s.mem[r].base.value| && |v2| + HEADER - VALUE <= |s.mem[q].base.value|
    ensures Run(states, steps) && states[0] == s && n <= |steps|
    ensures var first, second, e := Op(Upsert, key, v1, 0), Op(Upsert, key, v2, 0), states[|steps|];
            && first in states[n].acked && second !in states[n].begun && second in e.acked
            && key in e.index && e.index[key] in e.mem
            && Whole(View(e.mem[e.index[key]]), first) && !Whole(View(e.mem[e.index[key]]), second)
            && Tied(e, first, r, second, q) && forall u <- e.pc :: e.pc[u] == Idle
  {
    var first := Op(Upsert, key, v1, 0);
    states, steps := FirstWrite(s, t, key, v1, r);
    n := |steps|;
    var a := states[n];
    var more, acts := AfterFirst(a, t, first, r, v2, q);
    Join(states, steps, more, acts);
    states, steps := Joined(states, more), steps + acts;
    RunOf(states, steps);
  }

  lemma RunOf(states: seq<State>, steps: seq<Step>)
    requires Chain(states, steps) && Init(states[0])
    ensures Run(states, steps)
  {
    forall i | 0 <= i < |steps|
      ensures NextStep(states[i], states[i + 1], steps[i]) && CallAllowed(states[i], steps[i])
    {
      assert steps[i] == steps[i];
    }
  }

  /** Crash, recovery and second write. */
  lemma AfterFirst(a: State, t: Thread, first: Op, r: Region, v2: seq<int>, q: Region)
    returns (states: seq<State>, steps: seq<Step>)
    requires HoldsOne(a, first, r) && t in a.pc && q in a.mem && q != r
             && |v2| + HEADER - VALUE <= |a.mem[q].base.value| && first.value != v2
    ensures Chain(states, steps) && states[0] == a
    ensures var second, e := Op(Upsert, first.key, v2, 0), states[|steps|];
            && second in e.acked && first.key in e.index && e.index[first.key] in e.mem
            && Whole(View(e.mem[e.index[first.key]]), first) && !Whole(View(e.mem[e.index[first.key]]), second)
            && Tied(e, first, r, second, q) && forall u <- e.pc :: e.pc[u] == Idle
  {
    var o := CrashAfter(a, first, r);
    var b := Restarted(a);
    StillOne(a, first, r);
    StillFirst(a.mem[r], first, Op(Upsert, first.key, v2, 0));
    states, steps := SecondWrite(b, t, first, r, v2, q);
    assert states[|steps|].index[first.key] == r && states[|steps|].mem[r] == a.mem[r];
    Before(a, CrashRecover(o), states, steps);
    states, steps := [a] + states, [CrashRecover(o)] + steps;
  }

  // The tie

  lemma TiedCrash(s: State, first: Op, r: Region, second: Op, q: Region, img: map<Region, Record>)
    requires Tied(s, first, r, second, q) && img == map x | x in s.mem :: s.mem[x].base
    ensures Crash(s, img, {r, q})
  {
    forall x <- img ensures CrashImage(x, s.mem[x], img[x]) {
      assert s.mem[x].log == [];
      assert img[x] == Replay(s.mem[x].base, [], x, KeepAll(0));
    }
  }

  lemma TiedScan(s: State, first: Op, r: Region, second: Op, q: Region, img: map<Region, Record>, a: Region, b: Region)
    requires Tied(s, first, r, second, q) && img == (map x | x in s.mem :: s.mem[x].base)
             && ((a, b) == (r, q) || (a, b) == (q, r))
    ensures var objs := Objects(img, {r, q});
            && Enumerates([a, b], objs)
            && first.key in ScanAll(objs, [a, b]).index && ScanAll(objs, [a, b]).index[first.key] == a
  {
    var objs, order := Objects(img, {r, q}), [a, b];
    assert Enumerates(order, objs);
    assert Newest(objs, first.key, order[0]);
    FirstWins(objs, order, first.key);
  }

  /** One way to recover from a crash, in which the key ends with op's record at region a. */
  ghost predicate Recovers(s: State, e: State, o: Outage, op: Op, a: Region) {
    && RecoverStep(s, e, o) && op.key in e.index && e.index[op.key] == a && a in e.mem && Whole(e.mem[a].base, op)
  }

  /** A recovery from that crash indexes the record its scan meets first. */
  lemma TiedRecovery(s: State, first: Op, r: Region, second: Op, q: Region, a: Region, b: Region)
    returns (e: State, o: Outage)
    requires Tied(s, first, r, second, q) && ((a, b) == (r, q) || (a, b) == (q, r))
    ensures o.img == (map x | x in s.mem :: s.mem[x].base) && o.busy == {r, q}
    ensures Recovers(s, e, o, if a == r then first else second, a)
  {
    var img := map x | x in s.mem :: s.mem[x].base;
    TiedCrash(s, first, r, second, q, img);
    TiedScan(s, first, r, second, q, img, a, b);
    e, o := PlainRecovery(s, img, {r, q}, [a, b]);
    assert e.mem[a] == Mem(img[a], []) && img[a] == s.mem[a].base;
  }

  /** A scan that nothing interrupts and that leaves nobody waiting. */
  lemma PlainRecovery(s: State, img: map<Region, Record>, busy: set<Region>, order: seq<Region>)
    returns (e: State, o: Outage)
    requires Crash(s, img, busy) && Enumerates(order, Objects(img, busy))
    ensures o.img == img && o.busy == busy && RecoverStep(s, e, o)
    ensures e.index == ScanAll(Objects(img, busy), order).index && e.mem == (map x | x in img :: Mem(img[x], []))
  {
    o := Outage(img, busy, [], order, {});
    var objs := Objects(img, busy);
    assert CutOff(objs, o.cuts) && Remaining(objs, o.cuts) == objs;
    e := AfterScan(s, img, ScanAll(objs, order), o.late);
  }

  /**
    The recovery of one crash may go two ways: in every new store with a thread and two regions, for any
    key and two values, there is a run after which one scan order recovers the first value and another the
    second, though that one was in no index entry and nobody was writing it.
   */
  lemma ScanOrderDecides(s: State, t: Thread, key: Key, v1: seq<int>, v2: seq<int>, r: Region, q: Region)
    returns (states: seq<State>, steps: seq<Step>, e1: State, o1: Outage, e2: State, o2: Outage)
    requires Init(s) && t in s.pc && r in s.mem && q in s.mem && q != r && v1 != v2
    requires |v1| + HEADER - VALUE <= |s.mem[r].base.value| && |v2| + HEADER - VALUE <= |s.mem[q].base.value|
    ensures Run(states, steps) && states[0] == s
    ensures var e := states[|steps|];
            && Recovers(e, e1, o1, Op(Upsert, key, v1, 0), r) && Recovers(e, e2, o2, Op(Upsert, key, v2, 0), q)
            && o1.img == o2.img && o1.busy == o2.busy
            && e.index == map[key := r] && forall u <- e.pc :: e.pc[u] == Idle
  {
    var n;
    states, steps, n := AcknowledgedWriteIsLost(s, t, key, v1, v2, r, q);
    e1, o1, e2, o2 := BothWays(states[|steps|], Op(Upsert, key, v1, 0), r, Op(Upsert, key, v2, 0), q);
  }

  lemma BothWays(e: State, first: Op, r: Region, second: Op, q: Region)
    returns (e1: State, o1: Outage, e2: State, o2: Outage)
    requires Tied(e, first, r, second, q)
    ensures Recovers(e, e1, o1, first, r) && Recovers(e, e2, o2, second, q) && o1.img == o2.img && o1.busy == o2.busy
  {
    e1, o1 := TiedRecovery(e, first, r, second, q, r, q);
    e2, o2 := TiedRecovery(e, first, r, second, q, q, r);
  }
}
