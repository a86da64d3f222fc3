/**
  MetaHead: extent acquisition and release on persistent memory, store by store, with the state
  every crash leaves in between.
 */
module ExtentMeta {
  import opened Basics
  import opened ExtentPool
  import opened ExtentSpec

  /** Persistent memory at one moment: what is durable and what is pending. */
  datatype Snap = Snap(base: Pool, log: seq<Write>)

  /** After resume, the pool stands for v. */
  ghost predicate RecoversTo(im: Pool, v: View) {
    Shaped(im) && StandsFor(Resume(im), v)
  }

  /** Whatever a crash leaves at this moment, resume brings back the state before the operation or the one after it. */
  ghost predicate Atomic(s: Snap, before: View, after: View) {
    forall im | CrashImage(s.base, s.log, im) :: RecoversTo(im, before) || RecoversTo(im, after)
  }

  ghost predicate AtomicSince(seen: seq<Snap>, from: nat, before: View, after: View) {
    forall k | from <= k < |seen| :: Atomic(seen[k], before, after)
  }

  // What pending stores can do

  function ApplyAll(p: Pool, log: seq<Write>): (q: Pool)
    requires forall w <- log :: InPool(p, w)
    ensures SameShape(p, q)
  {
    if log == [] then p else
    var w := log[|log| - 1];
    assert InPool(p, w) by { assert w in log; }
    Apply(ApplyAll(p, log[..|log| - 1]), w)
  }

  lemma QuietImage(base: Pool, im: Pool)
    requires CrashImage(base, [], im)
    ensures im == base
  {
  }

  lemma OneStoreImage(base: Pool, w: Write, im: Pool)
    requires InPool(base, w) && CrashImage(base, [w], im)
    ensures im == base || im == Apply(base, w)
  {
  }

  /** A crash inside resume is repaired by the next one. */
  lemma ResumeAgain(p: Pool, v: View)
    requires AlmostStandsFor(p, v) && p.head.occupied == None
    ensures var q := Resume(p); Atomic(Snap(q, []), v, v)
    ensures var m := p.meta[p.head.mind];
            m.extFree.Some? ==>
              var i := m.extFree.value;
              i < |p.descs| && Atomic(Snap(p, [WDesc(i, p.descs[i].(kind := Invalid))]), v, v)
  {
    var q := Resume(p);
    ResumeRepairs(p, v);
    ResumeRepairs(q, v);
    forall im | CrashImage(q, [], im) ensures RecoversTo(im, v) { QuietImage(q, im); }
    var m := p.meta[p.head.mind];
    if m.extFree.Some? {
      var i := m.extFree.value;
      assert i in v.freeExts;
      var w := WDesc(i, p.descs[i].(kind := Invalid));
      forall im | CrashImage(p, [w], im) ensures RecoversTo(im, v) { OneStoreImage(p, w, im); }
    }
  }

  /** More pending stores, more crash images: a point is covered by any later one with the same durable part. */
  lemma FewerStores(base: Pool, log: seq<Write>, more: seq<Write>, before: View, after: View)
    requires Atomic(Snap(base, log + more), before, after)
    ensures Atomic(Snap(base, log), before, after)
  {
    forall im | CrashImage(base, log, im) ensures RecoversTo(im, before) || RecoversTo(im, after) {
      assert CrashImage(base, log + more, im);
    }
  }

  /**
    A store that no state v can see: into the inactive buffer, into the first free descriptor without
    touching its link, into a descriptor not yet used, into the link of an allocated one, or into a
    medium meta that is not on the free list.
   */
  ghost predicate Harmless(base: Pool, v: View, w: Write) {
    match w
    case WHead(_) => false
    case WMeta(b, _) => b != base.head.mind
    case WDesc(i, d) =>
      || (v.freeExts != [] && i == v.freeExts[0] && i < |base.descs| && d.next == base.descs[i].next)
      || v.extUsed <= i
      || (i in v.alloc && Meaning(d) == v.alloc[i])
    case WMed(j, _) => j !in v.freeMeds
  }

  lemma HarmlessImage(base: Pool, v: View, log: seq<Write>, im: Pool)
    requires AlmostStandsFor(base, v) && base.head.occupied == None
    requires (forall w <- log :: Harmless(base, v, w)) && CrashImage(base, log, im)
    ensures AlmostStandsFor(im, v) && RecoversTo(im, v)
  {
    assert im.head == base.head;
    assert im.meta[im.head.mind] == base.meta[im.head.mind];
    forall k | 0 <= k < |v.freeExts|
      ensures im.descs[v.freeExts[k]].next == base.descs[v.freeExts[k]].next
      ensures k > 0 ==> im.descs[v.freeExts[k]] == base.descs[v.freeExts[k]]
    {
      var i := v.freeExts[k];
      assert i in v.freeExts;
      if im.descs[i] != base.descs[i] { assert Harmless(base, v, WDesc(i, im.descs[i])); }
    }
    forall k | 0 <= k < |v.freeMeds| ensures im.meds[v.freeMeds[k]] == base.meds[v.freeMeds[k]] {
      var j := v.freeMeds[k];
      assert j in v.freeMeds;
      var m := im.meds[j];
      assert m != base.meds[j] ==> Harmless(base, v, WMed(j, m));
    }
    forall i <- v.alloc ensures Meaning(im.descs[i]) == v.alloc[i] {
      if im.descs[i] != base.descs[i] { assert Harmless(base, v, WDesc(i, im.descs[i])); }
    }
    ResumeRepairs(im, v);
  }

  lemma HarmlessAtomic(base: Pool, v: View, log: seq<Write>, other: View)
    requires AlmostStandsFor(base, v) && base.head.occupied == None && forall w <- log :: Harmless(base, v, w)
    ensures Atomic(Snap(base, log), v, other) && Atomic(Snap(base, log), other, v)
  {
    forall im | CrashImage(base, log, im) ensures RecoversTo(im, v) { HarmlessImage(base, v, log, im); }
  }

  /** Applying harmless stores leaves the state as it was. */
  lemma {:induction false} HarmlessApply(base: Pool, v: View, log: seq<Write>)
    requires AlmostStandsFor(base, v) && base.head.occupied == None
    requires (forall w <- log :: InPool(base, w)) && forall w <- log :: Harmless(base, v, w)
    ensures AlmostStandsFor(ApplyAll(base, log), v) && ApplyAll(base, log).head == base.head
  {
    AppliedIsImage(base, log);
    HarmlessImage(base, v, log, ApplyAll(base, log));
  }

  lemma {:induction false} AppliedIsImage(base: Pool, log: seq<Write>)
    requires forall w <- log :: InPool(base, w)
    ensures CrashImage(base, log, ApplyAll(base, log))
  {
    if log != [] {
      var n := |log| - 1;
      AppliedIsImage(base, log[..n]);
      assert log == log[..n] + [log[n]];
    }
  }

  /** The one store that switches from v to v'. */
  lemma SwitchAtomic(base: Pool, w: Write, v: View, v': View)
    requires InPool(base, w) && AlmostStandsFor(base, v) && base.head.occupied == None
    requires AlmostStandsFor(Apply(base, w), v') && Apply(base, w).head.occupied == None
    ensures Atomic(Snap(base, [w]), v, v')
  {
    forall im | CrashImage(base, [w], im) ensures RecoversTo(im, v) || RecoversTo(im, v') {
      OneStoreImage(base, w, im);
      ResumeRepairs(base, v);
      ResumeRepairs(Apply(base, w), v');
    }
  }

  /** Moments passed since `from` with the same durable part and no more stores than now. */
  ghost predicate Covered(seen: seq<Snap>, from: nat, base: Pool, log: seq<Write>) {
    forall k | from <= k < |seen| :: seen[k].base == base && seen[k].log <= log
  }

  lemma CoveredAtomic(seen: seq<Snap>, from: nat, base: Pool, log: seq<Write>, before: View, after: View)
    requires Covered(seen, from, base, log) && Atomic(Snap(base, log), before, after)
    ensures AtomicSince(seen, from, before, after)
  {
    forall k | from <= k < |seen| ensures Atomic(seen[k], before, after) {
      var l := seen[k].log;
      assert log == l + log[|l|..];
      FewerStores(base, l, log[|l|..], before, after);
    }
  }

  // Switching stores

  lemma {:induction false} TailChain(p: Pool, list: seq<nat>)
    requires list != [] && ExtChain(p, list)
    ensures ExtChain(p, list[1..])
  {
    forall k | 0 <= k < |list| - 1 ensures p.descs[list[1..][k]].next == HeadOf(list[1..][k + 1..]) {
      assert list[1..][k + 1..] == list[k + 2..];
    }
  }

  lemma {:induction false} TailMeds(p: Pool, list: seq<nat>)
    requires list != [] && MedChain(p, list)
    ensures MedChain(p, list[1..])
  {
    forall k | 0 <= k < |list| - 1 ensures p.meds[list[1..][k]] == HeadOf(list[1..][k + 1..]) {
      assert list[1..][k + 1..] == list[k + 2..];
    }
  }

  /** The active buffer of a state. */
  function MetaFor(v: View): DescMeta {
    DescMeta(v.extUsed, HeadOf(v.freeExts), v.medUsed, HeadOf(v.freeMeds))
  }

  /** A pool whose free descriptors and descriptors mean what `after` says becomes it with the buffer. */
  lemma AcquiredPool(p: Pool, q: Pool, v: View, x: Request, i: nat, v': View)
    requires AlmostStandsFor(p, v) && x.Valid() && CanAcquire(v, |p.descs|) && (i, v') == Acquired(v, x)
    requires i < |p.descs| && Meaning(p.descs[i]) == v'.alloc[i]
    requires forall k | 1 <= k < |v.freeExts| :: p.descs[v.freeExts[k]].kind == Invalid
    requires Shaped(q) && q.descs == p.descs && q.meds == p.meds && q.meta[q.head.mind] == MetaFor(v')
    ensures AlmostStandsFor(q, v')
  {
    AcquireKeeps(v, |p.descs|, x);
    if v.freeExts != [] { TailChain(p, v.freeExts); }
    if v.freeMeds != [] { TailMeds(p, v.freeMeds); }
  }

  lemma ReleasedPool(p: Pool, q: Pool, v: View, i: nat, v': View)
    requires AlmostStandsFor(p, v) && i in v.alloc && v' == Released(v, i)
    requires p.descs[i].next == HeadOf(v.freeExts)
    requires v.alloc[i].kind == Medium ==> p.meds[v.alloc[i].runs.value] == HeadOf(v.freeMeds)
    requires v.freeExts != [] ==> p.descs[v.freeExts[0]].kind == Invalid
    requires Shaped(q) && q.descs == p.descs && q.meds == p.meds && q.meta[q.head.mind] == MetaFor(v')
    ensures AlmostStandsFor(q, v')
  {
    ReleaseKeeps(v, |p.descs|, i);
    assert v'.freeExts[1..] == v.freeExts;
    forall k | 0 <= k < |v'.freeExts|
      ensures v'.freeExts[k] < |q.descs| && q.descs[v'.freeExts[k]].next == HeadOf(v'.freeExts[k + 1..])
    {
      if k > 0 { assert v'.freeExts[k + 1..] == v.freeExts[k..]; }
    }
    if v.alloc[i].kind == Medium {
      assert i in Mediums(v);
      assert v'.freeMeds[1..] == v.freeMeds;
      forall k | 0 <= k < |v'.freeMeds|
        ensures v'.freeMeds[k] < |q.meds| && q.meds[v'.freeMeds[k]] == HeadOf(v'.freeMeds[k + 1..])
      {
        if k > 0 { assert v'.freeMeds[k + 1..] == v.freeMeds[k..]; }
      }
    }
  }

  function Blank(total: nat): Pool {
    var none := DescMeta(0, None, 0, None);
    Pool(Head(0, None), [none, none], seq(total, _ => Desc(Invalid, 0, 0, 0, None, None, {})),
      seq(RUNS_PER_EXTENT * total, _ => None))
  }

  function Empty(): View {
    View(0, [], 0, [], map[])
  }

  /** The persistent head and segments of the meta file.  The ghost fields track the memory's durability. */
  class MetaHead {
    var mem: Pool
    ghost var base: Pool
    ghost var log: seq<Write>
    ghost var marked: set<Line>
    ghost var seen: seq<Snap>

    ghost predicate Consistent()
      reads this
    {
      (forall w <- log :: InPool(base, w)) && mem == ApplyAll(base, log)
    }

    /** Nothing pending, and the pool stands for v. */
    ghost predicate Quiet(v: View)
      reads this
    {
      log == [] && marked == {} && base == mem && StandsFor(mem, v)
    }

    /** init: a fresh pool of `total` extents */
    constructor (total: nat)
      ensures Consistent() && Quiet(Empty()) && |mem.descs| == total && seen == []
    {
      mem := Blank(total);
      base, log, marked, seen := Blank(total), [], {}, [];
      new;
      assert Mediums(Empty()) == {};
    }

    /** Opening a pool after a crash left `im` of it. */
    constructor Open(im: Pool)
      requires Shaped(im)
      ensures Consistent() && mem == im && base == im && log == [] && marked == {} && seen == []
    {
      mem := im;
      base, log, marked, seen := im, [], {}, [];
    }

    /** resume: no list of half-used extents is recorded, so the head of the free list is all there is to repair. */
    method ResumeHead(ghost v: View)
      requires Consistent() && log == [] && base == mem && AlmostStandsFor(mem, v) && mem.head.occupied == None
      modifies this
      ensures Consistent() && mem == Resume(old(mem)) && Quiet(v)
      ensures old(seen) <= seen && AtomicSince(seen, |old(seen)|, v, v)
    {
      ResumeRepairs(mem, v);
      ResumeAgain(mem, v);
      var m := mem.meta[mem.head.mind];
      if m.extFree.Some? {
        var i := m.extFree.value;
        assert i in v.freeExts;
        StoreNow(WDesc(i, mem.descs[i].(kind := Invalid)));
      } else {
        marked := {};
      }
    }

    /** One store, written back and fenced. */
    method StoreNow(w: Write)
      requires Consistent() && log == [] && base == mem && InPool(mem, w)
      modifies this
      ensures Consistent() && mem == Apply(old(mem), w) && base == mem && log == [] && marked == {}
      ensures seen == old(seen) + [Snap(old(mem), [w]), Snap(mem, [])]
    {
      Store(w);
      WriteBack(LineOf(w));
      Fence();
    }

    method Store(w: Write)
      requires Consistent() && InPool(mem, w)
      modifies this
      ensures Consistent() && mem == Apply(old(mem), w)
      ensures base == old(base) && log == old(log) + [w] && marked == old(marked) - {LineOf(w)}
      ensures seen == old(seen) + [Snap(base, log)]
    {
      assert log == (log + [w])[..|log|];
      mem := Apply(mem, w);
      log, marked := log + [w], marked - {LineOf(w)};
      seen := seen + [Snap(base, log)];
    }

    /** persist_write_back of one line */
    ghost method WriteBack(l: Line)
      modifies `marked
      ensures marked == old(marked) + {l}
    {
      marked := marked + {l};
    }

    /** persist_wait_finish; every caller has written back all it stored. */
    ghost method Fence()
      requires Consistent() && forall w <- log :: LineOf(w) in marked
      modifies `base, `log, `marked, `seen
      ensures Consistent() && base == mem && log == [] && marked == {}
      ensures seen == old(seen) + [Snap(mem, [])]
    {
      base, log, marked := mem, [], {};
      seen := seen + [Snap(base, log)];
    }

    /** Since the moment of seen0 and log0, only descriptor i was stored to, and always with this link. */
    ghost predicate Building(seen0: seq<Snap>, log0: seq<Write>, i: nat, link: Option<nat>)
      reads this
    {
      && seen0 <= seen && Covered(seen, |seen0|, base, log)
      && log0 <= log && forall w <- log[|log0|..] :: w.WDesc? && w.ext == i && w.desc.next == link
    }

    method Put(i: nat, d: Desc, ghost seen0: seq<Snap>, ghost log0: seq<Write>)
      requires Consistent() && i < |mem.descs| && Building(seen0, log0, i, d.next)
      modifies this
      ensures Consistent() && base == old(base) && mem == old(mem).(descs := old(mem).descs[i := d])
      ensures marked == old(marked) - {LDesc(i)} && Building(seen0, log0, i, d.next)
    {
      Store(WDesc(i, d));
      assert log[|log0|..] == old(log)[|log0|..] + [WDesc(i, d)];
    }

    /**
      ExtentDesc::construct, field by field, up to its write-back; callers pass the link the descriptor
      has or one it may lose.
     */
    method Construct(i: nat, x: Request, next: Option<nat>, runs: Option<nat>)
      requires Consistent() && i < |mem.descs| && x.Valid()
      modifies this
      ensures Consistent() && base == old(base) && marked == old(marked) + {LDesc(i)}
      ensures mem == old(mem).(descs := old(mem).descs[i := Constructed(x, next, runs)])
      ensures old(seen) <= seen && Covered(seen, |old(seen)|, base, log)
      ensures old(log) <= log && forall w <- log[|old(log)|..] :: w.WDesc? && w.ext == i
      ensures old(mem).descs[i].next == next ==> forall w <- log[|old(log)|..] :: w.desc.next == next
    {
      ghost var seen0, log0 := seen, log;
      var d := mem.descs[i].(kind := x.kind);
      Put(i, d, seen0, log0);
      d := d.(rcase := x.rcase);
      Put(i, d, seen0, log0);
      d := d.(size := x.size);
      Put(i, d, seen0, log0);
      d := d.(count := EXTENT_SIZE / x.size);
      Put(i, d, seen0, log0);
      ghost var seen1, log1 := seen, log;
      d := d.(next := next);
      Put(i, d, seen1, log1);
      d := d.(runs := runs);
      Put(i, d, seen1, log1);
      d := d.(used := {});
      Put(i, d, seen1, log1);
      WriteBack(LDesc(i));
      assert log[|log0|..] == log1[|log0|..] + log[|log1|..];
    }

    /** So far the operation made only stores, to these lines, that state v cannot see. */
    ghost predicate Hidden(v: View, seen0: seq<Snap>, lines: set<Line>)
      reads this
    {
      && Consistent() && AlmostStandsFor(base, v) && base.head.occupied == None
      && seen0 <= seen && Covered(seen, |seen0|, base, log)
      && (forall w <- log :: Harmless(base, v, w) && LineOf(w) in lines)
    }

    method Hide(w: Write, ghost v: View, ghost seen0: seq<Snap>, ghost lines: set<Line>)
      requires Hidden(v, seen0, lines) && InPool(mem, w) && Harmless(base, v, w) && LineOf(w) in lines
      modifies this
      ensures Hidden(v, seen0, lines) && base == old(base) && mem == Apply(old(mem), w)
              && marked == old(marked) - {LineOf(w)}
    {
      Store(w);
    }

    /** construct on a descriptor of no allocated extent */
    method ConstructHidden(i: nat, x: Request, next: Option<nat>, runs: Option<nat>, ghost v: View,
        ghost seen0: seq<Snap>, ghost lines: set<Line>)
      requires Hidden(v, seen0, lines) && i < |mem.descs| && x.Valid() && LDesc(i) in lines
      requires v.extUsed <= i || (v.freeExts != [] && i == v.freeExts[0]
               && next == base.descs[i].next == mem.descs[i].next)
      modifies this
      ensures Hidden(v, seen0, lines) && base == old(base) && marked == old(marked) + {LDesc(i)}
      ensures mem == old(mem).(descs := old(mem).descs[i := Constructed(x, next, runs)])
    {
      ghost var log0 := log;
      Construct(i, x, next, runs);
      forall w <- log ensures Harmless(base, v, w) && LineOf(w) in lines {
        assert w in log0 || w in log[|log0|..];
      }
    }

    /** End of the first half: the hidden stores made durable. */
    ghost method Settle(v: View, other: View, seen0: seq<Snap>)
      requires Hidden(v, seen0, marked)
      modifies `base, `log, `marked, `seen
      ensures Consistent() && base == mem && log == [] && marked == {}
      ensures AlmostStandsFor(mem, v) && mem.head.occupied == None && mem.head == old(base).head
      ensures seen0 <= seen && AtomicSince(seen, |seen0|, v, other) && AtomicSince(seen, |seen0|, other, v)
    {
      HarmlessAtomic(base, v, log, other);
      CoveredAtomic(seen, |seen0|, base, log, v, other);
      CoveredAtomic(seen, |seen0|, base, log, other, v);
      HarmlessApply(base, v, log);
      Fence();
      HarmlessAtomic(base, v, [], other);
    }

    /** The second half: one store that switches the state, made durable. */
    method Switch(w: Write, ghost v: View, ghost v': View, ghost seen0: seq<Snap>)
      requires Consistent() && log == [] && base == mem && InPool(mem, w)
      requires AlmostStandsFor(mem, v) && mem.head.occupied == None
      requires AlmostStandsFor(Apply(mem, w), v') && Apply(mem, w).head.occupied == None
      requires seen0 <= seen && AtomicSince(seen, |seen0|, v, v')
      modifies this
      ensures Consistent() && base == mem == Apply(old(mem), w) && log == [] && marked == {}
      ensures seen0 <= seen && AtomicSince(seen, |seen0|, v, v')
    {
      Store(w);
      SwitchAtomic(base, w, v, v');
      WriteBack(LineOf(w));
      Fence();
      HarmlessAtomic(base, v', [], v);
    }

    method PlainReclaim(x: Request, ghost v: View) returns (i: nat)
      requires Consistent() && Quiet(v) && x.Valid() && x.kind != Medium && v.freeExts != []
      modifies this
      ensures Consistent() && (i, Acquired(v, x).1) == Acquired(v, x) && Quiet(Acquired(v, x).1)
      ensures old(seen) <= seen && AtomicSince(seen, |old(seen)|, v, Acquired(v, x).1)
    {
      ghost var v' := Acquired(v, x).1;
      var m := mem.meta[mem.head.mind];
      i := m.extFree.value;
      var next := mem.descs[i].next;
      ConstructHidden(i, x, next, None, v, old(seen), {LDesc(i)});
      Settle(v, v', old(seen));
      AcquireKeeps(v, |mem.descs|, x);
      AcquiredPool(mem, Apply(mem, WMeta(mem.head.mind, m.(extFree := next))), v, x, i, v');
      Switch(WMeta(mem.head.mind, m.(extFree := next)), v, v', old(seen));
    }

    method PlainAllocate(x: Request, ghost v: View) returns (i: nat)
      requires Consistent() && Quiet(v) && x.Valid() && x.kind != Medium
      requires v.freeExts == [] && v.extUsed < |mem.descs|
      modifies this
      ensures Consistent() && (i, Acquired(v, x).1) == Acquired(v, x) && Quiet(Acquired(v, x).1)
      ensures old(seen) <= seen && AtomicSince(seen, |old(seen)|, v, Acquired(v, x).1)
    {
      ghost var v' := Acquired(v, x).1;
      var m := mem.meta[mem.head.mind];
      i := m.extUsed;
      ConstructHidden(i, x, None, None, v, old(seen), {LDesc(i)});
      Settle(v, v', old(seen));
      AcquireKeeps(v, |mem.descs|, x);
      AcquiredPool(mem, Apply(mem, WMeta(mem.head.mind, m.(extUsed := m.extUsed + 1))), v, x, i, v');
      Switch(WMeta(mem.head.mind, m.(extUsed := m.extUsed + 1)), v, v', old(seen));
    }

    /** The copy of the active buffer and allocate_meta on the copy. */
    method AllocateMeta(nid: nat, ghost v: View, ghost seen0: seq<Snap>, ghost lines: set<Line>) returns (runs: nat)
      requires Hidden(v, seen0, lines) && LMeta(nid) in lines && StandsFor(mem, v) && mem.head == base.head && nid < 2
               && nid != mem.head.mind
      modifies this
      ensures Hidden(v, seen0, lines) && base == old(base) && marked == old(marked) - {LMeta(nid)}
      ensures runs == TakeMeta(v).0
      ensures var w := TakeMeta(v).1;
              mem == old(mem).(meta := old(mem).meta[nid := DescMeta(v.extUsed, HeadOf(v.freeExts), w.medUsed,
                HeadOf(w.freeMeds))])
    {
      Hide(WMeta(nid, mem.meta[mem.head.mind]), v, seen0, lines);
      var m := mem.meta[nid];
      if m.medFree.Some? {
        runs := m.medFree.value;
        Hide(WMeta(nid, m.(medFree := mem.meds[runs])), v, seen0, lines);
      } else {
        runs := m.medUsed;
        Hide(WMeta(nid, m.(medUsed := m.medUsed + RUNS_PER_EXTENT)), v, seen0, lines);
      }
    }

    method ComplexReclaim(x: Request, ghost v: View) returns (i: nat)
      requires Consistent() && Quiet(v) && x.Valid() && x.kind == Medium && v.freeExts != []
      modifies this
      ensures Consistent() && (i, Acquired(v, x).1) == Acquired(v, x) && Quiet(Acquired(v, x).1)
      ensures old(seen) <= seen && AtomicSince(seen, |old(seen)|, v, Acquired(v, x).1)
    {
      ghost var v' := Acquired(v, x).1;
      var nid := (mem.head.mind + 1) % 2;
      ghost var lines := {LMeta(nid), LDesc(v.freeExts[0])};
      var runs := AllocateMeta(nid, v, old(seen), lines);
      i := mem.meta[nid].extFree.value;
      var next := mem.descs[i].next;
      ConstructHidden(i, x, next, Some(runs), v, old(seen), lines);
      Hide(WMeta(nid, mem.meta[nid].(extFree := next)), v, old(seen), lines);
      WriteBack(LMeta(nid));
      Flip(x, nid, i, v, v', old(seen));
    }

    method ComplexAllocate(x: Request, ghost v: View) returns (i: nat)
      requires Consistent() && Quiet(v) && x.Valid() && x.kind == Medium
      requires v.freeExts == [] && v.extUsed < |mem.descs|
      modifies this
      ensures Consistent() && (i, Acquired(v, x).1) == Acquired(v, x) && Quiet(Acquired(v, x).1)
      ensures old(seen) <= seen && AtomicSince(seen, |old(seen)|, v, Acquired(v, x).1)
    {
      ghost var v' := Acquired(v, x).1;
      var nid := (mem.head.mind + 1) % 2;
      ghost var lines := {LMeta(nid), LDesc(v.extUsed)};
      var runs := AllocateMeta(nid, v, old(seen), lines);
      i := mem.meta[nid].extUsed;
      ConstructHidden(i, x, None, Some(runs), v, old(seen), lines);
      Hide(WMeta(nid, mem.meta[nid].(extUsed := mem.meta[nid].extUsed + 1)), v, old(seen), lines);
      WriteBack(LMeta(nid));
      Flip(x, nid, i, v, v', old(seen));
    }

    /** Fence, then the switch of mind_ to the prepared buffer. */
    method Flip(x: Request, nid: nat, i: nat, ghost v: View, ghost v': View, ghost seen0: seq<Snap>)
      requires Hidden(v, seen0, marked) && x.Valid() && CanAcquire(v, |mem.descs|) && (i, v') == Acquired(v, x)
      requires nid < 2 && Shaped(mem) && mem.head == base.head && mem.meta[nid] == MetaFor(v')
      requires i < |mem.descs| && Meaning(mem.descs[i]) == v'.alloc[i]
      requires StandsFor(base, v) && forall k | 0 <= k < |v'.freeExts| :: mem.descs[v'.freeExts[k]].kind == Invalid
      modifies this
      ensures Consistent() && Quiet(v')
      ensures seen0 <= seen && AtomicSince(seen, |seen0|, v, v')
    {
      Settle(v, v', seen0);
      AcquiredPool(mem, Apply(mem, WHead(mem.head.(mind := nid))), v, x, i, v');
      Switch(WHead(mem.head.(mind := nid)), v, v', seen0);
    }

    /**
      Acquire an extent, from the free list first.  At every moment on the way, whatever a crash
      leaves, resume finds the allocator as it was before or as it is after.
     */
    method Acquire(x: Request, ghost v: View) returns (i: Option<nat>)
      requires Consistent() && Quiet(v) && x.Valid()
      modifies this
      ensures Consistent() && (i.Some? <==> CanAcquire(v, |mem.descs|))
      ensures i.None? ==> mem == old(mem) && seen == old(seen) && Quiet(v)
      ensures i.Some? ==> Acquired(v, x) == (i.value, Acquired(v, x).1) && Quiet(Acquired(v, x).1)
      ensures i.Some? ==> i.value !in v.alloc && i.value < |mem.descs| && Asked(Meaning(mem.descs[i.value]), x)
      ensures i.Some? ==> old(seen) <= seen && AtomicSince(seen, |old(seen)|, v, Acquired(v, x).1)
    {
      AcquiredIs(v, x);
      if CanAcquire(v, |mem.descs|) { AcquireKeeps(v, |mem.descs|, x); }
      var m := mem.meta[mem.head.mind];
      var j: nat;
      if m.extFree.Some? {
        if x.kind == Medium {
          j := ComplexReclaim(x, v);
        } else {
          j := PlainReclaim(x, v);
        }
        return Some(j);
      }
      if m.extUsed >= |mem.descs| {
        return None;
      }
      if x.kind == Medium {
        j := ComplexAllocate(x, v);
      } else {
        j := PlainAllocate(x, v);
      }
      return Some(j);
    }

    /** The last part of a release: the type of the new first free extent becomes invalid. */
    method MarkInvalid(i: nat, ghost v: View, ghost v': View, ghost seen0: seq<Snap>)
      requires Consistent() && log == [] && base == mem && marked == {} && AlmostStandsFor(mem, v')
               && mem.head.occupied == None
      requires v'.freeExts != [] && i == v'.freeExts[0]
      requires seen0 <= seen && AtomicSince(seen, |seen0|, v, v')
      modifies this
      ensures Consistent() && Quiet(v')
      ensures seen0 <= seen && AtomicSince(seen, |seen0|, v, v')
    {
      ghost var seen1 := seen;
      Hide(WDesc(i, mem.descs[i].(kind := Invalid)), v', seen1, {LDesc(i)});
      WriteBack(LDesc(i));
      Settle(v', v, seen1);
      forall k | |seen0| <= k < |seen| ensures Atomic(seen[k], v, v') {
        if k < |seen1| { assert seen[k] == seen1[k]; }
      }
    }

    method PlainRelease(i: nat, ghost v: View)
      requires Consistent() && Quiet(v) && i in v.alloc && v.alloc[i].kind != Medium
      modifies this
      ensures Consistent() && Quiet(Released(v, i))
      ensures old(seen) <= seen && AtomicSince(seen, |old(seen)|, v, Released(v, i))
    {
      ghost var v' := Released(v, i);
      var m := mem.meta[mem.head.mind];
      Hide(WDesc(i, mem.descs[i].(next := m.extFree)), v, old(seen), {LDesc(i)});
      WriteBack(LDesc(i));
      Settle(v, v', old(seen));
      ReleasedPool(mem, Apply(mem, WMeta(mem.head.mind, m.(extFree := Some(i)))), v, i, v');
      Switch(WMeta(mem.head.mind, m.(extFree := Some(i))), v, v', old(seen));
      MarkInvalid(i, v, v', old(seen));
    }

    /** complex_release links the extent and its metas in front of the two lists ... */
    method LinkBoth(i: nat, runs: nat, ext: Option<nat>, med: Option<nat>, ghost v: View, ghost seen0: seq<Snap>,
        ghost lines: set<Line>)
      requires Hidden(v, seen0, lines) && base.descs == mem.descs && SameShape(base, mem) && StandsFor(base, v)
      requires i in Mediums(v) && v.alloc[i].runs == Some(runs) && {LDesc(i), LMed(runs)} <= lines
      requires ext == HeadOf(v.freeExts) && med == HeadOf(v.freeMeds)
      modifies this
      ensures Hidden(v, seen0, lines) && base == old(base) && marked == old(marked) + {LDesc(i), LMed(runs)}
      ensures i < |mem.descs| && runs < |mem.meds|
      ensures mem == old(mem).(descs := old(mem).descs[i := base.descs[i].(next := HeadOf(v.freeExts))],
                               meds := old(mem).meds[runs := HeadOf(v.freeMeds)])
    {
      Hide(WDesc(i, mem.descs[i].(next := ext)), v, seen0, lines);
      Hide(WMed(runs, med), v, seen0, lines);
      WriteBack(LDesc(i));
      WriteBack(LMed(runs));
    }

    /** ... and prepares the inactive buffer. */
    method StageRelease(i: nat, nid: nat, runs: nat, ghost v: View, ghost seen0: seq<Snap>)
      requires Hidden(v, seen0, {}) && base == mem && StandsFor(mem, v) && marked == {}
      requires i in Mediums(v) && v.alloc[i].runs == Some(runs) && nid < 2 && nid != mem.head.mind
      modifies this
      ensures Hidden(v, seen0, marked) && base == old(base) && mem.head == old(mem).head
      ensures mem.descs == old(mem).descs[i := old(mem).descs[i].(next := HeadOf(v.freeExts))]
      ensures runs < |mem.meds| && mem.meds == old(mem).meds[runs := HeadOf(v.freeMeds)]
      ensures mem.meta == old(mem).meta[nid := DescMeta(v.extUsed, Some(i), v.medUsed, Some(runs))]
    {
      ghost var lines := {LMeta(nid), LDesc(i), LMed(runs)};
      var m := mem.meta[mem.head.mind];
      Hide(WMeta(nid, m), v, seen0, lines);
      LinkBoth(i, runs, m.extFree, m.medFree, v, seen0, lines);
      m := m.(extFree := Some(i));
      Hide(WMeta(nid, m), v, seen0, lines);
      m := m.(medFree := Some(runs));
      Hide(WMeta(nid, m), v, seen0, lines);
      WriteBack(LMeta(nid));
      assert marked == lines;
    }

    method ComplexRelease(i: nat, ghost v: View)
      requires Consistent() && Quiet(v) && i in v.alloc && v.alloc[i].kind == Medium
      modifies this
      ensures Consistent() && Quiet(Released(v, i))
      ensures old(seen) <= seen && AtomicSince(seen, |old(seen)|, v, Released(v, i))
    {
      ghost var v' := Released(v, i);
      assert i in Mediums(v);
      var nid := (mem.head.mind + 1) % 2;
      StageRelease(i, nid, mem.descs[i].runs.value, v, old(seen));
      Settle(v, v', old(seen));
      ReleasedPool(mem, Apply(mem, WHead(mem.head.(mind := nid))), v, i, v');
      Switch(WHead(mem.head.(mind := nid)), v, v', old(seen));
      MarkInvalid(i, v, v', old(seen));
    }

    /** Release an allocated extent, crash atomic like Acquire. */
    method Release(i: nat, ghost v: View)
      requires Consistent() && Quiet(v) && i in v.alloc
      modifies this
      ensures Consistent() && Quiet(Released(v, i))
      ensures old(seen) <= seen && AtomicSince(seen, |old(seen)|, v, Released(v, i))
    {
      if mem.descs[i].kind == Medium {
        ComplexRelease(i, v);
      } else {
        PlainRelease(i, v);
      }
    }

    // Close and reboot

    /** record: link a half-used extent before close */
    method Record(i: nat, ghost v: View, ghost occ: seq<nat>)
      requires Consistent() && Listed(mem, v, occ) && mem.head.occupied == HeadOf(occ) && i in v.alloc && i !in occ
      modifies this
      ensures Consistent() && Listed(mem, v, [i] + occ) && mem.head.occupied == HeadOf([i] + occ)
    {
      PushListed(mem, v, occ, i);
      Store(WDesc(i, mem.descs[i].(next := mem.head.occupied)));
      Store(WHead(mem.head.(occupied := Some(i))));
      WriteBack(LDesc(i));
    }

    method Unlink(i: nat, ghost v: View, ghost rest: seq<nat>) returns (next: Option<nat>)
      requires Consistent() && Listed(mem, v, rest) && rest != [] && i == rest[0]
      modifies this
      ensures Consistent() && Listed(mem, v, rest[1..]) && next == HeadOf(rest[1..])
    {
      PopListed(mem, v, rest);
      next := mem.descs[i].next;
      Store(WDesc(i, mem.descs[i].(next := None)));
      WriteBack(LDesc(i));
    }

    /** The walk over the recorded extents, shared by reboot and resume: it returns them and forgets them. */
    method Drain(ghost v: View, ghost occ: seq<nat>) returns (extents: seq<nat>)
      requires Consistent() && Listed(mem, v, occ) && mem.head.occupied == HeadOf(occ)
      modifies this
      ensures Consistent() && extents == occ && StandsFor(mem, v)
    {
      extents := [];
      var at := mem.head.occupied;
      ghost var rest := occ;
      while at.Some?
        invariant Consistent() && Listed(mem, v, rest) && at == HeadOf(rest) && Walked(extents, rest, occ)
        decreases |rest|
      {
        var i := at.value;
        WalkStep(extents, rest, occ);
        extents := extents + [i];
        at := Unlink(i, v, rest);
        rest := rest[1..];
      }
      Store(WHead(mem.head.(occupied := None)));
    }
  }

  ghost predicate Walked(done: seq<nat>, rest: seq<nat>, all: seq<nat>) {
    done + rest == all
  }

  lemma WalkStep(done: seq<nat>, rest: seq<nat>, all: seq<nat>)
    requires Walked(done, rest, all) && rest != []
    ensures Walked(done + [rest[0]], rest[1..], all)
  {
    assert done + [rest[0]] + rest[1..] == done + rest;
  }

  /** occ is a chain of distinct allocated descriptors; the rest of the pool is as v says. */
  ghost predicate Listed(p: Pool, v: View, occ: seq<nat>) {
    && AlmostStandsFor(p, v) && (v.freeExts != [] ==> p.descs[v.freeExts[0]].kind == Invalid)
    && ExtChain(p, occ) && Distinct(occ) && forall i <- occ :: i in v.alloc
  }

  /** The link of an allocated extent is no part of the state. */
  lemma LinkOfAllocated(p: Pool, q: Pool, v: View, i: nat, next: Option<nat>)
    requires AlmostStandsFor(p, v) && i in v.alloc && q.meta == p.meta && q.meds == p.meds && q.head.mind == p.head.mind
    requires q.descs == p.descs[i := p.descs[i].(next := next)]
    ensures AlmostStandsFor(q, v)
    ensures forall k | 0 <= k < |v.freeExts| :: q.descs[v.freeExts[k]] == p.descs[v.freeExts[k]]
  {
    forall k | 0 <= k < |v.freeExts| ensures q.descs[v.freeExts[k]] == p.descs[v.freeExts[k]] {
      assert v.freeExts[k] in v.freeExts;
    }
  }

  lemma PushListed(p: Pool, v: View, occ: seq<nat>, i: nat)
    requires Listed(p, v, occ) && i in v.alloc && i !in occ
    ensures Listed(p.(descs := p.descs[i := p.descs[i].(next := HeadOf(occ))], head := p.head.(occupied := Some(i))), v,
            [i] + occ)
  {
    var q := p.(descs := p.descs[i := p.descs[i].(next := HeadOf(occ))], head := p.head.(occupied := Some(i)));
    LinkOfAllocated(p, q, v, i, HeadOf(occ));
    var all := [i] + occ;
    forall k | 0 <= k < |all| ensures all[k] < |q.descs| && q.descs[all[k]].next == HeadOf(all[k + 1..]) {
      if k == 0 {
        assert all[1..] == occ;
      } else {
        assert all[k] == occ[k - 1] && all[k + 1..] == occ[k..] && occ[k - 1] in occ;
      }
    }
  }

  lemma TailDistinct(rest: seq<nat>)
    requires Distinct(rest) && rest != []
    ensures Distinct(rest[1..]) && rest[0] !in rest[1..] && forall i <- rest[1..] :: i in rest
  {
  }

  lemma PopListed(p: Pool, v: View, rest: seq<nat>)
    requires Listed(p, v, rest) && rest != []
    ensures rest[0] in v.alloc && rest[0] < |p.descs| && p.descs[rest[0]].next == HeadOf(rest[1..])
    ensures Listed(p.(descs := p.descs[rest[0] := p.descs[rest[0]].(next := None)]), v, rest[1..])
  {
    var i := rest[0];
    var q := p.(descs := p.descs[i := p.descs[i].(next := None)]);
    assert i in rest;
    LinkOfAllocated(p, q, v, i, None);
    TailDistinct(rest);
    PopChain(p, q, rest);
  }

  lemma PopChain(p: Pool, q: Pool, rest: seq<nat>)
    requires ExtChain(p, rest) && Distinct(rest) && rest != [] && rest[0] < |p.descs|
    requires q.descs == p.descs[rest[0] := p.descs[rest[0]].(next := None)]
    ensures ExtChain(q, rest[1..])
  {
    TailChain(p, rest);
    forall k | 0 <= k < |rest| - 1 ensures q.descs[rest[1..][k]] == p.descs[rest[1..][k]] {
      assert rest[1..][k] == rest[k + 1];
    }
  }

  // A crash and what follows it

  lemma RecoversAlmost(im: Pool, v: View)
    requires RecoversTo(im, v)
    ensures AlmostStandsFor(im, v) && im.head.occupied == None
  {
  }

  /**
    A crash inside an operation, then opening and resume: the head stands for the state before the
    operation or after it.
   */
  method Reopen(im: Pool, ghost s: Snap, ghost before: View, ghost after: View) returns (m: MetaHead)
    requires Atomic(s, before, after) && CrashImage(s.base, s.log, im)
    ensures fresh(m) && m.Consistent() && m.mem == Resume(im) && (m.Quiet(before) || m.Quiet(after))
    ensures var v := if m.Quiet(before) then before else after; AtomicSince(m.seen, 0, v, v)
  {
    ghost var v := if RecoversTo(im, before) then before else after;
    RecoversAlmost(im, v);
    m := new MetaHead.Open(im);
    m.ResumeHead(v);
  }

  // Whole runs

  /** One operation, completed or cut off by a crash on either side of its switch. */
  ghost predicate Step(v: View, v': View, total: nat) {
    || v' == v
    || (CanAcquire(v, total) && exists x: Request | x.Valid() :: v' == Acquired(v, x).1)
    || exists i | i in v.alloc :: v' == Released(v, i)
  }

  /**
    Over any run of acquisitions, releases, crashes and resumes, free and allocated partition the used
    extents and medium metas are conserved.
   */
  lemma {:induction false} RunKeepsInv(run: seq<View>, total: nat)
    requires run != [] && run[0] == Empty() && forall k | 0 <= k < |run| - 1 :: Step(run[k], run[k + 1], total)
    ensures ViewInv(run[|run| - 1], total)
    ensures var v := run[|run| - 1];
            v.medUsed == RUNS_PER_EXTENT * (|Mediums(v)| + |v.freeMeds|) && v.medUsed <= RUNS_PER_EXTENT * total
  {
    var n := |run| - 1;
    if n == 0 {
      assert Mediums(Empty()) == {};
    } else {
      RunKeepsInv(run[..n], total);
      var v, v' := run[n - 1], run[n];
      assert Step(v, v', total);
      if CanAcquire(v, total) && exists x: Request | x.Valid() :: v' == Acquired(v, x).1 {
        var x: Request :| x.Valid() && v' == Acquired(v, x).1;
        AcquireKeeps(v, total, x);
      } else if i :| i in v.alloc && v' == Released(v, i) {
        ReleaseKeeps(v, total, i);
      }
    }
  }
}
