/**
  The allocator's rebuild with the rebuilder at work: any number of threads load extents, wake runs and
  visit regions, and the rebuilder releases regions it has visited, at any time.  Releases fill caches,
  caches spill, and runs and extents may leave while others are still to be scanned.

  `h` is the allocator as far as it is rebuilt: the extents loaded so far.  A loaded run that waits for
  its turn counts as handed out entirely; nothing reads its mark before it is cleared.
 */
module SlabRecoverRace {
  import opened Basics
  import opened RunBits
  import opened RunBin
  import opened SlabHeap
  import opened SlabHeapProof
  import opened SlabReboot
  import opened SlabRecover

  /** `todo` are the runs of loaded extents still to be woken, `pending` the regions listed and not yet visited. */
  datatype State = State(
    h: Heap, unloaded: set<Ext>, todo: set<Run>, pending: set<Region>, visits: seq<Region>, freed: set<Region>)

  datatype Step =
    | Load(x: Slot, e: Ext)
    | Wake(r: Run)
    | Visit(g: Region)
    | Release(c: Cache, g: Region)
    | Spill(c: Cache)

  ghost function RunsOf(k: Heap, x: Slot, e: Ext): set<Run>
    requires x in k.shelves && e in k.shelves[x].runs
  {
    set rid | rid in k.shelves[x].runs[e] :: Run(e, rid)
  }

  ghost function AllOf(h: Heap, r: Run): set<Region>
    requires r in h.metas
  {
    set i | i in Ones(h.metas[r].count) :: Region(r, i)
  }

  ghost function BusyOf(h: Heap, r: Run): set<Region>
    requires r in h.metas
  {
    set i | i in h.metas[r].busy :: Region(r, i)
  }

  /** The heap with one more extent, all of whose runs in use are counted as handed out. */
  ghost function Loaded(k: Heap, h: Heap, x: Slot, e: Ext): Heap
    requires x in k.shelves && e in k.shelves[x].runs && x in h.shelves
  {
    var more := RunsOf(k, x, e);
    h.(shelves := h.shelves[x := Reloaded(h.shelves[x], e, k.shelves[x].runs[e])],
       metas := map r | r in h.metas :: if r in more then h.metas[r].(polluted := false) else h.metas[r],
       user := h.user + set r, i | r in more && r in h.metas && i in Ones(h.metas[r].count) :: Region(r, i))
  }

  /** Its regions without a busy token return to the run, which enters its arena bin if there are any. */
  ghost function Woken(h: Heap, r: Run): Heap
    requires r in h.metas && h.metas[r].bin in h.bins
  {
    var m := h.metas[r];
    h.(bins := if m.busy != Ones(m.count) then h.bins[m.bin := h.bins[m.bin][r := m.busy]] else h.bins,
       user := h.user - (AllOf(h, r) - BusyOf(h, r)))
  }

  ghost predicate NextStep(k: Heap, s: State, s': State, a: Step) {
    match a
    case Load(x, e) =>
      && e in s.unloaded && x in k.shelves && e in k.shelves[x].runs && x in s.h.shelves
      && s' == s.(h := Loaded(k, s.h, x, e), unloaded := s.unloaded - {e}, todo := s.todo + RunsOf(k, x, e))
    case Wake(r) =>
      && r in s.todo && r in s.h.metas && s.h.metas[r].bin in s.h.bins
      && s' == s.(h := Woken(s.h, r), todo := s.todo - {r}, pending := s.pending + BusyOf(s.h, r))
    case Visit(g) =>
      g in s.pending && s' == s.(pending := s.pending - {g}, visits := s.visits + [g])
    case Release(c, g) =>
      g in s.visits && g !in s.freed && CanFree(s.h, c, g) && s' == s.(h := DoFree(s.h, c, g), freed := s.freed + {g})
    case Spill(c) =>
      CanSpill(s.h, c) && s' == s.(h := DoSpill(s.h, c))
  }

  /** Nothing is loaded yet. */
  ghost function Start(k: Heap): State {
    State(k.(shelves := map x | x in k.shelves :: Shelf(k.shelves[x].count, map[], {}), user := {}),
          set x, e | x in k.shelves && e in k.shelves[x].runs :: e, {}, {}, [], {})
  }

  // The invariant

  ghost predicate ShelfOk(k: Heap, s: State, x: Slot) {
    (x in s.h.shelves <==> x in k.shelves) &&
    (x in k.shelves ==>
       && s.h.shelves[x].count == k.shelves[x].count
       && forall e <- s.h.shelves[x].runs :: e in k.shelves[x].runs && e !in s.unloaded)
  }

  ghost predicate MetaOk(k: Heap, s: State, r: Run) {
    && (r in s.h.metas <==> r in k.metas)
    && (r in k.metas ==> s.h.metas[r].bin == k.metas[r].bin && s.h.metas[r].count == k.metas[r].count)
    && (r in k.metas && r.ext in s.unloaded ==> s.h.metas[r] == k.metas[r])
    && (r in s.todo ==> Live(k, r) && s.h.metas[r].busy == k.metas[r].busy && r.ext !in s.unloaded)
  }

  /** Where a region is in the rebuild. */
  ghost predicate RegionOk(k: Heap, s: State, g: Region) {
    && (g in s.pending ==> Published(k, g) && g !in s.visits && g.run !in s.todo && g.run.ext !in s.unloaded)
    && (g in s.visits ==> Published(k, g) && g.run !in s.todo && g.run.ext !in s.unloaded)
    && (g in s.freed ==> g in s.visits)
    && (Published(k, g) ==> g.run.ext in s.unloaded || g.run in s.todo || g in s.pending || g in s.visits)
    && (g in s.h.user <==>
          g in s.pending || (g in s.visits && g !in s.freed)
          || (g.run in s.todo && g.run in k.metas && g.ind in Ones(k.metas[g.run].count)))
  }

  ghost predicate Inv(k: Heap, s: State) {
    && SlabHeap.Inv(s.h) && s.h.ncases == k.ncases && s.h.bins.Keys == k.bins.Keys
    && (forall x {:trigger ShelfOk(k, s, x)} :: ShelfOk(k, s, x))
    && (forall r {:trigger MetaOk(k, s, r)} :: MetaOk(k, s, r))
    && (forall g {:trigger RegionOk(k, s, g)} :: RegionOk(k, s, g))
    && Distinct(s.visits) && s.unloaded <= Start(k).unloaded
  }

  // Loading an extent

  ghost predicate CanLoad(k: Heap, h: Heap, x: Slot, e: Ext) {
    && Image(k) && SlabHeap.Inv(h) && h.ncases == k.ncases && h.bins.Keys == k.bins.Keys
    && x in k.shelves && e in k.shelves[x].runs && x in h.shelves && h.shelves[x].count == k.shelves[x].count
    && Unused(h, e)
    && forall r {:trigger h.metas[r]} | r in RunsOf(k, x, e) :: r in h.metas && r in k.metas && h.metas[r] == k.metas[r]
  }

  lemma LoadedRun(k: Heap, h: Heap, x: Slot, e: Ext, r: Run)
    requires CanLoad(k, h, x, e)
    ensures var h' := Loaded(k, h, x, e); var novel := r in RunsOf(k, x, e);
            && (forall y :: Holds(h', y, r) <==> Holds(h, y, r) || (novel && y == x))
            && (novel ==> r in h.metas && !Live(h, r) && Home(h, h.metas[r].bin) == x && Sound(h, h.metas[r]))
            && (novel ==> Taken(h', r) == Ones(h.metas[r].count) && h'.metas[r] == h.metas[r].(polluted := false))
            && (Live(h', r) <==> Live(h, r) || novel)
            && (Live(h, r) ==> h'.metas[r] == h.metas[r] && Taken(h', r) == Taken(h, r))
  {
    var h' := Loaded(k, h, x, e);
    if r in RunsOf(k, x, e) {
      assert Holds(k, x, r) && r.ext == e;
      assert r in h.metas ==> EntryOk(h, h.metas[r].bin, r);
    } else if r.ext == e {
      assert r.rid !in k.shelves[x].runs[e] by { assert Run(r.ext, r.rid) == r; }
    }
    assert r in h.metas ==> Home(h', h'.metas[r].bin) == Home(h, h.metas[r].bin);
  }

  lemma LoadBins(k: Heap, h: Heap, x: Slot, e: Ext)
    requires CanLoad(k, h, x, e)
    ensures BinInv(Loaded(k, h, x, e))
  {
    var h' := Loaded(k, h, x, e);
    ReloadKeeps(h.shelves[x], e, k.shelves[x].runs[e]);
    forall y, z ensures OneShelf(h', y, z) { assert OneShelf(h, y, z); }
    forall y, r | Holds(h', y, r) ensures r in h'.metas && Home(h', h'.metas[r].bin) == y {
      LoadedRun(k, h, x, e, r);
      assert Holds(h, y, r) ==> r in h.metas && Home(h, h.metas[r].bin) == y;
    }
    forall r ensures RunOk(h', r) {
      LoadedRun(k, h, x, e, r);
      assert RunOk(h, r);
    }
    forall b, r ensures EntryOk(h', b, r) {
      LoadedRun(k, h, x, e, r);
      assert EntryOk(h, b, r);
    }
    forall b | b in h'.bins ensures Home(h', b) in h'.shelves { assert Home(h, b) in h.shelves; }
  }

  lemma LoadedRegion(k: Heap, h: Heap, x: Slot, e: Ext, g: Region)
    requires CanLoad(k, h, x, e)
    ensures var h' := Loaded(k, h, x, e); var novel := g.run in RunsOf(k, x, e);
            && (novel ==> g.run in h.metas && g !in h.user && (g in h'.user <==> g.ind in Ones(h.metas[g.run].count)))
            && (!novel ==> (g in h'.user <==> g in h.user))
            && (Allocated(h', g) <==> Allocated(h, g) || (novel && g in h'.user))
  {
    LoadedRun(k, h, x, e, g.run);
    assert g in h.user ==> Allocated(h, g);
    assert g == Region(g.run, g.ind);
  }

  lemma LoadHeap(k: Heap, h: Heap, x: Slot, e: Ext)
    requires CanLoad(k, h, x, e)
    ensures SlabHeap.Inv(Loaded(k, h, x, e))
  {
    var h' := Loaded(k, h, x, e);
    LoadBins(k, h, x, e);
    forall g | g in h'.user ensures Allocated(h', g) {
      LoadedRegion(k, h, x, e, g);
      assert g in h.user ==> Allocated(h, g);
    }
    forall c, g ensures CachedOk(h', c, g) {
      LoadedRegion(k, h, x, e, g);
      LoadedRun(k, h, x, e, g.run);
      assert CachedOk(h, c, g) && (InCache(h', g, c) <==> InCache(h, g, c));
    }
    forall c ensures OnceIn(h', c) { assert OnceIn(h, c); }
    forall g, c, d ensures OneCache(h', g, c, d) { assert OneCache(h, g, c, d); }
    forall g ensures Accounted(h', g) {
      LoadedRegion(k, h, x, e, g);
      assert Accounted(h, g);
      if Allocated(h, g) && g !in h.user { var c :| InCache(h, g, c); assert InCache(h', g, c); }
    }
    forall r, i ensures SlabHeap.TokenOk(h', r, i) {
      LoadedRegion(k, h, x, e, Region(r, i));
      LoadedRun(k, h, x, e, r);
      assert SlabHeap.TokenOk(h, r, i);
    }
  }

  // Waking a run

  ghost predicate CanWake(h: Heap, r: Run) {
    SlabHeap.Inv(h) && Live(h, r) && AllOf(h, r) <= h.user
  }

  /** A run all of whose regions are handed out is in no bin. */
  lemma WholeRun(h: Heap, r: Run)
    requires CanWake(h, r)
    ensures h.metas[r].bin in h.bins && r !in h.bins[h.metas[r].bin] && Taken(h, r) == Ones(h.metas[r].count)
    ensures h.metas[r].busy <= Ones(h.metas[r].count)
  {
    var m := h.metas[r];
    assert RunOk(h, r) && EntryOk(h, m.bin, r);
    forall i | i in Ones(m.count) ensures i in Taken(h, r) {
      assert Region(r, i) in h.user && Allocated(h, Region(r, i));
    }
  }

  lemma WokenTaken(h: Heap, r: Run, q: Run)
    requires CanWake(h, r) && q in h.metas && h.metas[r].bin in h.bins
    ensures Live(Woken(h, r), q) <==> Live(h, q)
    ensures Taken(Woken(h, r), q) == if q == r then h.metas[r].busy else Taken(h, q)
  {
    WholeRun(h, r);
    assert Home(Woken(h, r), h.metas[q].bin) == Home(h, h.metas[q].bin);
  }

  lemma WokenRegion(h: Heap, r: Run, g: Region)
    requires CanWake(h, r) && h.metas[r].bin in h.bins
    ensures var h' := Woken(h, r);
            && (Allocated(h', g) <==> Allocated(h, g) && (g.run == r ==> g.ind in h.metas[r].busy))
            && (g in h'.user <==> g in h.user && (g.run == r ==> g.ind in h.metas[r].busy))
  {
    WholeRun(h, r);
    if g.run in h.metas { WokenTaken(h, r, g.run); }
    if g.run == r {
      assert g == Region(r, g.ind);
      assert g in h.user ==> Allocated(h, g);
    }
  }

  lemma WakeBins(h: Heap, r: Run)
    requires CanWake(h, r) && h.metas[r].bin in h.bins
    ensures BinInv(Woken(h, r))
  {
    var h' := Woken(h, r);
    WholeRun(h, r);
    forall y, z ensures OneShelf(h', y, z) { assert OneShelf(h, y, z); }
    forall y, q ensures Holds(h', y, q) <==> Holds(h, y, q) {}
    forall y, q | Holds(h', y, q) ensures q in h'.metas && Home(h', h'.metas[q].bin) == y {
      assert Holds(h, y, q);
    }
    forall q ensures RunOk(h', q) {
      assert RunOk(h, q);
      if q in h.metas { WokenTaken(h, r, q); }
    }
    forall b, q ensures EntryOk(h', b, q) {
      assert EntryOk(h, b, q);
      if q in h.metas { WokenTaken(h, r, q); }
    }
    forall b | b in h'.bins ensures Home(h', b) in h'.shelves { assert Home(h, b) in h.shelves; }
  }

  lemma WakeHeap(h: Heap, r: Run)
    requires CanWake(h, r) && h.metas[r].bin in h.bins
    ensures SlabHeap.Inv(Woken(h, r))
  {
    var h' := Woken(h, r);
    WakeBins(h, r);
    forall g | g in h'.user ensures Allocated(h', g) { WokenRegion(h, r, g); }
    forall c, g ensures CachedOk(h', c, g) {
      WokenRegion(h, r, g);
      assert CachedOk(h, c, g) && (InCache(h', g, c) <==> InCache(h, g, c));
      if Allocated(h, g) && g.run == r {
        InRange(h, g);
        assert g == Region(r, g.ind) && g in AllOf(h, r);
      }
    }
    forall c ensures OnceIn(h', c) { assert OnceIn(h, c); }
    forall g, c, d ensures OneCache(h', g, c, d) { assert OneCache(h, g, c, d); }
    forall g ensures Accounted(h', g) {
      WokenRegion(h, r, g);
      assert Accounted(h, g);
      if Allocated(h', g) && g !in h'.user { var c :| InCache(h, g, c); assert InCache(h', g, c); }
    }
    forall q, i ensures SlabHeap.TokenOk(h', q, i) {
      WokenRegion(h, r, Region(q, i));
      if q in h.metas { WokenTaken(h, r, q); }
      assert SlabHeap.TokenOk(h, q, i);
    }
  }

  // The steps keep the invariant

  lemma InUseInImage(k: Heap, x: Slot, e: Ext, r: Run)
    requires Image(k) && x in k.shelves && e in k.shelves[x].runs
    ensures r in RunsOf(k, x, e) ==> r.ext == e && Live(k, r) && Home(k, k.metas[r].bin) == x
    ensures r.ext == e && Live(k, r) ==> r in RunsOf(k, x, e)
  {
    if r in RunsOf(k, x, e) { assert Holds(k, x, r); }
    if r.ext == e && Live(k, r) {
      assert OneShelf(k, x, Home(k, k.metas[r].bin));
      assert r == Run(e, r.rid);
    }
  }

  lemma LoadInv(k: Heap, s: State, s': State, x: Slot, e: Ext)
    requires Image(k) && Inv(k, s) && NextStep(k, s, s', Load(x, e))
    ensures Inv(k, s')
  {
    assert ShelfOk(k, s, x);
    forall y | y in s.h.shelves ensures e !in s.h.shelves[y].runs { assert ShelfOk(k, s, y); }
    forall r | r in RunsOf(k, x, e) ensures r in s.h.metas && r in k.metas && s.h.metas[r] == k.metas[r] {
      InUseInImage(k, x, e, r);
      assert MetaOk(k, s, r);
    }
    assert CanLoad(k, s.h, x, e);
    LoadHeap(k, s.h, x, e);
    forall y ensures ShelfOk(k, s', y) {
      assert ShelfOk(k, s, y);
      if y in k.shelves { assert OneShelf(k, x, y); }
    }
    forall r ensures MetaOk(k, s', r) {
      assert MetaOk(k, s, r);
      InUseInImage(k, x, e, r);
    }
    forall g ensures RegionOk(k, s', g) {
      assert RegionOk(k, s, g) && MetaOk(k, s, g.run);
      LoadRegion(k, s, s', x, e, g);
    }
  }

  lemma LoadRegion(k: Heap, s: State, s': State, x: Slot, e: Ext, g: Region)
    requires CanLoad(k, s.h, x, e) && NextStep(k, s, s', Load(x, e)) && RegionOk(k, s, g) && MetaOk(k, s, g.run)
    ensures RegionOk(k, s', g)
  {
    InUseInImage(k, x, e, g.run);
    LoadedRegion(k, s.h, x, e, g);
  }

  lemma WakeInv(k: Heap, s: State, s': State, r: Run)
    requires Image(k) && Inv(k, s) && NextStep(k, s, s', Wake(r))
    ensures Inv(k, s')
  {
    assert MetaOk(k, s, r);
    forall g | g in AllOf(s.h, r) ensures g in s.h.user { assert RegionOk(k, s, g); }
    assert Sound(k, k.metas[r]) by { assert Holds(k, Home(k, k.metas[r].bin), r); }
    assert Region(r, 0) in AllOf(s.h, r) && Allocated(s.h, Region(r, 0));
    WakeHeap(s.h, r);
    forall y ensures ShelfOk(k, s', y) { assert ShelfOk(k, s, y); }
    forall q ensures MetaOk(k, s', q) { assert MetaOk(k, s, q); }
    forall g ensures RegionOk(k, s', g) {
      assert RegionOk(k, s, g);
      WakeRegion(k, s, s', r, g);
    }
  }

  lemma WakeRegion(k: Heap, s: State, s': State, r: Run, g: Region)
    requires CanWake(s.h, r) && NextStep(k, s, s', Wake(r)) && RegionOk(k, s, g) && MetaOk(k, s, r)
    ensures RegionOk(k, s', g)
  {
    WokenRegion(s.h, r, g);
    assert g.run == r && g.ind in s.h.metas[r].busy ==> g == Region(r, g.ind) && g in BusyOf(s.h, r);
    WholeRun(s.h, r);
  }

  lemma VisitInv(k: Heap, s: State, s': State, g: Region)
    requires Inv(k, s) && NextStep(k, s, s', Visit(g))
    ensures Inv(k, s')
  {
    forall y ensures ShelfOk(k, s', y) { assert ShelfOk(k, s, y); }
    forall q ensures MetaOk(k, s', q) { assert MetaOk(k, s, q); }
    forall x ensures RegionOk(k, s', x) { assert RegionOk(k, s, x); }
    assert RegionOk(k, s, g);
  }

  lemma ReleaseInv(k: Heap, s: State, s': State, c: Cache, g: Region)
    requires Inv(k, s) && NextStep(k, s, s', Release(c, g))
    ensures Inv(k, s')
  {
    FreeInv(s.h, c, g);
    assert RegionOk(k, s, g);
    forall y ensures ShelfOk(k, s', y) { assert ShelfOk(k, s, y); }
    forall q ensures MetaOk(k, s', q) { assert MetaOk(k, s, q); }
    forall x ensures RegionOk(k, s', x) { assert RegionOk(k, s, x); }
  }

  lemma SpillFrame(h: Heap, c: Cache, x: Slot)
    requires CanSpill(h, c)
    ensures var h' := DoSpill(h, c);
            && h'.ncases == h.ncases && h'.metas == h.metas && h'.user == h.user && h'.bins.Keys == h.bins.Keys
            && (x in h'.shelves <==> x in h.shelves)
            && (x in h.shelves ==>
               h'.shelves[x].count == h.shelves[x].count && h'.shelves[x].runs.Keys <= h.shelves[x].runs.Keys)
  {
  }

  lemma SpillKeeps(k: Heap, s: State, s': State, c: Cache)
    requires Inv(k, s) && NextStep(k, s, s', Step.Spill(c))
    ensures Inv(k, s')
  {
    SpillInv(s.h, c);
    forall y ensures ShelfOk(k, s', y) {
      assert ShelfOk(k, s, y);
      SpillFrame(s.h, c, y);
    }
    SpillFrame(s.h, c, Slot(0, 0));
    forall q ensures MetaOk(k, s', q) { assert MetaOk(k, s, q); }
    forall x ensures RegionOk(k, s', x) { assert RegionOk(k, s, x); }
  }

  lemma StartInv(k: Heap)
    requires Image(k)
    ensures Inv(k, Start(k))
  {
    var s := Start(k);
    forall x | x in s.h.shelves ensures Exact(s.h.shelves[x]) { assert k.shelves[x].count > 1; }
    forall b | b in s.h.bins ensures Home(s.h, b) in s.h.shelves { assert Home(k, b) in k.shelves; }
    forall r ensures !Live(s.h, r) {}
    forall b, r ensures EntryOk(s.h, b, r) { assert b in k.bins ==> k.bins[b] == map[]; }
    forall c, g ensures !InCache(s.h, g, c) { assert c in k.caches ==> k.caches[c] == []; }
    forall c ensures OnceIn(s.h, c) { assert c in k.caches ==> k.caches[c] == []; }
    forall g ensures RegionOk(k, s, g) {
      if Published(k, g) { assert Holds(k, Home(k, k.metas[g.run].bin), g.run); }
    }
  }

  // Whole runs

  ghost predicate Trace(k: Heap, states: seq<State>, steps: seq<Step>) {
    && |states| == |steps| + 1 && states[0] == Start(k)
    && forall i: nat {:trigger steps[i]} | i < |steps| :: NextStep(k, states[i], states[i + 1], steps[i])
  }

  lemma NextInv(k: Heap, s: State, s': State, a: Step)
    requires Image(k) && Inv(k, s) && NextStep(k, s, s', a)
    ensures Inv(k, s')
  {
    match a
    case Load(x, e) => LoadInv(k, s, s', x, e);
    case Wake(r) => WakeInv(k, s, s', r);
    case Visit(g) => VisitInv(k, s, s', g);
    case Release(c, g) => ReleaseInv(k, s, s', c, g);
    case Spill(c) => SpillKeeps(k, s, s', c);
  }

  lemma {:induction false} TraceInv(k: Heap, states: seq<State>, steps: seq<Step>, n: nat)
    requires Image(k) && Trace(k, states, steps) && n <= |steps|
    ensures Inv(k, states[n])
  {
    if n == 0 {
      StartInv(k);
    } else {
      TraceInv(k, states, steps, n - 1);
      NextInv(k, states[n - 1], states[n], steps[n - 1]);
    }
  }

  ghost predicate Complete(s: State) {
    s.unloaded == {} && s.todo == {} && s.pending == {}
  }

  /** Until it is complete the scan can go on, whatever was released. */
  lemma ScanGoesOn(k: Heap, s: State) returns (s': State, a: Step)
    requires Image(k) && Inv(k, s) && !Complete(s)
    ensures NextStep(k, s, s', a) && (a.Load? || a.Wake? || a.Visit?)
  {
    if s.pending != {} {
      var g :| g in s.pending;
      a, s' := Visit(g), s.(pending := s.pending - {g}, visits := s.visits + [g]);
    } else if s.todo != {} {
      var r :| r in s.todo;
      assert MetaOk(k, s, r) && Holds(k, Home(k, k.metas[r].bin), r);
      a := Wake(r);
      s' := s.(h := Woken(s.h, r), todo := s.todo - {r}, pending := s.pending + BusyOf(s.h, r));
    } else {
      var e :| e in s.unloaded;
      var x :| x in k.shelves && e in k.shelves[x].runs;
      assert ShelfOk(k, s, x);
      a := Load(x, e);
      s' := s.(h := Loaded(k, s.h, x, e), unloaded := s.unloaded - {e}, todo := s.todo + RunsOf(k, x, e));
    }
  }

  /**
    Whatever the rebuilder releases in the meantime: at every moment the allocator rebuilt so far is in
    order, only published regions are visited, none twice, and a region is not released before its
    visit.  When the scan is complete every published region was visited, exactly the visited regions
    that were not released are the user's, and every region handed out is one of these or cached.
   */
  lemma RebuildWithReleases(k: Heap, states: seq<State>, steps: seq<Step>, n: nat)
    requires Image(k) && Trace(k, states, steps) && n <= |steps|
    ensures var s := states[n];
            && SlabHeap.Inv(s.h) && Distinct(s.visits)
            && (forall g <- s.visits :: Published(k, g)) && (forall g <- s.freed :: g in s.visits)
            && (Complete(s) ==>
                  && (forall g {:trigger g in s.visits} :: g in s.visits <==> Published(k, g))
                  && (forall g {:trigger g in s.h.user} :: g in s.h.user <==> g in s.visits && g !in s.freed)
                  && (forall g {:trigger Allocated(s.h, g)} ::
                        Allocated(s.h, g) ==> g in s.h.user || exists c :: InCache(s.h, g, c)))
  {
    TraceInv(k, states, steps, n);
    var s := states[n];
    forall g <- s.visits ensures Published(k, g) { assert RegionOk(k, s, g); }
    forall g <- s.freed ensures g in s.visits { assert RegionOk(k, s, g); }
    if Complete(s) {
      forall g ensures g in s.visits <==> Published(k, g) { assert RegionOk(k, s, g); }
      forall g ensures g in s.h.user <==> g in s.visits && g !in s.freed { assert RegionOk(k, s, g); }
      forall g | Allocated(s.h, g) ensures g in s.h.user || exists c :: InCache(s.h, g, c) { assert Accounted(s.h, g); }
    }
  }
}
