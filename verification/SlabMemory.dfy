/**
  Where the regions of the slab hierarchy lie in memory: whatever the threads do, no two regions that are
  handed out share a byte, and a pointer leads back to its region.
 */
module SlabMemory {
  import opened Basics
  import opened RunBits
  import opened RunBin
  import opened SizeClass
  import opened RegionLayout
  import opened RunSizes
  import opened SlabHeap
  import opened SlabHeapProof

  // Runs are cut as their class demands

  ghost predicate LaidRun(h: Heap, r: Run) {
    Live(h, r) ==> h.metas[r].bin.cls < CACHED && CountFor(h.metas[r].bin.cls, h.metas[r].count)
  }

  ghost predicate LaidShelf(h: Heap, s: Slot) {
    s in h.shelves ==> s.rbid < RUN_TYPES && h.shelves[s].count * RunSize(s.rbid) == EXTENT_SIZE
  }

  ghost predicate Laid(h: Heap) {
    && (forall b {:trigger h.bins[b]} | b in h.bins :: b.cls < CACHED)
    && (forall s {:trigger LaidShelf(h, s)} :: LaidShelf(h, s))
    && (forall r {:trigger LaidRun(h, r)} :: LaidRun(h, r))
  }

  /** The runs in use, their class and their count stay. */
  lemma SameRuns(h: Heap, h': Heap)
    requires Laid(h) && h'.bins.Keys == h.bins.Keys && h'.shelves.Keys == h.shelves.Keys
    requires forall s {:trigger h'.shelves[s]} | s in h.shelves :: h'.shelves[s].count == h.shelves[s].count
    requires forall r {:trigger Live(h', r)} | Live(h', r) ::
               Live(h, r) && h'.metas[r].bin == h.metas[r].bin && h'.metas[r].count == h.metas[r].count
    ensures Laid(h')
  {
    forall b | b in h'.bins ensures b.cls < CACHED { assert b in h.bins && h.bins[b] == h.bins[b]; }
    forall s ensures LaidShelf(h', s) { assert LaidShelf(h, s); }
    forall r ensures LaidRun(h', r) { assert LaidRun(h, r); }
  }

  lemma StockLaid(h: Heap, b: Bin, e: Ext, count: nat)
    requires BinInv(h) && Laid(h) && CanStock(h, b, e, count) && CountFor(b.cls, count)
    ensures Laid(DoStock(h, b, e, count))
  {
    var h' := DoStock(h, b, e, count);
    forall c | c in h'.bins ensures c.cls < CACHED { assert c in h.bins && h.bins[c] == h.bins[c]; }
    forall s ensures LaidShelf(h', s) { assert LaidShelf(h, s); }
    forall r ensures LaidRun(h', r) {
      assert LaidRun(h, r) && h.bins[b] == h.bins[b];
      StockRun(h, b, e, count, r);
    }
  }

  lemma SameLive(h: Heap, h': Heap, r: Run)
    requires h'.ncases == h.ncases && h'.shelves == h.shelves && h'.metas.Keys == h.metas.Keys
    requires r in h.metas ==> h'.metas[r].bin == h.metas[r].bin
    ensures Live(h', r) <==> Live(h, r)
  {
    if r in h.metas { assert Home(h', h'.metas[r].bin) == Home(h, h.metas[r].bin); }
  }

  lemma SpillLaid(h: Heap, c: Cache)
    requires Inv(h) && Laid(h) && CanSpill(h, c)
    ensures Laid(DoSpill(h, c))
  {
    forall r | Live(DoSpill(h, c), r) ensures Live(h, r) && DoSpill(h, c).metas[r] == h.metas[r] {
      SpillParts(h, c, Region(r, 0));
    }
    SameRuns(h, DoSpill(h, c));
  }

  lemma NextLaid(h: Heap, step: Step)
    requires Inv(h) && Laid(h) && Can(h, step)
    ensures Laid(Next(h, step))
  {
    match step
    case Stock(b, e, count) => StockLaid(h, b, e, count);
    case Spill(c) => SpillLaid(h, c);
    case _ => RetokenLaid(h, step);
  }

  /** The other steps change tokens, caches and entries of arena bins. */
  lemma RetokenLaid(h: Heap, step: Step)
    requires Laid(h) && Can(h, step) && !step.Stock? && !step.Spill?
    ensures Laid(Next(h, step))
  {
    var h' := Next(h, step);
    assert forall r | r in h.metas ::
           r in h'.metas && h'.metas[r].bin == h.metas[r].bin && h'.metas[r].count == h.metas[r].count;
    forall r ensures Live(h', r) <==> Live(h, r) { SameLive(h, h', r); }
    SameRuns(h, h');
  }

  /** A new pool: each run bin cuts its extents into runs of its size. */
  lemma NewPoolLaid(h: Heap)
    requires Init(h) && forall b {:trigger h.bins[b]} | b in h.bins :: b.cls < CACHED
    requires forall s {:trigger h.shelves[s]} | s in h.shelves ::
               s.rbid < RUN_TYPES && h.shelves[s].count == EXTENT_SIZE / RunSize(s.rbid)
    ensures Inv(h) && Laid(h)
  {
    InitInv(h);
    forall s ensures LaidShelf(h, s) {
      if s in h.shelves { assert h.shelves[s].count > 1; RunsPerExtent(s.rbid); }
    }
  }

  lemma {:induction false} TraceLaid(hs: seq<Heap>, steps: seq<Step>, n: nat)
    requires Trace(hs, steps) && Inv(hs[0]) && Laid(hs[0]) && n <= |steps|
    ensures Inv(hs[n]) && Laid(hs[n])
  {
    if n > 0 {
      TraceLaid(hs, steps, n - 1);
      assert Can(hs[n - 1], steps[n - 1]) && hs[n - 1 + 1] == Next(hs[n - 1], steps[n - 1]);
      NextLaid(hs[n - 1], steps[n - 1]);
      NextInv(hs[n - 1], steps[n - 1]);
    }
  }

  // Bytes

  function SizeOf(m: Meta): nat {
    ToSize(m.bin.cls)
  }

  function RunBytes(m: Meta): nat {
    RunSize(RunType(m.bin.cls))
  }

  /** First byte of a run; extents are aligned to their size. */
  function RunStart(r: Run, m: Meta): nat {
    r.ext * EXTENT_SIZE + r.rid * RunBytes(m)
  }

  /** The address that a region's pointer has. */
  function Address(g: Region, m: Meta): int {
    if SmallClass(m.bin.cls)
      then SmallRegion(g.run.ext * EXTENT_SIZE, RunBytes(m), g.run.rid, m.count, SizeOf(m), g.ind)
    else MediumRegion(g.run.ext * EXTENT_SIZE, RunBytes(m), g.run.rid, SizeOf(m), g.ind)
  }

  /** What a run of its class is: its regions, and for a small one its metadata and tokens, fit. */
  ghost predicate Cut(m: Meta, runs: nat) {
    && SizeOf(m) > 0 && runs * RunBytes(m) == EXTENT_SIZE
    && if SmallClass(m.bin.cls) then Total(m.count, SizeOf(m)) <= RunBytes(m) else m.count * SizeOf(m) <= RunBytes(m)
  }

  /** A handed-out region is one of its run's, and its run one of its extent's. */
  lemma InRun(h: Heap, g: Region)
    requires Inv(h) && Laid(h) && Allocated(h, g)
    ensures var m := h.metas[g.run]; var s := Home(h, m.bin);
            s in h.shelves && g.ind < m.count && g.run.rid < h.shelves[s].count && Cut(m, h.shelves[s].count)
  {
    var m := h.metas[g.run];
    var s := Home(h, m.bin);
    InRange(h, g);
    assert LaidRun(h, g.run) && LaidShelf(h, s) && Holds(h, s, g.run) && Exact(h.shelves[s]);
    assert g.run.rid in Ones(h.shelves[s].count);
    RunHoldsRegion(m.bin.cls, m.count);
    GroupBound(m.bin.cls);
  }

  /** A region lies within its run, behind the metadata and tokens of a small one. */
  lemma InsideRun(g: Region, m: Meta, runs: nat)
    requires Cut(m, runs) && g.ind < m.count
    ensures RunStart(g.run, m) <= Address(g, m) && Address(g, m) + SizeOf(m) <= RunStart(g.run, m) + RunBytes(m)
    ensures SmallClass(m.bin.cls) ==> RunStart(g.run, m) + SMALL_META + m.count <= Address(g, m)
  {
    if SmallClass(m.bin.cls) {
      SmallPlace(g.run.ext * EXTENT_SIZE, RunBytes(m), g.run.rid, m.count, SizeOf(m), g.ind);
    } else {
      MediumPlace(g.run.ext * EXTENT_SIZE, RunBytes(m), g.run.rid, m.count, SizeOf(m), g.ind);
    }
  }

  lemma SmallPlace(ext: nat, rsize: nat, rid: nat, count: nat, size: nat, i: nat)
    requires Total(count, size) <= rsize && i < count && size > 0
    ensures var p := SmallRegion(ext, rsize, rid, count, size, i);
            ext + rid * rsize + SMALL_META + count <= p && p + size <= ext + rid * rsize + rsize
  {
    SmallRegionInRun(rsize, count, size, i);
  }

  lemma MediumPlace(ext: nat, rsize: nat, rid: nat, count: nat, size: nat, i: nat)
    requires count * size <= rsize && i < count && size > 0
    ensures var p := MediumRegion(ext, rsize, rid, size, i);
            ext + rid * rsize <= p && p + size <= ext + rid * rsize + rsize
  {
    MediumRegionInRun(rsize, count, size, i);
  }

  /** A run lies within its extent. */
  lemma InsideExtent(r: Run, m: Meta, runs: nat)
    requires runs * RunBytes(m) == EXTENT_SIZE && r.rid < runs
    ensures r.ext * EXTENT_SIZE <= RunStart(r, m) && RunStart(r, m) + RunBytes(m) <= (r.ext + 1) * EXTENT_SIZE
  {
    RegionsApart(RunBytes(m), r.rid, runs);
    assert (r.ext + 1) * EXTENT_SIZE == r.ext * EXTENT_SIZE + EXTENT_SIZE;
  }

  /** [a, a + n) and [b, b + k) share no byte. */
  predicate Apart(a: int, n: nat, b: int, k: nat) {
    a + n <= b || b + k <= a
  }

  lemma ApartInRun(g: Region, g': Region, m: Meta)
    requires g.run == g'.run && g.ind != g'.ind
    ensures Apart(Address(g, m), SizeOf(m), Address(g', m), SizeOf(m))
  {
    RegionsApart(SizeOf(m), g.ind, g'.ind);
  }

  lemma RunsApart(r: Run, r': Run, m: Meta, m': Meta, runs: nat, runs': nat)
    requires r != r' && r.rid < runs && r'.rid < runs'
    requires runs * RunBytes(m) == EXTENT_SIZE && runs' * RunBytes(m') == EXTENT_SIZE
    requires r.ext == r'.ext ==> RunBytes(m) == RunBytes(m')
    ensures Apart(RunStart(r, m), RunBytes(m), RunStart(r', m'), RunBytes(m'))
  {
    if r.ext == r'.ext {
      RegionsApart(RunBytes(m), r.rid, r'.rid);
    } else {
      InsideExtent(r, m, runs);
      InsideExtent(r', m', runs');
      RegionsApart(EXTENT_SIZE, r.ext, r'.ext);
    }
  }

  /** Two runs in use of one extent are of one size. */
  lemma OneRunSize(h: Heap, r: Run, r': Run)
    requires Inv(h) && Live(h, r) && Live(h, r') && r.ext == r'.ext
    ensures RunBytes(h.metas[r]) == RunBytes(h.metas[r'])
  {
    var s, s' := Home(h, h.metas[r].bin), Home(h, h.metas[r'].bin);
    assert Holds(h, s, r) && Holds(h, s', r') && OneShelf(h, s, s');
  }

  lemma AllocatedApart(h: Heap, g: Region, g': Region)
    requires Inv(h) && Laid(h) && Allocated(h, g) && Allocated(h, g') && g != g'
    ensures var m, m' := h.metas[g.run], h.metas[g'.run]; Apart(Address(g, m), SizeOf(m), Address(g', m'), SizeOf(m'))
  {
    var m, m' := h.metas[g.run], h.metas[g'.run];
    if g.run == g'.run {
      ApartInRun(g, g', m);
    } else {
      InRun(h, g);
      InRun(h, g');
      var n, n' := h.shelves[Home(h, m.bin)].count, h.shelves[Home(h, m'.bin)].count;
      if g.run.ext == g'.run.ext { OneRunSize(h, g.run, g'.run); }
      RunsApart(g.run, g'.run, m, m', n, n');
      InsideRun(g, m, n);
      InsideRun(g', m', n');
    }
  }

  /** Where the regions of a run begin: a small run's end where the run ends. */
  function RegionsStart(r: Run, m: Meta): int {
    RunStart(r, m) + if SmallClass(m.bin.cls) then RunBytes(m) - m.count * SizeOf(m) else 0
  }

  /** What spill_front and the releases compute from a pointer: extent, run and index. */
  ghost predicate Decodes(g: Region, m: Meta) {
    LeadsTo(Address(g, m), g.run.ext * EXTENT_SIZE, RunBytes(m), g.run.rid, RegionsStart(g.run, m), SizeOf(m), g.ind)
  }

  ghost predicate LeadsTo(p: int, ext: nat, rsize: nat, rid: nat, start: int, size: nat, i: nat) {
    && p >= 0 && RoundDown(p, EXTENT_SIZE) == ext && rsize > 0 && (p - ext) / rsize == rid
    && size > 0 && (p - start) / size == i
  }

  lemma SmallBack(e: nat, rsize: nat, runs: nat, rid: nat, count: nat, size: nat, i: nat)
    requires size > 0 && rsize > 0 && runs * rsize == EXTENT_SIZE && rid < runs && Total(count, size) <= rsize
             && i < count
    ensures var ext := e * EXTENT_SIZE;
            LeadsTo(SmallRegion(ext, rsize, rid, count, size, i), ext, rsize, rid,
                    ext + rid * rsize + (rsize - count * size), size, i)
  {
    Multiple(EXTENT_SIZE, e);
    Commutes(rsize, rid);
    SmallDecodes(e * EXTENT_SIZE, EXTENT_SIZE, runs, rsize, rid, count, size, i);
  }

  lemma MediumBack(e: nat, rsize: nat, runs: nat, rid: nat, count: nat, size: nat, i: nat)
    requires size > 0 && rsize > 0 && runs * rsize == EXTENT_SIZE && rid < runs && count * size <= rsize && i < count
    ensures var ext := e * EXTENT_SIZE;
            LeadsTo(MediumRegion(ext, rsize, rid, size, i), ext, rsize, rid, ext + rid * rsize, size, i)
  {
    Multiple(EXTENT_SIZE, e);
    Commutes(rsize, rid);
    MediumDecodes(e * EXTENT_SIZE, EXTENT_SIZE, runs, rsize, rid, count, size, i);
  }

  lemma CutDecodes(g: Region, m: Meta, runs: nat)
    requires Cut(m, runs) && g.ind < m.count && g.run.rid < runs
    ensures Decodes(g, m)
  {
    if SmallClass(m.bin.cls) {
      SmallCutDecodes(g, m, runs);
    } else {
      MediumBack(g.run.ext, RunBytes(m), runs, g.run.rid, m.count, SizeOf(m), g.ind);
    }
  }

  lemma SmallCutDecodes(g: Region, m: Meta, runs: nat)
    requires Cut(m, runs) && g.ind < m.count && g.run.rid < runs && SmallClass(m.bin.cls)
    ensures Decodes(g, m)
  {
    SmallBack(g.run.ext, RunBytes(m), runs, g.run.rid, m.count, SizeOf(m), g.ind);
  }

  lemma PointerDecodes(h: Heap, g: Region)
    requires Inv(h) && Laid(h) && Allocated(h, g)
    ensures Decodes(g, h.metas[g.run])
  {
    InRun(h, g);
    CutDecodes(g, h.metas[g.run], h.shelves[Home(h, h.metas[g.run].bin)].count);
  }

  lemma Commutes(a: nat, b: nat)
    ensures a * b == b * a
  {
  }

  /**
    In every run of the allocator from a pool in order: no two handed-out regions share a byte, each has
    the bytes of its class, inside its run and clear of the run's metadata.
   */
  lemma NoOverlap(hs: seq<Heap>, steps: seq<Step>, n: nat, g: Region, g': Region)
    requires Trace(hs, steps) && Inv(hs[0]) && Laid(hs[0]) && n <= |steps|
    requires Allocated(hs[n], g) && Allocated(hs[n], g') && g != g'
    ensures var m, m' := hs[n].metas[g.run], hs[n].metas[g'.run];
            && Apart(Address(g, m), SizeOf(m), Address(g', m'), SizeOf(m'))
            && RunStart(g.run, m) <= Address(g, m) && Address(g, m) + SizeOf(m) <= RunStart(g.run, m) + RunBytes(m)
            && (SmallClass(m.bin.cls) ==> RunStart(g.run, m) + SMALL_META + m.count <= Address(g, m))
  {
    TraceLaid(hs, steps, n);
    AllocatedApart(hs[n], g, g');
    InRun(hs[n], g);
    var m := hs[n].metas[g.run];
    InsideRun(g, m, hs[n].shelves[Home(hs[n], m.bin)].count);
  }
}
