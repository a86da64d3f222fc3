/**
  What the hold counts achieve: a bin gives back what became entirely free, but keeps one.
 */
module SlabHold {
  import opened RunBits
  import opened RunBin
  import opened SlabHeap
  import opened SlabHeapProof

  /** At most one run of an arena bin is entirely free. */
  ghost predicate OneIdleRun(h: Heap, b: Bin) {
    b in h.bins ==>
      forall r, x | r in h.bins[b] && x in h.bins[b] && h.bins[b][r] == {} && h.bins[b][x] == {} :: r == x
  }

  /** At most one extent of a run bin has no run in use. */
  ghost predicate OneIdleExtent(s: Shelf) {
    forall e, f | e in s.runs && f in s.runs && s.runs[e] == {} && s.runs[f] == {} :: e == f
  }

  ghost predicate Lean(h: Heap) {
    && (forall b {:trigger OneIdleRun(h, b)} :: OneIdleRun(h, b))
    && (forall s {:trigger h.shelves[s]} | s in h.shelves :: OneIdleExtent(h.shelves[s]))
  }

  // Extents

  /** Taking a run idles no extent; a new extent is taken from at once. */
  lemma ReadyLean(h: Heap, b: Bin, e: Ext, count: nat)
    requires BinInv(h) && Lean(h) && CanStock(h, b, e, count)
    ensures OneIdleExtent(DoStock(h, b, e, count).shelves[Home(h, b)])
  {
    var s, t := h.shelves[Home(h, b)], DoStock(h, b, e, count).shelves[Home(h, b)];
    assert OneIdleExtent(s) && Exact(s);
    assert t.runs[e] != {};
    forall f | f in t.runs && t.runs[f] == {} ensures f in s.runs && s.runs[f] == {} {
      assert f != e;
    }
  }

  lemma GiveLean(s: Shelf, e: Ext, rid: nat)
    requires Exact(s) && OneIdleExtent(s) && e in s.runs && rid in s.runs[e]
    ensures OneIdleExtent(Give(s, e, rid)) && Give(s, e, rid).open != {}
  {
    GiveKeeps(s, e, rid);
    forall f | f in s.runs && f != e && s.runs[f] == {} ensures f in s.open { IdleIsOpen(s, f); }
    GiveHolds(s, e, rid);
    GiveIdle(s, e, rid);
  }

  lemma IdleIsOpen(s: Shelf, f: Ext)
    requires Exact(s) && f in s.runs && s.runs[f] == {}
    ensures f in s.open
  {
    assert 0 in Ones(s.count);
  }

  lemma GiveHolds(s: Shelf, e: Ext, rid: nat)
    requires e in s.runs && (e !in Give(s, e, rid).runs ==> s.open + {e} != {e})
    ensures Give(s, e, rid).open != {}
  {
    if e !in Give(s, e, rid).runs {
      var f :| f in s.open + {e} && f != e;
      assert f in Give(s, e, rid).open;
    } else {
      assert e in Give(s, e, rid).open;
    }
  }

  lemma GiveIdle(s: Shelf, e: Ext, rid: nat)
    requires OneIdleExtent(s) && e in s.runs && rid in s.runs[e]
    requires e !in Give(s, e, rid).runs <==> s.runs[e] == {rid} && s.open + {e} != {e}
    requires forall f | f in s.runs && f != e && s.runs[f] == {} :: f in s.open
    ensures OneIdleExtent(Give(s, e, rid))
  {
    var g := Give(s, e, rid);
    if e in g.runs && g.runs[e] == {} {
      assert s.runs[e] == {rid};
      assert forall f | f in s.runs && f != e :: s.runs[f] != {};
    } else {
      forall f | f in g.runs && g.runs[f] == {} ensures f in s.runs && s.runs[f] == {} {}
    }
  }

  // Runs

  /** A run leaves its bin when its last region came back and the bin has another run. */
  lemma LeavesIff(h: Heap, g: Region)
    requires BinInv(h) && CanGiveBack(h, g) && Allocated(h, g)
    ensures var b := h.metas[g.run].bin;
            RunLeaves(h, g) <==> Taken(h, g.run) == {g.ind} && exists x :: x in h.bins[b] && x != g.run
  {
    var b := h.metas[g.run].bin;
    var bits := BackBits(h, g);
    assert Taken(h, g.run) - {g.ind} == {} <==> Taken(h, g.run) == {g.ind};
    assert g.run in bits.Keys && |bits.Keys - {g.run}| == |bits| - 1;
    if x :| x in h.bins[b] && x != g.run {
      assert x in bits.Keys - {g.run};
    } else {
      assert bits.Keys - {g.run} == {};
    }
  }

  lemma BackLean(h: Heap, g: Region, b: Bin)
    requires BinInv(h) && Lean(h) && CanGiveBack(h, g) && Allocated(h, g)
    ensures OneIdleRun(GiveBack(h, g), b)
  {
    var h', b0 := GiveBack(h, g), h.metas[g.run].bin;
    assert OneIdleRun(h, b);
    LeavesIff(h, g);
    if b == b0 && !RunLeaves(h, g) {
      assert h'.bins[b][g.run] == Taken(h, g.run) - {g.ind};
      if h'.bins[b][g.run] == {} {
        assert Taken(h, g.run) == {g.ind};
        forall x | x in h'.bins[b] ensures x == g.run {}
      }
    }
  }

  /**
    A region that a cache spills: its run leaves its arena bin if and only if it was the last of its
    regions out and the bin has another run, and the bin is left with a run.
   */
  lemma SpillKeepsOne(h: Heap, c: Cache)
    requires Inv(h) && CanSpill(h, c)
    ensures var h', g := DoSpill(h, c), h.caches[c][0]; var b := h.metas[g.run].bin;
            && b in h'.bins && h'.bins[b] != map[]
            && (Live(h', g.run) <==> !(Taken(h, g.run) == {g.ind} && exists x :: x in h.bins[b] && x != g.run))
            && (Live(h', g.run) ==> g.run in h'.bins[b] && h'.bins[b][g.run] == Taken(h, g.run) - {g.ind})
            && (forall x | x in h.bins[b] && x != g.run :: x in h'.bins[b] && h'.bins[b][x] == h.bins[b][x])
  {
    var h', g := DoSpill(h, c), h.caches[c][0];
    var b := h.metas[g.run].bin;
    SpillCan(h, c);
    LeavesIff(h, g);
    BackLive(h, g, g.run);
    assert Live(h', g.run) <==> Live(GiveBack(h, g), g.run);
    if RunLeaves(h, g) {
      var x :| x in h.bins[b] && x != g.run;
      assert x in h'.bins[b];
    } else {
      assert g.run in h'.bins[b];
    }
  }

  lemma SpillLean(h: Heap, c: Cache)
    requires Inv(h) && Lean(h) && CanSpill(h, c)
    ensures Lean(DoSpill(h, c))
  {
    var h', g := DoSpill(h, c), h.caches[c][0];
    SpillCan(h, c);
    forall b ensures OneIdleRun(h', b) {
      BackLean(h, g, b);
      assert h'.bins == GiveBack(h, g).bins;
    }
    forall s | s in h'.shelves ensures OneIdleExtent(h'.shelves[s]) {
      assert OneIdleExtent(h.shelves[s]) && Exact(h.shelves[s]);
      if s == Home(h, h.metas[g.run].bin) { GiveLean(h.shelves[s], g.run.ext, g.run.rid); }
    }
  }

  lemma FillLean(h: Heap, b: Bin, r: Run, c: Cache, restock: nat)
    requires Lean(h) && CanFill(h, b, r, c)
    ensures Lean(DoFill(h, b, r, c, restock))
  {
    var h' := DoFill(h, b, r, c, restock);
    forall d ensures OneIdleRun(h', d) { assert OneIdleRun(h, d); }
    forall s | s in h'.shelves ensures OneIdleExtent(h'.shelves[s]) { assert OneIdleExtent(h.shelves[s]); }
  }

  lemma StockLean(h: Heap, b: Bin, e: Ext, count: nat)
    requires BinInv(h) && Lean(h) && CanStock(h, b, e, count)
    ensures Lean(DoStock(h, b, e, count))
  {
    var h' := DoStock(h, b, e, count);
    forall d ensures OneIdleRun(h', d) { assert OneIdleRun(h, d); }
    forall s | s in h'.shelves ensures OneIdleExtent(h'.shelves[s]) {
      if s == Home(h, b) { ReadyLean(h, b, e, count); } else { assert OneIdleExtent(h.shelves[s]); }
    }
  }

  lemma NextLean(h: Heap, step: Step)
    requires Inv(h) && Lean(h) && Can(h, step)
    ensures Lean(Next(h, step))
  {
    match step
    case Stock(b, e, count) => StockLean(h, b, e, count);
    case Fill(b, r, c, restock) => FillLean(h, b, r, c, restock);
    case Spill(c) => SpillLean(h, c);
    case _ =>
      forall b ensures OneIdleRun(Next(h, step), b) { assert OneIdleRun(h, b); }
  }

  /**
    In every run of the allocator from a new pool, each arena bin holds at most one entirely free run and
    each run bin at most one extent without runs in use.
   */
  lemma {:induction false} StaysLean(hs: seq<Heap>, steps: seq<Step>, n: nat)
    requires Trace(hs, steps) && Init(hs[0]) && n <= |steps|
    ensures Inv(hs[n]) && Lean(hs[n])
  {
    if n == 0 {
      InitInv(hs[0]);
    } else {
      StaysLean(hs, steps, n - 1);
      assert Can(hs[n - 1], steps[n - 1]) && hs[n - 1 + 1] == Next(hs[n - 1], steps[n - 1]);
      NextLean(hs[n - 1], steps[n - 1]);
      NextInv(hs[n - 1], steps[n - 1]);
    }
  }
}
