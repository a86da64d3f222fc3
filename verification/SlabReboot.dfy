/**
  Orderly close and reboot.  The arena bins give back their free runs and mark the half-used ones, the
  run bins record the extents that are still in use, and a reboot reloads what was recorded.
 */
module SlabReboot {
  import opened RunBits
  import opened RunBin
  import opened SlabHeap
  import opened SlabHeapProof

  // Closing the arena bins

  /** An entry of an arena bin with regions handed out. */
  ghost predicate HalfUsed(h: Heap, r: Run) {
    r in h.metas && h.metas[r].bin in h.bins && r in h.bins[h.metas[r].bin] && h.bins[h.metas[r].bin][r] != {}
  }

  /** An entry of an arena bin with all its regions. */
  ghost predicate Idle(h: Heap, r: Run) {
    r in h.metas && h.metas[r].bin in h.bins && r in h.bins[h.metas[r].bin] && h.bins[h.metas[r].bin][r] == {}
  }

  ghost predicate CanClose(h: Heap, b: Bin, r: Run) {
    b in h.bins && r in h.bins[b] && r in h.metas && h.metas[r].bin == b && Holds(h, Home(h, b), r)
  }

  /** ~ArenaBin on one entry: release a free run, otherwise tell the run bin and mark the run */
  ghost function CloseRun(h: Heap, b: Bin, r: Run): Heap
    requires CanClose(h, b, r)
  {
    var s := Home(h, b);
    var h1 := h.(bins := h.bins[b := h.bins[b] - {r}]);
    if h.bins[b][r] == {} then h1.(shelves := h.shelves[s := Give(h.shelves[s], r.ext, r.rid)])
    else h1.(shelves := h.shelves[s := Inform(h.shelves[s], r.ext)],
      metas := h.metas[r := h.metas[r].(polluted := true)])
  }

  ghost predicate ClosedMeta(h0: Heap, h: Heap, done: set<Run>, r: Run) {
    (r in h.metas <==> r in h0.metas) &&
    (r in h0.metas ==> h.metas[r] == h0.metas[r].(polluted := h0.metas[r].polluted || (r in done && HalfUsed(h0, r))))
  }

  ghost predicate ClosedHolds(h0: Heap, h: Heap, done: set<Run>, s: Slot, r: Run) {
    Holds(h, s, r) <==> Holds(h0, s, r) && !(r in done && Idle(h0, r))
  }

  ghost predicate ClosedBin(h0: Heap, h: Heap, done: set<Run>, b: Bin) {
    (b in h.bins <==> b in h0.bins) && (b in h0.bins ==> h.bins[b] == h0.bins[b] - done)
  }

  ghost predicate ClosedShelf(h0: Heap, h: Heap, s: Slot) {
    (s in h.shelves <==> s in h0.shelves) &&
    (s in h0.shelves ==> Covers(h.shelves[s]) && h.shelves[s].count == h0.shelves[s].count
                         && h.shelves[s].runs.Keys <= h0.shelves[s].runs.Keys)
  }

  ghost predicate Informed(h0: Heap, h: Heap, done: set<Run>, r: Run) {
    r in done && HalfUsed(h0, r) ==> var s := Home(h0, h0.metas[r].bin); s in h.shelves && r.ext in h.shelves[s].open
  }

  /** The entries in `done` were closed. */
  ghost predicate ClosedUpTo(h0: Heap, h: Heap, done: set<Run>) {
    && h.ncases == h0.ncases && h.caches == h0.caches && h.user == h0.user
    && (forall r {:trigger ClosedMeta(h0, h, done, r)} :: ClosedMeta(h0, h, done, r))
    && (forall s, r {:trigger ClosedHolds(h0, h, done, s, r)} :: ClosedHolds(h0, h, done, s, r))
    && (forall b {:trigger ClosedBin(h0, h, done, b)} :: ClosedBin(h0, h, done, b))
    && (forall s {:trigger ClosedShelf(h0, h, s)} :: ClosedShelf(h0, h, s))
    && (forall r {:trigger Informed(h0, h, done, r)} :: Informed(h0, h, done, r))
  }

  lemma CloseStart(h: Heap)
    requires BinInv(h)
    ensures ClosedUpTo(h, h, {})
  {
    forall r ensures ClosedMeta(h, h, {}, r) {}
    forall b ensures ClosedBin(h, h, {}, b) { assert b in h.bins ==> h.bins[b] - {} == h.bins[b]; }
  }

  lemma CanCloseEntry(h0: Heap, h: Heap, done: set<Run>, b: Bin, r: Run)
    requires BinInv(h0) && ClosedUpTo(h0, h, done) && b in h.bins && r in h.bins[b]
    ensures CanClose(h, b, r) && r !in done && b in h0.bins && r in h0.bins[b] && h.bins[b][r] == h0.bins[b][r]
    ensures r in h0.metas && h0.metas[r].bin == b && Home(h, b) == Home(h0, b)
  {
    assert ClosedBin(h0, h, done, b) && EntryOk(h0, b, r) && ClosedMeta(h0, h, done, r);
    assert ClosedHolds(h0, h, done, Home(h0, b), r);
  }

  /** The shelf after one entry was closed. */
  lemma CloseShelfStep(h0: Heap, h: Heap, done: set<Run>, b: Bin, r: Run)
    requires BinInv(h0) && ClosedUpTo(h0, h, done) && CanClose(h, b, r)
    ensures var s := Home(h, b); var t, t' := h.shelves[s], CloseRun(h, b, r).shelves[s];
            && s in h.shelves && Covers(t') && t'.count == t.count && t'.runs.Keys <= t.runs.Keys
            && (forall e, i ::
               e in t'.runs && i in t'.runs[e] <==>
                 e in t.runs && i in t.runs[e] && !(h.bins[b][r] == {} && Run(e, i) == r))
            && (h.bins[b][r] != {} ==> r.ext in t'.open)
            && (forall e | e in t.open && e in t'.runs :: e in t'.open)
            && (forall e | e in t.runs && e !in t'.runs :: e == r.ext && t.runs[e] == {r.rid})
  {
    var s := Home(h, b);
    assert ClosedShelf(h0, h, s);
    GiveKeeps(h.shelves[s], r.ext, r.rid);
    InformKeeps(h.shelves[s], r.ext);
  }

  lemma CloseHoldsStep(h0: Heap, h: Heap, done: set<Run>, b: Bin, r: Run, s: Slot, x: Run)
    requires BinInv(h0) && ClosedUpTo(h0, h, done) && b in h.bins && r in h.bins[b] && CanClose(h, b, r)
    ensures ClosedHolds(h0, CloseRun(h, b, r), done + {r}, s, x)
  {
    CanCloseEntry(h0, h, done, b, r);
    CloseShelfStep(h0, h, done, b, r);
    var h' := CloseRun(h, b, r);
    assert ClosedHolds(h0, h, done, s, x);
    assert Holds(h', s, x) <==> Holds(h, s, x) && !(s == Home(h, b) && h.bins[b][r] == {} && x == r) by {
      assert Run(x.ext, x.rid) == x;
    }
    assert Holds(h0, s, r) ==> Home(h0, h0.metas[r].bin) == s;
  }

  lemma CloseInformStep(h0: Heap, h: Heap, done: set<Run>, b: Bin, r: Run, x: Run)
    requires BinInv(h0) && ClosedUpTo(h0, h, done) && b in h.bins && r in h.bins[b] && CanClose(h, b, r)
    ensures Informed(h0, CloseRun(h, b, r), done + {r}, x)
  {
    CanCloseEntry(h0, h, done, b, r);
    CloseShelfStep(h0, h, done, b, r);
    if x in done && HalfUsed(h0, x) {
      var s := Home(h0, h0.metas[x].bin);
      assert Informed(h0, h, done, x) && EntryOk(h0, h0.metas[x].bin, x) && ClosedHolds(h0, h, done, s, x);
      assert Holds(h, s, x) && x != r;
      assert x.ext == r.ext ==> x.rid != r.rid;
    }
  }

  lemma CloseStep(h0: Heap, h: Heap, done: set<Run>, b: Bin, r: Run)
    requires BinInv(h0) && ClosedUpTo(h0, h, done) && b in h.bins && r in h.bins[b]
    ensures CanClose(h, b, r) && ClosedUpTo(h0, CloseRun(h, b, r), done + {r})
  {
    CanCloseEntry(h0, h, done, b, r);
    CloseShelfStep(h0, h, done, b, r);
    var h', done' := CloseRun(h, b, r), done + {r};
    forall x ensures ClosedMeta(h0, h', done', x) { assert ClosedMeta(h0, h, done, x); }
    forall s, x ensures ClosedHolds(h0, h', done', s, x) { CloseHoldsStep(h0, h, done, b, r, s, x); }
    forall d ensures ClosedBin(h0, h', done', d) { CloseBinStep(h0, h, done, b, r, d); }
    forall s ensures ClosedShelf(h0, h', s) { assert ClosedShelf(h0, h, s); }
    forall x ensures Informed(h0, h', done', x) { CloseInformStep(h0, h, done, b, r, x); }
  }

  lemma CloseBinStep(h0: Heap, h: Heap, done: set<Run>, b: Bin, r: Run, d: Bin)
    requires BinInv(h0) && ClosedUpTo(h0, h, done) && b in h.bins && r in h.bins[b] && CanClose(h, b, r)
    ensures ClosedBin(h0, CloseRun(h, b, r), done + {r}, d)
  {
    assert ClosedBin(h0, h, done, d) && EntryOk(h0, d, r);
    CanCloseEntry(h0, h, done, b, r);
    if d in h0.bins {
      assert d != b ==> r !in h0.bins[d];
      assert CloseRun(h, b, r).bins[d] == h0.bins[d] - (done + {r});
    }
  }

  // Closing the run bins

  /** ~RunBin: an extent in the bin is recorded if a run of it is in use, and released otherwise */
  function Settle(s: Shelf): Shelf
    requires s.open <= s.runs.Keys
  {
    Shelf(s.count,
          map e | e in s.runs && !(e in s.open && s.runs[e] == {}) :: s.runs[e],
          set e | e in s.open && s.runs[e] != {})
  }

  ghost predicate SettledShelf(h: Heap, h': Heap, s: Slot) {
    (s in h'.shelves <==> s in h.shelves) &&
    (s in h.shelves ==> h.shelves[s].open <= h.shelves[s].runs.Keys && h'.shelves[s] == Settle(h.shelves[s]))
  }

  ghost predicate Settled(h: Heap, h': Heap) {
    h' == h.(shelves := h'.shelves) && forall s {:trigger SettledShelf(h, h', s)} :: SettledShelf(h, h', s)
  }

  /** The pool as an orderly close of h0 leaves it: empty bins, and the recorded extents as the open ones. */
  ghost predicate Closed(h0: Heap, h: Heap) {
    exists a, done :: ClosedUpTo(h0, a, done) && Emptied(a) && Settled(a, h)
  }

  ghost predicate Emptied(h: Heap) {
    forall b {:trigger h.bins[b]} | b in h.bins :: h.bins[b] == map[]
  }

  /** What a close leaves of a run, its mark, and its extent's record. */
  lemma ClosedRun(h0: Heap, h: Heap, r: Run)
    requires BinInv(h0) && Closed(h0, h)
    ensures h.ncases == h0.ncases && h.user == h0.user && h.caches == h0.caches && h.bins.Keys == h0.bins.Keys
            && Emptied(h)
    ensures r in h.metas <==> r in h0.metas
    ensures r in h.metas ==>
            h.metas[r] == h0.metas[r].(polluted := h.metas[r].polluted)
              && Home(h, h.metas[r].bin) == Home(h0, h0.metas[r].bin)
    ensures forall s :: Holds(h, s, r) <==> Holds(h0, s, r) && !Idle(h0, r)
    ensures Live(h, r) <==> Live(h0, r) && !Idle(h0, r)
    ensures Live(h, r) ==> (h.metas[r].polluted <==> HalfUsed(h0, r))
    ensures Live(h, r) && HalfUsed(h0, r) ==>
              var s := Home(h, h.metas[r].bin);
              s in h.shelves && r.ext in h.shelves[s].open
  {
    var a, done :| ClosedUpTo(h0, a, done) && Emptied(a) && Settled(a, h);
    assert ClosedMeta(h0, a, done, r) && Informed(h0, a, done, r) && RunOk(h0, r);
    assert forall b | b in h0.bins :: ClosedBin(h0, a, done, b);
    if HalfUsed(h0, r) || Idle(h0, r) {
      var b := h0.metas[r].bin;
      assert ClosedBin(h0, a, done, b) && a.bins[b] == map[];
      var left := h0.bins[b] - done;
      assert r !in done ==> r in left;
    }
    forall s ensures Holds(h, s, r) <==> Holds(h0, s, r) && !Idle(h0, r) {
      assert ClosedHolds(h0, a, done, s, r) && SettledShelf(a, h, s);
    }
    if r in h.metas {
      assert Holds(h, Home(h, h.metas[r].bin), r) <==> Holds(h0, Home(h0, h0.metas[r].bin), r) && !Idle(h0, r);
    }
    if Live(h, r) && HalfUsed(h0, r) {
      assert SettledShelf(a, h, Home(h, h.metas[r].bin));
    }
    assert h.bins.Keys == h0.bins.Keys by {
      forall b ensures b in h.bins <==> b in h0.bins { assert ClosedBin(h0, a, done, b); }
    }
  }

  /** An extent that is not recorded has all its runs in use. */
  lemma ClosedShelfIs(h0: Heap, h: Heap, s: Slot)
    requires BinInv(h0) && Closed(h0, h)
    ensures s in h.shelves <==> s in h0.shelves
    ensures s in h.shelves ==> var t := h.shelves[s];
              && t.count == h0.shelves[s].count && t.count > 1 && t.open <= t.runs.Keys
              && t.runs.Keys <= h0.shelves[s].runs.Keys
              && forall e | e in t.runs :: t.runs[e] <= Ones(t.count) && (e !in t.open ==> t.runs[e] == Ones(t.count))
  {
    var a, done :| ClosedUpTo(h0, a, done) && Emptied(a) && Settled(a, h);
    assert ClosedShelf(h0, a, s) && SettledShelf(a, h, s);
  }

  // Reboot

  /** A run that the reboot reloads into its arena bin. */
  ghost predicate Wakes(h: Heap, r: Run) {
    Live(h, r) && h.metas[r].polluted
  }

  ghost predicate WokenMeta(h: Heap, h': Heap, done: set<Run>, r: Run) {
    (r in h'.metas <==> r in h.metas) &&
    (r in h.metas ==> h'.metas[r] == if r in done && Wakes(h, r) then h.metas[r].(polluted := false) else h.metas[r])
  }

  ghost predicate WokenBin(h: Heap, h': Heap, done: set<Run>, b: Bin, r: Run) {
    && (b in h'.bins <==> b in h.bins)
    && (b in h'.bins ==> (r in h'.bins[b] <==> r in done && Wakes(h, r) && h.metas[r].bin == b))
    && (b in h'.bins && r in h'.bins[b] ==> h'.bins[b][r] == h.metas[r].busy)
  }

  ghost predicate WokenShelf(h: Heap, h': Heap, exts: set<Ext>, s: Slot) {
    (s in h'.shelves <==> s in h.shelves) &&
    (s in h.shelves ==> var t := h.shelves[s];
      h'.shelves[s] == t.(open := set e | e in t.open && e in exts && e in t.runs
        && LeastFrom(t.runs[e], 0, t.count) != t.count))
  }

  /** The extents in `exts` and the runs in `done` were reloaded. */
  ghost predicate Rebooted(h: Heap, h': Heap, exts: set<Ext>, done: set<Run>) {
    && h'.ncases == h.ncases && h'.user == h.user && h'.caches == h.caches
    && (forall r {:trigger WokenMeta(h, h', done, r)} :: WokenMeta(h, h', done, r))
    && (forall b, r {:trigger WokenBin(h, h', done, b, r)} :: WokenBin(h, h', done, b, r))
    && (forall s {:trigger WokenShelf(h, h', exts, s)} :: WokenShelf(h, h', exts, s))
  }

  /** Everything recorded is reloaded. */
  ghost predicate AllReloaded(h: Heap, exts: set<Ext>, done: set<Run>) {
    && (forall s, e {:trigger e in h.shelves[s].open} | s in h.shelves && e in h.shelves[s].open :: e in exts)
    && (forall s, r {:trigger Holds(h, s, r)} | Holds(h, s, r) && r.ext in h.shelves[s].open :: r in done)
  }

  /** A region of the user that outlives close and reboot: published, or in a run that is handed out entirely. */
  ghost predicate Survives(h0: Heap, g: Region) {
    g in h0.user && g.run in h0.metas && (g.ind in h0.metas[g.run].busy || !HalfUsed(h0, g.run))
  }

  ghost function Reopened(h0: Heap, h': Heap): Heap {
    h'.(user := set g | g in h0.user && Survives(h0, g))
  }

  ghost predicate NoCached(h: Heap) {
    forall c {:trigger h.caches[c]} | c in h.caches :: h.caches[c] == []
  }

  lemma ReopenedRun(h0: Heap, h: Heap, h': Heap, exts: set<Ext>, done: set<Run>, r: Run)
    requires BinInv(h0) && Closed(h0, h) && Rebooted(h, h', exts, done) && AllReloaded(h, exts, done)
    ensures r in h'.metas <==> r in h0.metas
    ensures forall s :: Holds(h', s, r) <==> Holds(h0, s, r) && !Idle(h0, r)
    ensures Live(h', r) <==> Live(h0, r) && !Idle(h0, r)
    ensures Live(h', r) ==> h'.metas[r] == h0.metas[r] && Home(h', h0.metas[r].bin) == Home(h0, h0.metas[r].bin)
    ensures Live(h', r) ==> Taken(h', r) == if HalfUsed(h0, r) then h0.metas[r].busy else Ones(h0.metas[r].count)
    ensures forall b :: b in h'.bins && r in h'.bins[b] <==> Live(h', r) && HalfUsed(h0, r) && h0.metas[r].bin == b
  {
    ClosedRun(h0, h, r);
    assert WokenMeta(h, h', done, r);
    forall s ensures Holds(h', s, r) <==> Holds(h, s, r) { assert WokenShelf(h, h', exts, s); }
    assert r in h.metas ==> h'.metas[r].bin == h.metas[r].bin && Home(h', h.metas[r].bin) == Home(h, h.metas[r].bin);
    assert Live(h', r) <==> Live(h, r);
    if Live(h, r) {
      var b := h.metas[r].bin;
      assert HalfUsed(h0, r) ==> Holds(h, Home(h, b), r) && r in done;
      assert WokenBin(h, h', done, b, r) && RunOk(h0, r);
    }
    forall b ensures b in h'.bins && r in h'.bins[b] <==> Live(h', r) && HalfUsed(h0, r) && h0.metas[r].bin == b {
      assert WokenBin(h, h', done, b, r);
    }
  }

  lemma ReopenedShelf(h0: Heap, h: Heap, h': Heap, exts: set<Ext>, done: set<Run>, s: Slot)
    requires BinInv(h0) && Closed(h0, h) && Rebooted(h, h', exts, done) && AllReloaded(h, exts, done) && s in h'.shelves
    ensures Exact(h'.shelves[s]) && s in h0.shelves && h'.shelves[s].runs.Keys <= h0.shelves[s].runs.Keys
  {
    ClosedShelfIs(h0, h, s);
    assert WokenShelf(h, h', exts, s);
    var t := h.shelves[s];
    forall e | e in t.runs ensures LeastFrom(t.runs[e], 0, t.count) == t.count <==> t.runs[e] == Ones(t.count) {
      var q := LeastFrom(t.runs[e], 0, t.count);
      if q < t.count { assert q in Ones(t.count); }
    }
  }

  /** The tokens of a half-used run do not cover it. */
  lemma TokensAreFew(h0: Heap, r: Run)
    requires Inv(h0) && Live(h0, r)
    ensures h0.metas[r].busy <= Taken(h0, r) && (HalfUsed(h0, r) ==> h0.metas[r].busy < Ones(h0.metas[r].count))
  {
    forall i | i in h0.metas[r].busy ensures i in Taken(h0, r) {
      assert TokenOk(h0, r, i) && Allocated(h0, Region(r, i));
    }
    assert EntryOk(h0, h0.metas[r].bin, r);
  }

  lemma ReopenedBins(h0: Heap, h: Heap, h': Heap, exts: set<Ext>, done: set<Run>)
    requires Inv(h0) && Closed(h0, h) && Rebooted(h, h', exts, done) && AllReloaded(h, exts, done)
    ensures BinInv(h')
  {
    forall s | s in h'.shelves ensures Exact(h'.shelves[s]) { ReopenedShelf(h0, h, h', exts, done, s); }
    forall s, t ensures OneShelf(h', s, t) {
      assert OneShelf(h0, s, t);
      if s in h'.shelves { ReopenedShelf(h0, h, h', exts, done, s); }
      if t in h'.shelves { ReopenedShelf(h0, h, h', exts, done, t); }
    }
    forall s, r | Holds(h', s, r) ensures r in h'.metas && Home(h', h'.metas[r].bin) == s {
      ReopenedRun(h0, h, h', exts, done, r);
      assert Holds(h0, s, r) && Live(h0, r);
    }
    forall r ensures RunOk(h', r) {
      ReopenedRun(h0, h, h', exts, done, r);
      assert RunOk(h0, r);
      if Live(h', r) { assert WokenBin(h, h', done, h0.metas[r].bin, r); ClosedRun(h0, h, r); }
    }
    forall b, r ensures EntryOk(h', b, r) {
      ReopenedRun(h0, h, h', exts, done, r);
      if b in h'.bins && r in h'.bins[b] { TokensAreFew(h0, r); }
    }
    forall b | b in h'.bins ensures Home(h', b) in h'.shelves { ReopenedHome(h0, h, h', exts, done, b); }
  }

  lemma ReopenedHome(h0: Heap, h: Heap, h': Heap, exts: set<Ext>, done: set<Run>, b: Bin)
    requires Inv(h0) && Closed(h0, h) && Rebooted(h, h', exts, done) && b in h'.bins
    ensures Home(h', b) in h'.shelves
  {
    var r := Run(0, 0);
    ClosedRun(h0, h, r);
    assert WokenBin(h, h', done, b, r) && Home(h', b) == Home(h0, b) && Home(h0, b) in h0.shelves;
    ClosedShelfIs(h0, h, Home(h0, b));
    assert WokenShelf(h, h', exts, Home(h0, b));
  }

  /** What is handed out after the reboot. */
  lemma ReopenedAllocated(h0: Heap, h: Heap, h': Heap, exts: set<Ext>, done: set<Run>, g: Region)
    requires Inv(h0) && NoCached(h0) && Closed(h0, h) && Rebooted(h, h', exts, done) && AllReloaded(h, exts, done)
    ensures Allocated(h', g) <==> Survives(h0, g)
  {
    ReopenedRun(h0, h, h', exts, done, g.run);
    assert Accounted(h0, g) && TokenOk(h0, g.run, g.ind) && Region(g.run, g.ind) == g;
    assert g in h0.user ==> Allocated(h0, g);
    assert forall c :: !InCache(h0, g, c);
    if Live(h0, g.run) { TokensAreFew(h0, g.run); }
  }

  /** Close and reboot bring back a pool in order, with exactly the surviving regions handed out. */
  lemma ReopenInv(h0: Heap, h: Heap, h': Heap, exts: set<Ext>, done: set<Run>)
    requires Inv(h0) && NoCached(h0) && Closed(h0, h) && Rebooted(h, h', exts, done) && AllReloaded(h, exts, done)
    ensures Inv(Reopened(h0, h'))
    ensures forall g :: Allocated(Reopened(h0, h'), g) <==> Survives(h0, g)
  {
    var k := Reopened(h0, h');
    ReopenedBins(h0, h, h', exts, done);
    SameBins(h', k);
    forall g ensures Allocated(k, g) <==> Survives(h0, g) { ReopenedAllocated(h0, h, h', exts, done, g); }
    ClosedRun(h0, h, Run(0, 0));
    forall c, g ensures !InCache(k, g, c) { assert c in h0.caches ==> h0.caches[c] == []; }
    forall c ensures OnceIn(k, c) { assert c in h0.caches ==> h0.caches[c] == []; }
    forall r, i ensures TokenOk(k, r, i) {
      ReopenedRun(h0, h, h', exts, done, r);
      assert TokenOk(h0, r, i);
    }
  }

  /** The user holds every region of the run. */
  ghost predicate WhollyHeld(h: Heap, r: Run) {
    r in h.metas && forall i: nat {:trigger Region(r, i)} | i < h.metas[r].count :: Region(r, i) in h.user
  }

  lemma HalfUsedIff(h0: Heap, g: Region)
    requires Inv(h0) && NoCached(h0) && g in h0.user
    ensures g.run in h0.metas && (HalfUsed(h0, g.run) <==> !WhollyHeld(h0, g.run))
  {
    assert Allocated(h0, g);
    var r := g.run;
    forall i: nat ensures i in Taken(h0, r) <==> Region(r, i) in h0.user {
      assert Accounted(h0, Region(r, i)) && forall c :: !InCache(h0, Region(r, i), c);
      assert Region(r, i) in h0.user ==> Allocated(h0, Region(r, i));
    }
    assert RunOk(h0, r);
    var m := h0.metas[r];
    if HalfUsed(h0, r) {
      assert EntryOk(h0, m.bin, r);
      var i :| i in Ones(m.count) && i !in Taken(h0, r);
      assert Region(r, i) !in h0.user;
    }
  }

  /**
    Close and reboot preserve the regions the user had before the close if and only if each of them was
    published or its run is held by the user entirely.
   */
  lemma RebootPreservesIff(pre: Heap, h0: Heap, h: Heap, h': Heap, exts: set<Ext>, done: set<Run>)
    requires Inv(h0) && NoCached(h0) && h0.user == pre.user && h0.metas == pre.metas
    requires Closed(h0, h) && Rebooted(h, h', exts, done) && AllReloaded(h, exts, done)
    ensures (forall g :: Allocated(Reopened(h0, h'), g) <==> g in pre.user)
       <==> (forall g | g in pre.user ::
         g.run in pre.metas && (g.ind in pre.metas[g.run].busy || WhollyHeld(pre, g.run)))
  {
    ReopenInv(h0, h, h', exts, done);
    forall g | g in h0.user
      ensures g.run in pre.metas && (Survives(h0, g) <==> g.ind in pre.metas[g.run].busy || WhollyHeld(pre, g.run))
    {
      HalfUsedIff(h0, g);
    }
  }

  // One step of each loop

  /** Every run in use has metadata of its own run bin, and every extent is in one run bin. */
  ghost predicate Filed(h: Heap) {
    && Emptied(h)
    && (forall s, r {:trigger Holds(h, s, r)} | Holds(h, s, r) ::
          r in h.metas && Home(h, h.metas[r].bin) == s && h.metas[r].bin in h.bins)
    && (forall s, t {:trigger OneShelf(h, s, t)} :: OneShelf(h, s, t))
    && (forall s {:trigger h.shelves[s]} | s in h.shelves :: h.shelves[s].open <= h.shelves[s].runs.Keys)
  }

  lemma ClosedFiled(h0: Heap, h: Heap)
    requires BinInv(h0) && Closed(h0, h)
    ensures Filed(h)
  {
    ClosedRun(h0, h, Run(0, 0));
    forall s, r | Holds(h, s, r) ensures r in h.metas && Home(h, h.metas[r].bin) == s && h.metas[r].bin in h.bins {
      ClosedRun(h0, h, r);
      assert Holds(h0, s, r) && RunOk(h0, r);
    }
    forall s, t ensures OneShelf(h, s, t) {
      assert OneShelf(h0, s, t);
      ClosedShelfIs(h0, h, s);
      ClosedShelfIs(h0, h, t);
    }
    forall s | s in h.shelves ensures h.shelves[s].open <= h.shelves[s].runs.Keys { ClosedShelfIs(h0, h, s); }
  }

  /** A run's turn in the reboot of its extent. */
  function WakeRun(h: Heap, r: Run): Heap
    requires r in h.metas && h.metas[r].bin in h.bins
  {
    var m := h.metas[r];
    h.(bins := h.bins[m.bin := h.bins[m.bin][r := m.busy]], metas := h.metas[r := m.(polluted := false)])
  }

  lemma WakeStep(h: Heap, h': Heap, exts: set<Ext>, done: set<Run>, s: Slot, r: Run)
    requires Filed(h) && Rebooted(h, h', exts, done) && Holds(h', s, r)
    ensures r in h'.metas && h'.metas[r].bin in h'.bins
    ensures Rebooted(h, if h'.metas[r].polluted then WakeRun(h', r) else h', exts, done + {r})
  {
    assert WokenShelf(h, h', exts, s) && Holds(h, s, r);
    assert WokenMeta(h, h', done, r) && WokenBin(h, h', done, h.metas[r].bin, r);
    var k := if h'.metas[r].polluted then WakeRun(h', r) else h';
    forall x ensures WokenMeta(h, k, done + {r}, x) { assert WokenMeta(h, h', done, x); }
    forall b, x ensures WokenBin(h, k, done + {r}, b, x) { assert WokenBin(h, h', done, b, x); }
    forall t ensures WokenShelf(h, k, exts, t) { assert WokenShelf(h, h', exts, t); }
  }

  /** A run that is not in use has nothing to reload. */
  lemma SkipStep(h: Heap, h': Heap, exts: set<Ext>, done: set<Run>, s: Slot, r: Run)
    requires Filed(h) && Rebooted(h, h', exts, done) && s in h.shelves && r.ext in h.shelves[s].runs && !Holds(h', s, r)
    ensures Rebooted(h, h', exts, done + {r})
  {
    assert WokenShelf(h, h', exts, s);
    assert r in h.metas ==> OneShelf(h, s, Home(h, h.metas[r].bin));
    forall x ensures WokenMeta(h, h', done + {r}, x) { assert WokenMeta(h, h', done, x); }
    forall b, x ensures WokenBin(h, h', done + {r}, b, x) { assert WokenBin(h, h', done, b, x); }
  }

  lemma ReloadStep(h: Heap, h': Heap, exts: set<Ext>, done: set<Run>, s: Slot, e: Ext)
    requires Filed(h) && Rebooted(h, h', exts, done) && s in h.shelves && e in h.shelves[s].open && e !in exts
    ensures s in h'.shelves && e in h'.shelves[s].runs && h'.shelves[s].runs[e] == h.shelves[s].runs[e]
    ensures Rebooted(h, h'.(shelves := h'.shelves[s := Reloaded(h'.shelves[s], e, h'.shelves[s].runs[e])]),
            exts + {e}, done)
  {
    assert WokenShelf(h, h', exts, s);
    var k := h'.(shelves := h'.shelves[s := Reloaded(h'.shelves[s], e, h'.shelves[s].runs[e])]);
    forall r ensures WokenMeta(h, k, done, r) { assert WokenMeta(h, h', done, r); }
    forall b, r ensures WokenBin(h, k, done, b, r) { assert WokenBin(h, h', done, b, r); }
    forall t ensures WokenShelf(h, k, exts + {e}, t) {
      assert WokenShelf(h, h', exts, t) && OneShelf(h, s, t);
      if t == s { assert k.shelves[s].runs == h.shelves[s].runs; }
    }
  }
}
