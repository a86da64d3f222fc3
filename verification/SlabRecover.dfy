/**
  The allocator's rebuild after a crash: every allocated extent is reloaded into its run bin, every run
  in use that has a free token into its arena bin, and the regions with a busy token are visited.
 */
module SlabRecover {
  import opened RunBits
  import opened RunBin
  import opened SlabHeap
  import opened SlabHeapProof
  import opened SlabReboot
  import opened SlabAllocator

  /** What a crash leaves: bitmaps and metadata that belong together, any tokens, and nothing volatile. */
  ghost predicate Image(h: Heap) {
    && Emptied(h) && NoCached(h)
    && (forall s {:trigger h.shelves[s]} | s in h.shelves ::
          && h.shelves[s].open == {} && h.shelves[s].count > 1
          && forall e {:trigger h.shelves[s].runs[e]} | e in h.shelves[s].runs ::
             h.shelves[s].runs[e] <= Ones(h.shelves[s].count))
    && (forall s, t {:trigger OneShelf(h, s, t)} :: OneShelf(h, s, t))
    && (forall s, r {:trigger Holds(h, s, r)} | Holds(h, s, r) ::
       r in h.metas && Home(h, h.metas[r].bin) == s && Sound(h, h.metas[r]))
    && (forall b {:trigger Home(h, b)} | b in h.bins :: Home(h, b) in h.shelves)
  }

  ghost predicate Sound(h: Heap, m: Meta) {
    m.bin in h.bins && m.count >= 1 && m.busy <= Ones(m.count)
  }

  ghost predicate RecoveredMeta(h: Heap, h': Heap, done: set<Run>, r: Run) {
    (r in h'.metas <==> r in h.metas) &&
    (r in h.metas ==> h'.metas[r] == if r in done && Live(h, r) then h.metas[r].(polluted := false) else h.metas[r])
  }

  ghost predicate RecoveredBin(h: Heap, h': Heap, done: set<Run>, b: Bin, r: Run) {
    && (b in h'.bins <==> b in h.bins)
    && (b in h'.bins ==>
          (r in h'.bins[b] <==>
            r in done && Live(h, r) && h.metas[r].bin == b && h.metas[r].busy != Ones(h.metas[r].count)))
    && (b in h'.bins && r in h'.bins[b] ==> h'.bins[b][r] == h.metas[r].busy)
  }

  ghost predicate RecoveredShelf(h: Heap, h': Heap, exts: set<Ext>, s: Slot) {
    (s in h'.shelves <==> s in h.shelves) &&
    (s in h.shelves ==> var t := h.shelves[s];
      h'.shelves[s] == t.(open := set e | e in t.runs && e in exts && LeastFrom(t.runs[e], 0, t.count) != t.count))
  }

  /** The extents in `exts` and the runs in `done` were recovered. */
  ghost predicate RecoveredUpTo(h: Heap, h': Heap, exts: set<Ext>, done: set<Run>) {
    && h'.ncases == h.ncases && h'.caches == h.caches
    && (forall r {:trigger RecoveredMeta(h, h', done, r)} :: RecoveredMeta(h, h', done, r))
    && (forall b, r {:trigger RecoveredBin(h, h', done, b, r)} :: RecoveredBin(h, h', done, b, r))
    && (forall s {:trigger RecoveredShelf(h, h', exts, s)} :: RecoveredShelf(h, h', exts, s))
  }

  ghost predicate Published(h: Heap, g: Region) {
    Live(h, g.run) && g.ind in h.metas[g.run].busy
  }

  /** The published regions of the runs in `done`, each once. */
  ghost predicate Visited(h: Heap, done: set<Run>, visits: seq<Region>) {
    && (forall g {:trigger g in visits} :: g in visits <==> g.run in done && Published(h, g))
    && forall i, j | 0 <= i < j < |visits| :: visits[i] != visits[j]
  }

  ghost predicate AllRecovered(h: Heap, exts: set<Ext>, done: set<Run>) {
    && (forall s {:trigger h.shelves[s]} | s in h.shelves :: h.shelves[s].runs.Keys <= exts)
    && (forall s, r {:trigger Holds(h, s, r)} | Holds(h, s, r) :: r in done)
  }

  // What the rebuilt allocator is

  lemma RecoveredRun(h: Heap, h': Heap, exts: set<Ext>, done: set<Run>, r: Run)
    requires Image(h) && RecoveredUpTo(h, h', exts, done) && AllRecovered(h, exts, done)
    ensures forall s :: Holds(h', s, r) <==> Holds(h, s, r)
    ensures Live(h', r) <==> Live(h, r)
    ensures Live(h, r) ==> h'.metas[r] == h.metas[r].(polluted := false) && Taken(h', r) == h.metas[r].busy
    ensures Live(h, r) ==> Home(h', h.metas[r].bin) == Home(h, h.metas[r].bin) && Sound(h', h.metas[r])
    ensures forall b ::
            b in h'.bins && r in h'.bins[b] <==>
              Live(h, r) && h.metas[r].bin == b && h.metas[r].busy != Ones(h.metas[r].count)
  {
    assert RecoveredMeta(h, h', done, r);
    forall s ensures Holds(h', s, r) <==> Holds(h, s, r) { assert RecoveredShelf(h, h', exts, s); }
    assert r in h.metas ==> h'.metas[r].bin == h.metas[r].bin && Home(h', h.metas[r].bin) == Home(h, h.metas[r].bin);
    if Live(h, r) {
      assert Holds(h, Home(h, h.metas[r].bin), r) && r in done;
      assert RecoveredBin(h, h', done, h.metas[r].bin, r);
    }
    forall b
      ensures b in h'.bins && r in h'.bins[b] <==>
              Live(h, r) && h.metas[r].bin == b && h.metas[r].busy != Ones(h.metas[r].count)
    {
      assert RecoveredBin(h, h', done, b, r);
    }
  }

  lemma RecoveredExact(h: Heap, h': Heap, exts: set<Ext>, done: set<Run>, s: Slot)
    requires Image(h) && RecoveredUpTo(h, h', exts, done) && AllRecovered(h, exts, done) && s in h'.shelves
    ensures Exact(h'.shelves[s]) && s in h.shelves && h'.shelves[s].runs == h.shelves[s].runs
  {
    assert RecoveredShelf(h, h', exts, s);
    var t := h.shelves[s];
    forall e | e in t.runs ensures LeastFrom(t.runs[e], 0, t.count) == t.count <==> t.runs[e] == Ones(t.count) {
      var q := LeastFrom(t.runs[e], 0, t.count);
      if q < t.count { assert q in Ones(t.count); }
    }
  }

  lemma RecoveredBins(h: Heap, h': Heap, exts: set<Ext>, done: set<Run>)
    requires Image(h) && RecoveredUpTo(h, h', exts, done) && AllRecovered(h, exts, done)
    ensures BinInv(h')
  {
    forall s | s in h'.shelves ensures Exact(h'.shelves[s]) { RecoveredExact(h, h', exts, done, s); }
    forall s, t ensures OneShelf(h', s, t) {
      assert OneShelf(h, s, t) && RecoveredShelf(h, h', exts, s) && RecoveredShelf(h, h', exts, t);
    }
    forall s, r | Holds(h', s, r) ensures r in h'.metas && Home(h', h'.metas[r].bin) == s {
      RecoveredRun(h, h', exts, done, r);
      assert Holds(h, s, r);
    }
    forall r ensures RunOk(h', r) {
      RecoveredRun(h, h', exts, done, r);
    }
    forall b, r ensures EntryOk(h', b, r) {
      RecoveredRun(h, h', exts, done, r);
    }
    forall b | b in h'.bins ensures Home(h', b) in h'.shelves {
      assert RecoveredBin(h, h', done, b, Run(0, 0)) && Home(h', b) == Home(h, b) && Home(h, b) in h.shelves;
      assert RecoveredShelf(h, h', exts, Home(h, b));
    }
  }

  /** After the rebuild the allocator is in order and hands out exactly the published regions. */
  lemma RecoverInv(h: Heap, h': Heap, exts: set<Ext>, done: set<Run>, user: set<Region>)
    requires Image(h) && RecoveredUpTo(h, h', exts, done) && AllRecovered(h, exts, done)
    requires forall g :: g in user <==> Published(h, g)
    ensures Inv(h'.(user := user)) && forall g :: Allocated(h'.(user := user), g) <==> Published(h, g)
  {
    var k := h'.(user := user);
    RecoveredBins(h, h', exts, done);
    SameBins(h', k);
    forall g ensures Allocated(k, g) <==> Published(h, g) { RecoveredRun(h, h', exts, done, g.run); }
    forall c, g ensures !InCache(k, g, c) { assert c in h.caches ==> h.caches[c] == []; }
    forall c ensures OnceIn(k, c) { assert c in h.caches ==> h.caches[c] == []; }
    forall r, i ensures TokenOk(k, r, i) { RecoveredRun(h, h', exts, done, r); }
  }

  /** The rebuild leaves bitmaps and metadata of the runs in use as the crash left them, less the marks. */
  ghost predicate Rebuilt(h: Heap, h': Heap) {
    && h'.ncases == h.ncases && h'.shelves.Keys == h.shelves.Keys
    && (forall s {:trigger h'.shelves[s]} | s in h.shelves :: h'.shelves[s].runs == h.shelves[s].runs)
    && (forall r {:trigger h'.metas[r]} | Live(h, r) :: r in h'.metas && h'.metas[r] == h.metas[r].(polluted := false))
  }

  lemma IsRebuilt(h: Heap, h': Heap, exts: set<Ext>, done: set<Run>, user: set<Region>)
    requires Image(h) && RecoveredUpTo(h, h', exts, done) && AllRecovered(h, exts, done)
    ensures Rebuilt(h, h'.(user := user))
  {
    forall s ensures s in h'.shelves <==> s in h.shelves { assert RecoveredShelf(h, h', exts, s); }
    forall s | s in h.shelves ensures h'.shelves[s].runs == h.shelves[s].runs { assert RecoveredShelf(h, h', exts, s); }
    forall r | Live(h, r) ensures r in h'.metas && h'.metas[r] == h.metas[r].(polluted := false) {
      RecoveredRun(h, h', exts, done, r);
    }
  }

  // One step of each loop

  ghost function RecoverRun(h: Heap, r: Run): Heap
    requires r in h.metas && h.metas[r].bin in h.bins
  {
    var m := h.metas[r];
    h.(bins := if m.busy != Ones(m.count) then h.bins[m.bin := h.bins[m.bin][r := m.busy]] else h.bins,
       metas := h.metas[r := m.(polluted := false)])
  }

  lemma RecoverStep(h: Heap, h': Heap, exts: set<Ext>, done: set<Run>, s: Slot, r: Run)
    requires Image(h) && RecoveredUpTo(h, h', exts, done) && Holds(h', s, r) && r !in done
    ensures Live(h, r) && r in h'.metas && h'.metas[r] == h.metas[r]
    ensures h'.metas[r].bin in h'.bins && h'.metas[r].busy <= Ones(h'.metas[r].count)
    ensures RecoveredUpTo(h, RecoverRun(h', r), exts, done + {r})
  {
    assert RecoveredShelf(h, h', exts, s) && Holds(h, s, r);
    assert RecoveredMeta(h, h', done, r) && RecoveredBin(h, h', done, h.metas[r].bin, r);
    var k := RecoverRun(h', r);
    forall x ensures RecoveredMeta(h, k, done + {r}, x) { assert RecoveredMeta(h, h', done, x); }
    forall b, x ensures RecoveredBin(h, k, done + {r}, b, x) { assert RecoveredBin(h, h', done, b, x); }
    forall t ensures RecoveredShelf(h, k, exts, t) { assert RecoveredShelf(h, h', exts, t); }
  }

  /** A run that is not in use is passed over. */
  lemma PassOver(h: Heap, h': Heap, exts: set<Ext>, done: set<Run>, s: Slot, r: Run)
    requires Image(h) && RecoveredUpTo(h, h', exts, done) && s in h.shelves && r.ext in h.shelves[s].runs
             && !Holds(h', s, r)
    ensures RecoveredUpTo(h, h', exts, done + {r}) && !Live(h, r)
  {
    assert RecoveredShelf(h, h', exts, s);
    assert r in h.metas ==> OneShelf(h, s, Home(h, h.metas[r].bin));
    forall x ensures RecoveredMeta(h, h', done + {r}, x) { assert RecoveredMeta(h, h', done, x); }
    forall b, x ensures RecoveredBin(h, h', done + {r}, b, x) { assert RecoveredBin(h, h', done, b, x); }
  }

  lemma LoadStep(h: Heap, h': Heap, exts: set<Ext>, done: set<Run>, s: Slot, e: Ext)
    requires Image(h) && RecoveredUpTo(h, h', exts, done) && s in h.shelves && e in h.shelves[s].runs && e !in exts
    ensures s in h'.shelves && e in h'.shelves[s].runs && h'.shelves[s].runs[e] == h.shelves[s].runs[e]
            && h'.shelves[s].count == h.shelves[s].count
    ensures RecoveredUpTo(h, h'.(shelves := h'.shelves[s := Reloaded(h'.shelves[s], e, h'.shelves[s].runs[e])]),
            exts + {e}, done)
  {
    assert RecoveredShelf(h, h', exts, s);
    var k := h'.(shelves := h'.shelves[s := Reloaded(h'.shelves[s], e, h'.shelves[s].runs[e])]);
    forall r ensures RecoveredMeta(h, k, done, r) { assert RecoveredMeta(h, h', done, r); }
    forall b, r ensures RecoveredBin(h, k, done, b, r) { assert RecoveredBin(h, h', done, b, r); }
    forall t ensures RecoveredShelf(h, k, exts + {e}, t) {
      assert RecoveredShelf(h, h', exts, t) && OneShelf(h, s, t);
      if t == s { assert k.shelves[s].runs == h.shelves[s].runs; }
    }
  }

  lemma VisitRun(h: Heap, done: set<Run>, visits: seq<Region>, r: Run, more: seq<Region>)
    requires Visited(h, done, visits) && r !in done
    requires forall g {:trigger g in more} :: g in more <==> g.run == r && Published(h, g)
    requires forall i, j | 0 <= i < j < |more| :: more[i] != more[j]
    ensures Visited(h, done + {r}, visits + more)
  {
    var all := visits + more;
    forall i, j | 0 <= i < j < |all| ensures all[i] != all[j] {
      if i < |visits| <= j { assert all[i] in visits && all[j] in more; }
    }
  }

  /** The regions of a run with a busy token, in order. */
  method BusyRegions(r: Run, m: Meta) returns (regions: seq<Region>)
    ensures forall g :: g in regions <==> g.run == r && g.ind < m.count && g.ind in m.busy
    ensures forall i, j | 0 <= i < j < |regions| :: regions[i].ind < regions[j].ind
  {
    regions := [];
    for ind := 0 to m.count
      invariant forall g :: g in regions <==> g.run == r && g.ind < ind && g.ind in m.busy
      invariant forall i, j | 0 <= i < j < |regions| :: regions[i].ind < regions[j].ind
    {
      if ind in m.busy {
        forall k | 0 <= k < |regions| ensures regions[k].ind < ind { assert regions[k] in regions; }
        regions := regions + [Region(r, ind)];
      }
    }
  }

  /** One run of small_recover and medium_recover; `visits` lists the regions given to the rebuilder */
  method RecoverOne(a: Allocator, s: Slot, r: Run, visits: seq<Region>, ghost h: Heap, ghost exts: set<Ext>,
      ghost done: set<Run>)
    returns (visits': seq<Region>)
    requires Image(h) && RecoveredUpTo(h, a.State(), exts, done) && Visited(h, done, visits)
    requires s in h.shelves && r.ext in h.shelves[s].runs && r !in done
    modifies a`bins, a`metas
    ensures RecoveredUpTo(h, a.State(), exts, done + {r}) && Visited(h, done + {r}, visits')
  {
    assert RecoveredShelf(h, a.State(), exts, s);
    visits' := visits;
    if r.rid in a.shelves[s].runs[r.ext] {
      RecoverStep(h, a.State(), exts, done, s, r);
      var m := a.metas[r];
      var regions := BusyRegions(r, m);
      if m.busy != Ones(m.count) {
        a.bins := a.bins[m.bin := a.bins[m.bin][r := m.busy]];
      }
      a.metas := a.metas[r := m.(polluted := false)];
      visits' := visits + regions;
      VisitRun(h, done, visits, r, regions);
    } else {
      PassOver(h, a.State(), exts, done, s, r);
      VisitRun(h, done, visits, r, []);
      assert visits + [] == visits;
    }
  }

  /** small_recover and medium_recover */
  method RecoverExtent(a: Allocator, s: Slot, e: Ext, visits: seq<Region>, ghost h: Heap, ghost exts: set<Ext>,
      ghost done: set<Run>)
    returns (visits': seq<Region>, ghost done': set<Run>)
    requires Image(h) && RecoveredUpTo(h, a.State(), exts, done) && Visited(h, done, visits)
    requires s in h.shelves && e in h.shelves[s].runs && e !in exts && forall r <- done :: r.ext in exts
    modifies a`bins, a`shelves, a`metas
    ensures RecoveredUpTo(h, a.State(), exts + {e}, done') && Visited(h, done', visits')
    ensures done <= done' && forall r <- done' :: r.ext in exts + {e}
    ensures forall rid: nat | rid < h.shelves[s].count :: Run(e, rid) in done'
  {
    LoadStep(h, a.State(), exts, done, s, e);
    a.shelves := a.shelves[s := Reloaded(a.shelves[s], e, a.shelves[s].runs[e])];
    visits', done' := visits, done;
    for rid := 0 to a.shelves[s].count
      invariant RecoveredUpTo(h, a.State(), exts + {e}, done') && Visited(h, done', visits') && done <= done'
      invariant forall r <- done' :: r.ext in exts || (r.ext == e && r.rid < rid)
      invariant forall i: nat | i < rid :: Run(e, i) in done'
    {
      visits' := RecoverOne(a, s, Run(e, rid), visits', h, exts + {e}, done');
      done' := done' + {Run(e, rid)};
    }
  }

  /** All runs of these extents were looked at. */
  ghost predicate WholeExtents(exts: set<Ext>, count: nat, done: set<Run>) {
    forall e, rid: nat {:trigger Run(e, rid)} | e in exts && rid < count :: Run(e, rid) in done
  }

  /** A shelf under way: `todo` are the extents left, `exts` and `done` have grown from exts0 and done0. */
  ghost predicate ShelfScan(h: Heap, s: Slot, todo: set<Ext>, exts0: set<Ext>, done0: set<Run>, exts: set<Ext>,
      done: set<Run>)
    requires s in h.shelves
  {
    && todo <= h.shelves[s].runs.Keys && exts == exts0 + (h.shelves[s].runs.Keys - todo) && todo !! exts
    && done0 <= done && (forall r <- done :: r.ext in exts)
    && WholeExtents(h.shelves[s].runs.Keys - todo, h.shelves[s].count, done)
  }

  lemma OneMoreExtent(h: Heap, s: Slot, todo: set<Ext>, exts0: set<Ext>, done0: set<Run>, exts: set<Ext>,
      done: set<Run>, e: Ext, done': set<Run>)
    requires s in h.shelves && ShelfScan(h, s, todo, exts0, done0, exts, done) && e in todo && done <= done'
    requires (forall r <- done' :: r.ext in exts + {e})
             && forall rid: nat | rid < h.shelves[s].count :: Run(e, rid) in done'
    ensures ShelfScan(h, s, todo - {e}, exts0, done0, exts + {e}, done')
  {
  }

  method RecoverShelf(a: Allocator, s: Slot, visits: seq<Region>, ghost h: Heap, ghost exts: set<Ext>,
      ghost done: set<Run>)
    returns (visits': seq<Region>, ghost exts': set<Ext>, ghost done': set<Run>)
    requires Image(h) && RecoveredUpTo(h, a.State(), exts, done) && Visited(h, done, visits)
    requires s in h.shelves && h.shelves[s].runs.Keys !! exts && forall r <- done :: r.ext in exts
    modifies a`bins, a`shelves, a`metas
    ensures RecoveredUpTo(h, a.State(), exts', done') && Visited(h, done', visits')
    ensures ShelfScan(h, s, {}, exts, done, exts', done')
  {
    visits', exts', done' := visits, exts, done;
    assert RecoveredShelf(h, a.State(), exts, s);
    var todo := a.shelves[s].runs.Keys;
    while todo != {}
      invariant RecoveredUpTo(h, a.State(), exts', done') && Visited(h, done', visits')
      invariant ShelfScan(h, s, todo, exts, done, exts', done')
      decreases |todo|
    {
      var e :| e in todo;
      ghost var before := done';
      visits', done' := RecoverExtent(a, s, e, visits', h, exts', done');
      OneMoreExtent(h, s, todo, exts, done, exts', before, e, done');
      exts', todo := exts' + {e}, todo - {e};
    }
  }

  ghost predicate ShelfTurn(h: Heap, exts: set<Ext>, done: set<Run>, todo: set<Slot>, s: Slot) {
    s in h.shelves ==>
      if s in todo then h.shelves[s].runs.Keys !! exts
      else h.shelves[s].runs.Keys <= exts && WholeExtents(h.shelves[s].runs.Keys, h.shelves[s].count, done)
  }

  lemma ScanBegins(h: Heap)
    requires Image(h)
    ensures RecoveredUpTo(h, h, {}, {}) && Visited(h, {}, [])
  {
    forall b, r ensures RecoveredBin(h, h, {}, b, r) { assert b in h.bins ==> h.bins[b] == map[]; }
    forall s ensures RecoveredShelf(h, h, {}, s) {
      if s in h.shelves { assert h.shelves[s].open == {}; }
    }
  }

  lemma ScanEnds(h: Heap, exts: set<Ext>, done: set<Run>)
    requires Image(h) && forall s {:trigger ShelfTurn(h, exts, done, {}, s)} :: ShelfTurn(h, exts, done, {}, s)
    ensures AllRecovered(h, exts, done)
  {
    forall s | s in h.shelves ensures h.shelves[s].runs.Keys <= exts { assert ShelfTurn(h, exts, done, {}, s); }
    forall s, r | Holds(h, s, r) ensures r in done {
      assert ShelfTurn(h, exts, done, {}, s);
      assert h.shelves[s].runs[r.ext] <= Ones(h.shelves[s].count);
      assert r.rid in Ones(h.shelves[s].count) && Run(r.ext, r.rid) == r;
    }
  }

  /**
    recover: the rebuilder is given exactly the published regions, each once, and the allocator ends in
    order with exactly these handed out.
   */
  method Recover(a: Allocator) returns (visits: seq<Region>)
    requires Image(a.State())
    modifies a
    ensures Inv(a.State()) && NoCached(a.State())
    ensures Rebuilt(old(a.State()), a.State())
    ensures forall g {:trigger Allocated(a.State(), g)} :: Allocated(a.State(), g) <==> Published(old(a.State()), g)
    ensures forall g {:trigger g in visits} :: g in visits <==> Published(old(a.State()), g)
    ensures forall i, j | 0 <= i < j < |visits| :: visits[i] != visits[j]
  {
    ghost var h := a.State();
    ghost var exts, done: set<Run>;
    visits, exts, done := ScanShelves(a);
    forall g ensures g in visits <==> Published(h, g) {
      if Published(h, g) { assert Holds(h, Home(h, h.metas[g.run].bin), g.run); }
    }
    ghost var user := set g | g in visits;
    RecoverInv(h, a.State(), exts, done, user);
    IsRebuilt(h, a.State(), exts, done, user);
    a.user := user;
  }

  method ScanShelves(a: Allocator) returns (visits: seq<Region>, ghost exts: set<Ext>, ghost done: set<Run>)
    requires Image(a.State())
    modifies a`bins, a`shelves, a`metas
    ensures RecoveredUpTo(old(a.State()), a.State(), exts, done) && Visited(old(a.State()), done, visits)
    ensures AllRecovered(old(a.State()), exts, done)
  {
    ghost var h := a.State();
    ScanBegins(h);
    visits, exts, done := [], {}, {};
    var todo := a.shelves.Keys;
    while todo != {}
      invariant RecoveredUpTo(h, a.State(), exts, done) && Visited(h, done, visits) && todo <= h.shelves.Keys
      invariant forall r <- done :: r.ext in exts
      invariant forall s {:trigger ShelfTurn(h, exts, done, todo, s)} :: ShelfTurn(h, exts, done, todo, s)
      decreases |todo|
    {
      var s :| s in todo;
      assert ShelfTurn(h, exts, done, todo, s);
      ghost var exts0, done0 := exts, done;
      visits, exts, done := RecoverShelf(a, s, visits, h, exts, done);
      forall t ensures ShelfTurn(h, exts, done, todo - {s}, t) {
        assert OneShelf(h, s, t) && ShelfTurn(h, exts0, done0, todo, t);
      }
      todo := todo - {s};
    }
    ScanEnds(h, exts, done);
  }
}
