/** Every step of the slab hierarchy keeps every region in exactly one place. */
module SlabHeapProof {
  import opened RunBits
  import opened RunBin
  import opened SlabHeap

  // A run bought for an empty arena bin

  /** The run that Stock takes was not in use. */
  lemma StockIsNew(h: Heap, b: Bin, e: Ext, count: nat)
    requires BinInv(h) && CanStock(h, b, e, count)
    ensures Exact(Ready(h, b, e)) && e in Ready(h, b, e).open
    ensures var r := StockedRun(h, b, e); !Live(h, r) && (forall s :: !Holds(h, s, r)) && r.rid < Ready(h, b, e).count
    ensures Exact(Take(Ready(h, b, e), e, StockedRun(h, b, e).rid))
  {
    var s := Home(h, b);
    var old_ := h.shelves[s];
    if old_.open == {} { OfferKeeps(old_, e); }
    TakeKeeps(Ready(h, b, e), e);
    var r := StockedRun(h, b, e);
    forall t ensures !Holds(h, t, r) {
      if t in h.shelves && e in h.shelves[t].runs {
        assert OneShelf(h, s, t);
        assert old_.open != {};
        assert e in old_.runs;
        assert t == s;
      }
    }
  }

  lemma StockHolds(h: Heap, b: Bin, e: Ext, count: nat, t: Slot, x: Run)
    requires CanStock(h, b, e, count)
    ensures var h' := DoStock(h, b, e, count); var r := StockedRun(h, b, e);
            Holds(h', t, x) <==> Holds(h, t, x) || (t == Home(h, b) && x == r)
  {
  }

  lemma StockRun(h: Heap, b: Bin, e: Ext, count: nat, x: Run)
    requires BinInv(h) && CanStock(h, b, e, count)
    ensures var h' := DoStock(h, b, e, count); var r := StockedRun(h, b, e);
            && (Live(h', x) <==> Live(h, x) || x == r)
            && (x == r ==> x in h'.metas && Taken(h', x) == {})
            && (x != r && x in h.metas ==> x in h'.metas && h'.metas[x] == h.metas[x] && Taken(h', x) == Taken(h, x))
  {
    StockLive(h, b, e, count, x);
    StockTaken(h, b, e, count, x);
  }

  lemma StockLive(h: Heap, b: Bin, e: Ext, count: nat, x: Run)
    requires BinInv(h) && CanStock(h, b, e, count)
    ensures Live(DoStock(h, b, e, count), x) <==> Live(h, x) || x == StockedRun(h, b, e)
  {
    StockIsNew(h, b, e, count);
    if x in h.metas { StockHolds(h, b, e, count, Home(h, h.metas[x].bin), x); }
    StockHolds(h, b, e, count, Home(h, b), x);
  }

  lemma StockTaken(h: Heap, b: Bin, e: Ext, count: nat, x: Run)
    requires CanStock(h, b, e, count)
    ensures var h' := DoStock(h, b, e, count); var r := StockedRun(h, b, e);
            && (x == r ==> x in h'.metas && Taken(h', x) == {})
            && (x != r && x in h.metas ==> x in h'.metas && h'.metas[x] == h.metas[x] && Taken(h', x) == Taken(h, x))
  {
  }

  lemma StockShelves(h: Heap, b: Bin, e: Ext, count: nat, s: Slot, t: Slot)
    requires BinInv(h) && CanStock(h, b, e, count)
    ensures OneShelf(DoStock(h, b, e, count), s, t)
  {
    assert OneShelf(h, s, t) && OneShelf(h, s, Home(h, b)) && OneShelf(h, Home(h, b), t);
    if h.shelves[Home(h, b)].open == {} {
      assert s in h.shelves ==> e !in h.shelves[s].runs;
      assert t in h.shelves ==> e !in h.shelves[t].runs;
    }
  }

  lemma StockBins(h: Heap, b: Bin, e: Ext, count: nat)
    requires BinInv(h) && CanStock(h, b, e, count)
    ensures BinInv(DoStock(h, b, e, count))
  {
    var h', r := DoStock(h, b, e, count), StockedRun(h, b, e);
    StockIsNew(h, b, e, count);
    forall s, t ensures OneShelf(h', s, t) { StockShelves(h, b, e, count, s, t); }
    forall s, x | Holds(h', s, x) ensures x in h'.metas && Home(h', h'.metas[x].bin) == s {
      StockHolds(h, b, e, count, s, x);
      assert x != r ==> Holds(h, s, x) && Home(h, h.metas[x].bin) == s;
    }
    forall x ensures RunOk(h', x) {
      StockRun(h, b, e, count, x);
      assert RunOk(h, x);
    }
    forall d, x ensures EntryOk(h', d, x) {
      StockRun(h, b, e, count, x);
      assert EntryOk(h, d, x);
    }
    forall d | d in h'.bins ensures Home(h', d) in h'.shelves {
      assert Home(h, d) in h.shelves;
    }
  }

  lemma StockAllocated(h: Heap, b: Bin, e: Ext, count: nat, g: Region)
    requires BinInv(h) && CanStock(h, b, e, count)
    ensures Allocated(DoStock(h, b, e, count), g) <==> Allocated(h, g)
  {
    StockIsNew(h, b, e, count);
    StockRun(h, b, e, count, g.run);
  }

  /** When what is handed out, who has it and the tokens stay, so does the ownership. */
  lemma SameOwn(h: Heap, h': Heap)
    requires OwnInv(h) && h'.user == h.user && h'.caches == h.caches
    requires forall g :: Allocated(h', g) <==> Allocated(h, g)
    requires forall r {:trigger Live(h', r)} | Live(h', r) && (Live(h, r) || h'.metas[r].busy != {}) ::
               Live(h, r) && h'.metas[r].bin.cls == h.metas[r].bin.cls && h'.metas[r].busy == h.metas[r].busy
    ensures OwnInv(h')
  {
    forall c, g ensures CachedOk(h', c, g) {
      assert CachedOk(h, c, g);
      if InCache(h', g, c) { assert InCache(h, g, c) && Live(h, g.run) && Live(h', g.run); }
    }
    forall c ensures OnceIn(h', c) { assert OnceIn(h, c); }
    forall g, c, d ensures OneCache(h', g, c, d) { assert OneCache(h, g, c, d); }
    forall g ensures Accounted(h', g) {
      assert Accounted(h, g);
      if Allocated(h', g) && g !in h'.user { var c :| InCache(h, g, c); assert InCache(h', g, c); }
    }
    forall r, i ensures TokenOk(h', r, i) { assert TokenOk(h, r, i); }
  }

  lemma StockInv(h: Heap, b: Bin, e: Ext, count: nat)
    requires Inv(h) && CanStock(h, b, e, count)
    ensures Inv(DoStock(h, b, e, count))
  {
    var h' := DoStock(h, b, e, count);
    StockBins(h, b, e, count);
    forall g ensures Allocated(h', g) <==> Allocated(h, g) { StockAllocated(h, b, e, count, g); }
    forall r | Live(h', r) && (Live(h, r) || h'.metas[r].busy != {})
      ensures Live(h, r) && h'.metas[r].bin.cls == h.metas[r].bin.cls && h'.metas[r].busy == h.metas[r].busy
    {
      StockIsNew(h, b, e, count);
      StockRun(h, b, e, count, r);
    }
    SameOwn(h, h');
  }

  // A cache bin filled from a run

  lemma FillRun(h: Heap, b: Bin, r: Run, c: Cache, restock: nat, x: Run)
    requires BinInv(h) && CanFill(h, b, r, c)
    ensures var h' := DoFill(h, b, r, c, restock);
            && (Live(h', x) <==> Live(h, x)) && Live(h, r)
            && (x in h.metas ==>
               Taken(h', x) == if x == r then Taken(h, r) + Elems(Poured(h, b, r, c, restock)) else Taken(h, x))
  {
    assert EntryOk(h, b, r);
    var h' := DoFill(h, b, r, c, restock);
    if x in h.metas { assert Holds(h', Home(h', h'.metas[x].bin), x) <==> Holds(h, Home(h, h.metas[x].bin), x); }
  }

  /** The regions poured were in the run until now. */
  lemma PouredWereFree(h: Heap, b: Bin, r: Run, c: Cache, restock: nat)
    requires BinInv(h) && CanFill(h, b, r, c)
    ensures var more := Poured(h, b, r, c, restock);
            && (forall i <- more :: i < h.metas[r].count && i !in Taken(h, r))
            && (forall i, j | 0 <= i < j < |more| :: more[i] != more[j])
            && Elems(more) <= Ones(h.metas[r].count)
  {
    assert EntryOk(h, b, r);
    var t, count := h.bins[b][r], h.metas[r].count;
    assert forall i <- t :: i in Ones(count);
    FillMeaning(t, count, Wanted(|h.caches[c]|, restock));
    var more := Poured(h, b, r, c, restock);
    forall i, j | 0 <= i < j < |more| ensures more[i] != more[j] { assert more[i] < more[j]; }
  }

  lemma FillBins(h: Heap, b: Bin, r: Run, c: Cache, restock: nat)
    requires BinInv(h) && CanFill(h, b, r, c)
    ensures BinInv(DoFill(h, b, r, c, restock))
  {
    var h' := DoFill(h, b, r, c, restock);
    forall s, t ensures OneShelf(h', s, t) { assert OneShelf(h, s, t); }
    forall s, x | Holds(h', s, x) ensures x in h'.metas && Home(h', h'.metas[x].bin) == s { assert Holds(h, s, x); }
    forall x ensures RunOk(h', x) {
      FillRun(h, b, r, c, restock, x);
      assert RunOk(h, x);
    }
    forall d, x ensures EntryOk(h', d, x) {
      FillRun(h, b, r, c, restock, x);
      PouredWereFree(h, b, r, c, restock);
      assert EntryOk(h, d, x) && EntryOk(h, b, r);
    }
    forall d | d in h'.bins ensures Home(h', d) in h'.shelves { assert Home(h, d) in h.shelves; }
  }

  lemma FillAllocated(h: Heap, b: Bin, r: Run, c: Cache, restock: nat, g: Region)
    requires BinInv(h) && CanFill(h, b, r, c)
    ensures var h' := DoFill(h, b, r, c, restock); var more := Poured(h, b, r, c, restock);
            && (Allocated(h', g) <==> Allocated(h, g) || (g.run == r && g.ind in more))
            && (g.run == r && g.ind in more ==> !Allocated(h, g))
            && (forall d :: InCache(h', g, d) <==> InCache(h, g, d) || (d == c && g.run == r && g.ind in more))
  {
    var h', more := DoFill(h, b, r, c, restock), Poured(h, b, r, c, restock);
    FillRun(h, b, r, c, restock, g.run);
    PouredWereFree(h, b, r, c, restock);
    var gs := RegionsOf(r, more);
    if g in gs { var i :| 0 <= i < |gs| && gs[i] == g; }
    if g.run == r && g.ind in more { var i :| 0 <= i < |more| && more[i] == g.ind; assert gs[i] == g; }
  }

  lemma FillOnce(h: Heap, b: Bin, r: Run, c: Cache, restock: nat)
    requires Inv(h) && CanFill(h, b, r, c)
    ensures OnceIn(DoFill(h, b, r, c, restock), c)
  {
    var had, more := h.caches[c], Poured(h, b, r, c, restock);
    var gs := RegionsOf(r, more);
    var all := had + gs;
    assert OnceIn(h, c);
    PouredWereFree(h, b, r, c, restock);
    forall i, j | 0 <= i < j < |all| ensures all[i] != all[j] {
      if i < |had| <= j {
        assert InCache(h, had[i], c) && CachedOk(h, c, had[i]);
        FillAllocated(h, b, r, c, restock, had[i]);
        assert more[j - |had|] in more;
      }
    }
  }

  lemma FillOwn(h: Heap, b: Bin, r: Run, c: Cache, restock: nat)
    requires Inv(h) && CanFill(h, b, r, c)
    ensures OwnInv(DoFill(h, b, r, c, restock))
  {
    var h' := DoFill(h, b, r, c, restock);
    forall g | g in h'.user ensures Allocated(h', g) { FillAllocated(h, b, r, c, restock, g); }
    forall d, g ensures CachedOk(h', d, g) { FillCached(h, b, r, c, restock, d, g); }
    forall d ensures OnceIn(h', d) {
      FillOnce(h, b, r, c, restock);
      assert OnceIn(h, d);
    }
    forall g, d, e ensures OneCache(h', g, d, e) {
      FillAllocated(h, b, r, c, restock, g);
      assert OneCache(h, g, d, e) && CachedOk(h, d, g) && CachedOk(h, e, g);
    }
    forall g ensures Accounted(h', g) {
      FillAllocated(h, b, r, c, restock, g);
      assert Accounted(h, g);
      if Allocated(h, g) && g !in h.user { var d :| InCache(h, g, d); assert InCache(h', g, d); }
      if g.run == r && g.ind in Poured(h, b, r, c, restock) { assert InCache(h', g, c); }
    }
    forall x, i ensures TokenOk(h', x, i) {
      FillRun(h, b, r, c, restock, x);
      assert TokenOk(h, x, i);
    }
  }

  lemma FillCached(h: Heap, b: Bin, r: Run, c: Cache, restock: nat, d: Cache, g: Region)
    requires Inv(h) && CanFill(h, b, r, c)
    ensures CachedOk(DoFill(h, b, r, c, restock), d, g)
  {
    FillAllocated(h, b, r, c, restock, g);
    assert CachedOk(h, d, g) && EntryOk(h, b, r) && TokenOk(h, g.run, g.ind);
    assert Region(g.run, g.ind) == g;
    if InCache(DoFill(h, b, r, c, restock), g, d) && !InCache(h, g, d) {
      FillRun(h, b, r, c, restock, r);
      assert g in h.user ==> Allocated(h, g);
    }
  }

  // The user takes, publishes and frees regions

  /** Only tokens differ, and only by ones that the run has. */
  ghost predicate Retoken(m: Meta, m': Meta) {
    m'.bin == m.bin && m'.count == m.count && m'.polluted == m.polluted
      && (m'.busy <= m.busy || m'.busy <= Ones(m.count))
  }

  /** A step that moves no run and no bit leaves bins, bitmaps and metadata in agreement. */
  lemma SameBins(h: Heap, h': Heap)
    requires BinInv(h) && h'.ncases == h.ncases && h'.shelves == h.shelves && h'.bins == h.bins
             && h'.metas.Keys == h.metas.Keys
    requires forall r {:trigger h'.metas[r]} | r in h.metas :: Retoken(h.metas[r], h'.metas[r])
    ensures BinInv(h')
    ensures forall r {:trigger Live(h', r)} :: Live(h', r) <==> Live(h, r)
    ensures forall g {:trigger Allocated(h', g)} :: Allocated(h', g) <==> Allocated(h, g)
  {
    forall s, t ensures OneShelf(h', s, t) { assert OneShelf(h, s, t); }
    forall s, r ensures Holds(h', s, r) <==> Holds(h, s, r) {}
    forall r ensures Live(h', r) <==> Live(h, r) {
      if r in h.metas {
        assert h'.metas[r].bin == h.metas[r].bin;
        assert Home(h', h.metas[r].bin) == Home(h, h.metas[r].bin);
      }
    }
    forall s, r | Holds(h', s, r) ensures r in h'.metas && Home(h', h'.metas[r].bin) == s {
      assert h'.metas[r].bin == h.metas[r].bin;
    }
    forall r ensures RunOk(h', r) {
      assert RunOk(h, r);
      if Live(h', r) { assert h'.metas[r].bin == h.metas[r].bin && h'.metas[r].count == h.metas[r].count; }
    }
    forall b, r ensures EntryOk(h', b, r) {
      assert EntryOk(h, b, r);
      if Live(h, r) { assert h'.metas[r].bin == h.metas[r].bin && h'.metas[r].count == h.metas[r].count; }
    }
    forall b | b in h'.bins ensures Home(h', b) in h'.shelves { assert Home(h, b) in h.shelves; }
    forall g ensures Allocated(h', g) <==> Allocated(h, g) {
      if Live(h, g.run) {
        assert h'.metas[g.run].bin == h.metas[g.run].bin && h'.metas[g.run].count == h.metas[g.run].count;
      }
    }
  }

  /** What a cache gives was with nobody else: not the user's, in no other cache, and not in it twice. */
  lemma PopIsFresh(h: Heap, c: Cache)
    requires Inv(h) && CanPop(h, c)
    ensures var g := h.caches[c][0];
            && g !in h.user && Allocated(h, g) && h.metas[g.run].bin.cls == c.cls
            && (forall d {:trigger InCache(DoPop(h, c), g, d)} :: !InCache(DoPop(h, c), g, d))
  {
    var g := h.caches[c][0];
    assert InCache(h, g, c) && CachedOk(h, c, g) && OnceIn(h, c);
    forall d ensures !InCache(DoPop(h, c), g, d) {
      assert OneCache(h, g, c, d);
      assert forall i | 0 <= i < |h.caches[c][1..]| :: h.caches[c][1..][i] == h.caches[c][i + 1] != h.caches[c][0];
    }
  }

  lemma TailCaches(h: Heap, c: Cache, g: Region, d: Cache)
    requires CanPop(h, c)
    ensures InCache(DoPop(h, c), g, d) ==> InCache(h, g, d)
    ensures InCache(h, g, d) && g != h.caches[c][0] ==> InCache(DoPop(h, c), g, d)
  {
    if d == c && c in h.caches && g in h.caches[c] && g != h.caches[c][0] {
      var i :| 0 <= i < |h.caches[c]| && h.caches[c][i] == g;
      assert h.caches[c][1..][i - 1] == g;
    }
  }

  lemma PopOwn(h: Heap, c: Cache, g: Region, d: Cache, e: Cache)
    requires Inv(h) && CanPop(h, c) && (Allocated(DoPop(h, c), g) <==> Allocated(h, g))
    ensures var h' := DoPop(h, c); CachedOk(h', d, g) && OneCache(h', g, d, e) && OnceIn(h', d)
  {
    PopIsFresh(h, c);
    TailCaches(h, c, g, d);
    TailCaches(h, c, g, e);
    assert CachedOk(h, d, g) && OneCache(h, g, d, e) && OnceIn(h, d);
    assert g == h.caches[c][0] ==> !InCache(DoPop(h, c), g, d);
  }

  lemma PopAccounted(h: Heap, c: Cache, g: Region)
    requires Inv(h) && CanPop(h, c) && (Allocated(DoPop(h, c), g) <==> Allocated(h, g))
    ensures Accounted(DoPop(h, c), g)
  {
    assert Accounted(h, g);
    if Allocated(h, g) && g !in DoPop(h, c).user {
      var d :| InCache(h, g, d);
      TailCaches(h, c, g, d);
    }
  }

  lemma PopInv(h: Heap, c: Cache)
    requires Inv(h) && CanPop(h, c)
    ensures Inv(DoPop(h, c))
  {
    var h' := DoPop(h, c);
    SameBins(h, h');
    PopIsFresh(h, c);
    forall d, g ensures CachedOk(h', d, g) { PopOwn(h, c, g, d, d); }
    forall d ensures OnceIn(h', d) { PopOwn(h, c, h.caches[c][0], d, d); }
    forall g, d, e ensures OneCache(h', g, d, e) { PopOwn(h, c, g, d, e); }
    forall g ensures Accounted(h', g) { PopAccounted(h, c, g); }
    forall r, i ensures TokenOk(h', r, i) { assert TokenOk(h, r, i); }
  }

  lemma InRange(h: Heap, g: Region)
    requires BinInv(h) && Allocated(h, g)
    ensures g.ind in Ones(h.metas[g.run].count)
  {
    assert EntryOk(h, h.metas[g.run].bin, g.run);
  }

  lemma PublishOwn(h: Heap, g: Region, x: Region, c: Cache, d: Cache)
    requires Inv(h) && g in h.user && g.run in h.metas && (Allocated(DoPublish(h, g), x) <==> Allocated(h, x))
    ensures var h' := DoPublish(h, g); CachedOk(h', c, x) && OneCache(h', x, c, d) && OnceIn(h', c) && Accounted(h', x)
  {
    var h' := DoPublish(h, g);
    assert CachedOk(h, c, x) && OneCache(h, x, c, d) && OnceIn(h, c) && Accounted(h, x);
    if Allocated(h, x) && x !in h'.user { var e :| InCache(h, x, e); assert InCache(h', x, e); }
  }

  lemma PublishInv(h: Heap, g: Region)
    requires Inv(h) && g in h.user
    ensures g.run in h.metas && Inv(DoPublish(h, g))
  {
    assert Allocated(h, g);
    var h' := DoPublish(h, g);
    InRange(h, g);
    assert RunOk(h, g.run);
    SameBins(h, h');
    forall c, x ensures CachedOk(h', c, x) { PublishOwn(h, g, x, c, c); }
    forall c ensures OnceIn(h', c) { PublishOwn(h, g, g, c, c); }
    forall x, c, d ensures OneCache(h', x, c, d) { PublishOwn(h, g, x, c, d); }
    forall x ensures Accounted(h', x) { PublishOwn(h, g, x, Cache(0, 0), Cache(0, 0)); }
    forall r, i ensures TokenOk(h', r, i) {
      assert TokenOk(h, r, i);
      assert Region(g.run, g.ind) == g;
    }
  }

  lemma FreeOwn(h: Heap, c: Cache, g0: Region, g: Region, d: Cache, e: Cache)
    requires Inv(h) && CanFree(h, c, g0) && (Allocated(DoFree(h, c, g0), g) <==> Allocated(h, g)) && Allocated(h, g0)
    ensures var h' := DoFree(h, c, g0); CachedOk(h', d, g) && OneCache(h', g, d, e) && Accounted(h', g)
  {
    var h' := DoFree(h, c, g0);
    assert InCache(h', g, d) <==> InCache(h, g, d) || (g == g0 && d == c);
    assert InCache(h', g, e) <==> InCache(h, g, e) || (g == g0 && e == c);
    assert CachedOk(h, d, g) && CachedOk(h, e, g) && OneCache(h, g, d, e) && Accounted(h, g);
    assert g.run == g0.run && g.ind == g0.ind ==> g == g0;
    if g == g0 {
      assert InCache(h', g, c);
    } else if Allocated(h, g) && g !in h.user {
      var x :| InCache(h, g, x);
      assert InCache(h', g, x);
    }
  }

  lemma FreeOnce(h: Heap, c: Cache, g0: Region, d: Cache)
    requires Inv(h) && CanFree(h, c, g0)
    ensures OnceIn(DoFree(h, c, g0), d)
  {
    assert OnceIn(h, d) && CachedOk(h, c, g0);
    assert InCache(h, g0, c) <==> g0 in h.caches[c];
  }

  lemma FreeInv(h: Heap, c: Cache, g0: Region)
    requires Inv(h) && CanFree(h, c, g0)
    ensures Inv(DoFree(h, c, g0))
  {
    var h' := DoFree(h, c, g0);
    assert Allocated(h, g0);
    SameBins(h, h');
    forall d, g ensures CachedOk(h', d, g) { FreeOwn(h, c, g0, g, d, d); }
    forall d ensures OnceIn(h', d) { FreeOnce(h, c, g0, d); }
    forall g, d, e ensures OneCache(h', g, d, e) { FreeOwn(h, c, g0, g, d, e); }
    forall g ensures Accounted(h', g) { FreeOwn(h, c, g0, g, c, c); }
    forall r, i ensures TokenOk(h', r, i) { assert TokenOk(h, r, i); }
  }

  // A region given back to its run

  /** What the shelf holds after a run left its arena bin. */
  lemma BackHolds(h: Heap, g: Region, s: Slot, x: Run)
    requires BinInv(h) && CanGiveBack(h, g)
    ensures Holds(GiveBack(h, g), s, x) <==> Holds(h, s, x) && !(x == g.run && RunLeaves(h, g))
  {
    var t := Home(h, h.metas[g.run].bin);
    assert OneShelf(h, s, t) && Covers(h.shelves[t]);
    GivenHolds(h, g, s, x);
  }

  lemma GivenHolds(h: Heap, g: Region, s: Slot, x: Run)
    requires CanGiveBack(h, g)
    requires var t := Home(h, h.metas[g.run].bin); Covers(h.shelves[t]) && OneShelf(h, s, t)
    ensures Holds(GiveBack(h, g), s, x) <==> Holds(h, s, x) && !(x == g.run && RunLeaves(h, g))
  {
    GiveKeeps(h.shelves[Home(h, h.metas[g.run].bin)], g.run.ext, g.run.rid);
  }

  lemma BackLive(h: Heap, g: Region, x: Run)
    requires BinInv(h) && CanGiveBack(h, g)
    ensures Live(GiveBack(h, g), x) <==> Live(h, x) && !(x == g.run && RunLeaves(h, g))
  {
    if x in h.metas { BackHolds(h, g, Home(h, h.metas[x].bin), x); }
  }

  lemma BackTaken(h: Heap, g: Region, x: Run)
    requires CanGiveBack(h, g) && x in h.metas && !(x == g.run && RunLeaves(h, g))
    ensures Taken(GiveBack(h, g), x) == if x == g.run then Taken(h, x) - {g.ind} else Taken(h, x)
  {
  }

  lemma BackRun(h: Heap, g: Region, x: Run)
    requires BinInv(h) && CanGiveBack(h, g) && Allocated(h, g)
    ensures var h' := GiveBack(h, g);
            && (Live(h', x) <==> Live(h, x) && !(x == g.run && RunLeaves(h, g)))
            && (Live(h', x) ==> Taken(h', x) == if x == g.run then Taken(h, x) - {g.ind} else Taken(h, x))
            && (RunLeaves(h, g) ==> Taken(h, g.run) == {g.ind})
  {
    BackLive(h, g, x);
    if Live(h, x) && !(x == g.run && RunLeaves(h, g)) { BackTaken(h, g, x); }
    assert RunLeaves(h, g) ==> Taken(h, g.run) - {g.ind} == {};
  }

  lemma BackShelves(h: Heap, g: Region, s: Slot, t: Slot)
    requires BinInv(h) && CanGiveBack(h, g)
    ensures OneShelf(GiveBack(h, g), s, t) && (s in h.shelves ==> Exact(GiveBack(h, g).shelves[s]))
  {
    var u := Home(h, h.metas[g.run].bin);
    assert OneShelf(h, s, t) && Exact(h.shelves[u]) && (s in h.shelves ==> Exact(h.shelves[s]));
    GivenShelves(h, g, s, t);
  }

  lemma GivenShelves(h: Heap, g: Region, s: Slot, t: Slot)
    requires CanGiveBack(h, g) && OneShelf(h, s, t) && Exact(h.shelves[Home(h, h.metas[g.run].bin)])
    requires s in h.shelves ==> Exact(h.shelves[s])
    ensures OneShelf(GiveBack(h, g), s, t) && (s in h.shelves ==> Exact(GiveBack(h, g).shelves[s]))
  {
    var u := Home(h, h.metas[g.run].bin);
    GiveKeeps(h.shelves[u], g.run.ext, g.run.rid);
    assert Give(h.shelves[u], g.run.ext, g.run.rid).runs.Keys <= h.shelves[u].runs.Keys;
  }

  lemma BackEntry(h: Heap, g: Region, b: Bin, x: Run)
    requires BinInv(h) && CanGiveBack(h, g) && Allocated(h, g)
    ensures EntryOk(GiveBack(h, g), b, x)
  {
    BackRun(h, g, x);
    InRange(h, g);
    assert EntryOk(h, b, x) && EntryOk(h, h.metas[g.run].bin, g.run);
  }

  lemma BackBins(h: Heap, g: Region)
    requires BinInv(h) && CanGiveBack(h, g) && Allocated(h, g)
    ensures BinInv(GiveBack(h, g))
  {
    var h' := GiveBack(h, g);
    forall s | s in h'.shelves ensures Exact(h'.shelves[s]) { BackShelves(h, g, s, s); }
    forall s, t ensures OneShelf(h', s, t) { BackShelves(h, g, s, t); }
    forall s, x | Holds(h', s, x) ensures x in h'.metas && Home(h', h'.metas[x].bin) == s { BackHolds(h, g, s, x); }
    forall x ensures RunOk(h', x) {
      BackRun(h, g, x);
      assert RunOk(h, x);
    }
    forall b, x ensures EntryOk(h', b, x) { BackEntry(h, g, b, x); }
    forall b | b in h'.bins ensures Home(h', b) in h'.shelves { assert Home(h, b) in h.shelves; }
  }

  /** Giving a region back takes that region, and no other, out of the handed-out ones. */
  lemma BackAllocated(h: Heap, g: Region, x: Region)
    requires BinInv(h) && CanGiveBack(h, g) && Allocated(h, g)
    ensures Allocated(GiveBack(h, g), x) <==> Allocated(h, x) && x != g
  {
    BackRun(h, g, x.run);
  }

  lemma SpillCan(h: Heap, c: Cache)
    requires Inv(h) && CanPop(h, c)
    ensures CanSpill(h, c) && Allocated(h, h.caches[c][0])
  {
    var g := h.caches[c][0];
    assert InCache(h, g, c) && CachedOk(h, c, g) && RunOk(h, g.run);
  }

  /** Spilling touches the caches as popping does, and the runs as giving back does. */
  lemma SpillParts(h: Heap, c: Cache, x: Region)
    requires Inv(h) && CanSpill(h, c)
    ensures var h', g := DoSpill(h, c), h.caches[c][0];
            && (Allocated(h', x) <==> Allocated(h, x) && x != g)
            && (Live(h', x.run) ==> Live(h, x.run) && h'.metas[x.run] == h.metas[x.run])
            && (forall d {:trigger InCache(h', x, d)} :: InCache(h', x, d) ==> InCache(h, x, d) && x != g)
            && (forall d {:trigger InCache(h', x, d)} :: InCache(h, x, d) && x != g ==> InCache(h', x, d))
  {
    var h', g, k := DoSpill(h, c), h.caches[c][0], GiveBack(h, h.caches[c][0]);
    SpillCan(h, c);
    BackAllocated(h, g, x);
    BackRun(h, g, x.run);
    assert Holds(h', Home(h', h'.metas[g.run].bin), x.run) <==> Holds(k, Home(k, k.metas[g.run].bin), x.run);
    assert Live(h', x.run) <==> Live(k, x.run);
    PopIsFresh(h, c);
    forall d
      ensures (InCache(h', x, d) ==> InCache(h, x, d) && x != g) && (InCache(h, x, d) && x != g ==> InCache(h', x, d))
    {
      TailCaches(h, c, x, d);
      assert InCache(h', x, d) <==> InCache(DoPop(h, c), x, d);
    }
  }

  lemma SpillOwn(h: Heap, c: Cache, x: Region, d: Cache, e: Cache)
    requires Inv(h) && CanSpill(h, c)
    ensures var h' := DoSpill(h, c); CachedOk(h', d, x) && OneCache(h', x, d, e) && OnceIn(h', d) && Accounted(h', x)
  {
    var h' := DoSpill(h, c);
    SpillParts(h, c, x);
    assert CachedOk(h, d, x) && OneCache(h, x, d, e) && OnceIn(h, d) && Accounted(h, x);
    if Allocated(h', x) && x !in h.user { var y :| InCache(h, x, y); assert InCache(h', x, y); }
  }

  lemma SpillInv(h: Heap, c: Cache)
    requires Inv(h) && CanSpill(h, c)
    ensures Inv(DoSpill(h, c))
  {
    var h', g, k := DoSpill(h, c), h.caches[c][0], GiveBack(h, h.caches[c][0]);
    SpillCan(h, c);
    BackBins(h, g);
    SameBins(k, h');
    PopIsFresh(h, c);
    forall x | x in h'.user ensures Allocated(h', x) { SpillParts(h, c, x); }
    forall d, x ensures CachedOk(h', d, x) { SpillOwn(h, c, x, d, d); }
    forall d ensures OnceIn(h', d) { SpillOwn(h, c, g, d, d); }
    forall x, d, e ensures OneCache(h', x, d, e) { SpillOwn(h, c, x, d, e); }
    forall x ensures Accounted(h', x) { SpillOwn(h, c, x, c, c); }
    forall r, i ensures TokenOk(h', r, i) {
      SpillParts(h, c, Region(r, i));
      assert TokenOk(h, r, i);
    }
  }

  // Whole runs

  /** A new pool: empty bins and caches. */
  ghost predicate Init(h: Heap) {
    && h.metas == map[] && h.user == {}
    && (forall s {:trigger h.shelves[s]} | s in h.shelves ::
       h.shelves[s] == Shelf(h.shelves[s].count, map[], {}) && h.shelves[s].count > 1)
    && (forall b {:trigger h.bins[b]} | b in h.bins :: h.bins[b] == map[] && Home(h, b) in h.shelves)
    && (forall c {:trigger h.caches[c]} | c in h.caches :: h.caches[c] == [])
  }

  lemma InitInv(h: Heap)
    requires Init(h)
    ensures Inv(h)
  {
  }

  /** Every step keeps the invariant. */
  lemma NextInv(h: Heap, step: Step)
    requires Inv(h) && Can(h, step)
    ensures Inv(Next(h, step))
  {
    match step
    case Stock(b, e, count) => StockInv(h, b, e, count);
    case Fill(b, r, c, restock) => FillBins(h, b, r, c, restock); FillOwn(h, b, r, c, restock);
    case Pop(c) => PopInv(h, c);
    case Publish(g) => PublishInv(h, g);
    case Free(c, g) => FreeInv(h, c, g);
    case Spill(c) => SpillInv(h, c);
  }

  /** A run of the allocator: any steps of any threads, in any order. */
  ghost predicate Trace(hs: seq<Heap>, steps: seq<Step>) {
    && |hs| == |steps| + 1
    && forall i {:trigger steps[i]} | 0 <= i < |steps| :: Can(hs[i], steps[i]) && hs[i + 1] == Next(hs[i], steps[i])
  }

  lemma {:induction false} TraceInv(hs: seq<Heap>, steps: seq<Step>, n: nat)
    requires Trace(hs, steps) && Inv(hs[0]) && n < |hs|
    ensures Inv(hs[n])
  {
    if n > 0 {
      TraceInv(hs, steps, n - 1);
      NextInv(hs[n - 1], steps[n - 1]);
    }
  }

  /** The regions of the runs in use that are still in their run. */
  ghost predicate FreeInRun(h: Heap, g: Region) {
    Live(h, g.run) && g.ind in Ones(h.metas[g.run].count) - Taken(h, g.run)
  }

  ghost predicate Exists(h: Heap, g: Region) {
    Live(h, g.run) && g.ind < h.metas[g.run].count
  }

  /** In every run of the allocator, a region of a run in use is in exactly one place. */
  lemma OnePlace(hs: seq<Heap>, steps: seq<Step>, n: nat, g: Region)
    requires Trace(hs, steps) && Inv(hs[0]) && n < |hs|
    ensures var h := hs[n];
            && (Exists(h, g) <==> FreeInRun(h, g) || g in h.user || exists c :: InCache(h, g, c))
            && !(FreeInRun(h, g) && g in h.user)
            && (forall c {:trigger InCache(h, g, c)} | InCache(h, g, c) :: !FreeInRun(h, g) && g !in h.user)
            && (forall c, d | InCache(h, g, c) && InCache(h, g, d) :: c == d)
            && (forall c, i, j | c in h.caches && 0 <= i < j < |h.caches[c]| :: h.caches[c][i] != h.caches[c][j])
  {
    TraceInv(hs, steps, n);
    var h := hs[n];
    assert Accounted(h, g);
    if Allocated(h, g) { InRange(h, g); }
    forall c | InCache(h, g, c) ensures !FreeInRun(h, g) && g !in h.user && Allocated(h, g) {
      assert CachedOk(h, c, g);
    }
    forall c, d | InCache(h, g, c) && InCache(h, g, d) ensures c == d { assert OneCache(h, g, c, d); }
    forall c, i, j | c in h.caches && 0 <= i < j < |h.caches[c]| ensures h.caches[c][i] != h.caches[c][j] {
      assert OnceIn(h, c);
    }
  }
}
