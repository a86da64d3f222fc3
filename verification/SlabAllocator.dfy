/**
  The allocator's operations as the source runs them, over the state of SlabHeap: an arena bin's fill
  loop, a cache bin's acquire, release and spill loops.
 */
module SlabAllocator {
  import opened Basics
  import opened RunBits
  import opened RunBin
  import opened SlabHeap
  import opened SlabHeapProof
  import opened SizeClass
  import opened RunSizes
  import opened SlabMemory
  import opened SlabReboot

  lemma ProperSubsetSize(a: set<nat>, b: set<nat>)
    requires a < b
    ensures |a| < |b|
  {
    var x :| x in b && x !in a;
    SubsetSize(a, b - {x});
  }

  /** The extents that the extent case will hand out are distinct and in no run bin. */
  ghost predicate Fresh(h: Heap, supply: seq<Ext>) {
    && (forall i {:trigger supply[i]} | 0 <= i < |supply| :: Unused(h, supply[i]))
    && (forall i, j | 0 <= i < j < |supply| :: supply[i] != supply[j])
  }

  /** A fill takes at least one region from a run that is in an arena bin, when one is wanted. */
  lemma PouredSome(h: Heap, b: Bin, r: Run, c: Cache, restock: nat)
    requires BinInv(h) && CanFill(h, b, r, c) && |h.caches[c]| < restock
    ensures 1 <= |Poured(h, b, r, c, restock)| <= restock - |h.caches[c]|
  {
    assert EntryOk(h, b, r);
    var t, count := h.bins[b][r], h.metas[r].count;
    assert forall i <- t :: i in Ones(count);
    FillMeaning(t, count, Wanted(|h.caches[c]|, restock));
    ProperSubsetSize(t, Ones(count));
  }

  /** Buying a run uses up at most the first extent of the supply. */
  lemma StockFresh(h: Heap, b: Bin, e: Ext, count: nat, supply: seq<Ext>)
    requires BinInv(h) && CanStock(h, b, e, count) && Fresh(h, supply)
    requires h.shelves[Home(h, b)].open == {} ==> supply != [] && e == supply[0]
    ensures var rest := if h.shelves[Home(h, b)].open == {} then supply[1..] else supply;
            Fresh(DoStock(h, b, e, count), rest)
  {
    var h' := DoStock(h, b, e, count);
    var isNew := h.shelves[Home(h, b)].open == {};
    var rest := if isNew then supply[1..] else supply;
    forall i | 0 <= i < |rest| ensures Unused(h', rest[i]) {
      var x := if isNew then supply[i + 1] else supply[i];
      assert rest[i] == x && Unused(h, x);
      assert isNew ==> x != e by { if isNew { assert supply[0] != supply[i + 1]; } }
      assert !isNew ==> e in h.shelves[Home(h, b)].runs && x != e;
      forall s | s in h'.shelves ensures x !in h'.shelves[s].runs { assert x !in h.shelves[s].runs; }
    }
  }

  lemma CanBuy(h: Heap, b: Bin, e: Ext, count: nat, supply: seq<Ext>)
    requires BinInv(h) && b in h.bins && h.bins[b] == map[] && count >= 1 && Fresh(h, supply) && Home(h, b) in h.shelves
    requires Chosen(h, b, e, supply)
    ensures CanStock(h, b, e, count)
  {
    assert Exact(h.shelves[Home(h, b)]);
    if h.shelves[Home(h, b)].open == {} { assert Unused(h, supply[0]); }
  }

  /** An extent of the run bin, or the first of the supply when it has none. */
  ghost predicate Chosen(h: Heap, b: Bin, e: Ext, supply: seq<Ext>) {
    Home(h, b) in h.shelves &&
    if h.shelves[Home(h, b)].open == {} then supply != [] && e == supply[0] else e in h.shelves[Home(h, b)].open
  }

  ghost predicate Stocked(h: Heap, h': Heap, b: Bin, left: seq<Ext>) {
    Inv(h') && Fresh(h', left) && h'.bins.Keys == h.bins.Keys && b in h'.bins && h'.bins[b] != map[]
  }

  lemma Bought(h: Heap, b: Bin, e: Ext, count: nat, supply: seq<Ext>)
    requires Inv(h) && b in h.bins && h.bins[b] == map[] && count >= 1 && Fresh(h, supply) && Chosen(h, b, e, supply)
    ensures CanStock(h, b, e, count)
    ensures Stocked(h, DoStock(h, b, e, count), b, if h.shelves[Home(h, b)].open == {} then supply[1..] else supply)
  {
    CanBuy(h, b, e, count, supply);
    StockInv(h, b, e, count);
    StockFresh(h, b, e, count, supply);
    var h' := DoStock(h, b, e, count);
    assert StockedRun(h, b, e) in h'.bins[b];
  }

  /** No run can be had for the arena bin. */
  ghost predicate NoRun(h: Heap, b: Bin, supply: seq<Ext>) {
    supply == [] && Home(h, b) in h.shelves && h.shelves[Home(h, b)].open == {}
  }

  /** Only cache c changed, by regions added at its end. */
  ghost predicate Appended(before: map<Cache, seq<Region>>, after: map<Cache, seq<Region>>, c: Cache) {
    && after.Keys == before.Keys && c in before && before[c] <= after[c]
    && forall d {:trigger after[d]} | d in before && d != c :: after[d] == before[d]
  }

  lemma BackKeepsCaches(h: Heap, g: Region, caches: map<Cache, seq<Region>>)
    requires CanGiveBack(h, g)
    ensures var h1 := h.(caches := caches); CanGiveBack(h1, g) && GiveBack(h1, g) == GiveBack(h, g).(caches := caches)
  {
    var h1 := h.(caches := caches);
    var b := h.metas[g.run].bin;
    assert Home(h1, b) == Home(h, b) && Holds(h1, Home(h, b), g.run);
    assert BackBits(h1, g) == BackBits(h, g);
  }

  lemma SpillAllocated(h: Heap, c: Cache)
    requires Inv(h) && CanSpill(h, c)
    ensures forall g {:trigger Allocated(DoSpill(h, c), g)} ::
            Allocated(DoSpill(h, c), g) <==> Allocated(h, g) && g != h.caches[c][0]
  {
    forall g ensures Allocated(DoSpill(h, c), g) <==> Allocated(h, g) && g != h.caches[c][0] { SpillParts(h, c, g); }
  }

  /** The cache c was drained up to position k: those regions, and no others, are back. */
  ghost predicate Drained(h0: Heap, h: Heap, c: Cache, k: nat) {
    && c in h0.caches && k <= |h0.caches[c]| && h.caches == h0.caches[c := h0.caches[c][k..]]
    && h.user == h0.user && h.metas == h0.metas && h.bins.Keys == h0.bins.Keys && h.shelves.Keys == h0.shelves.Keys
    && forall g {:trigger Allocated(h, g)} :: Allocated(h, g) <==> Allocated(h0, g) && g !in h0.caches[c][..k]
  }

  lemma DrainStep(h0: Heap, h: Heap, c: Cache, k: nat)
    requires Drained(h0, h, c, k) && Inv(h) && CanSpill(h, c)
    ensures Drained(h0, DoSpill(h, c), c, k + 1)
  {
    SpillAllocated(h, c);
    OneFurther(h0.caches[c], k);
  }

  lemma OneFurther(all: seq<Region>, k: nat)
    requires k < |all|
    ensures all[k..][0] == all[k] && all[k..][1..] == all[k + 1..]
    ensures forall g :: g in all[..k + 1] <==> g in all[..k] || g == all[k]
  {
    assert all[..k + 1] == all[..k] + [all[k]];
  }

  /** The extents in `seen` were recorded or released. */
  ghost function SettleOf(t: Shelf, seen: set<Ext>): Shelf
    requires seen <= t.runs.Keys
  {
    Shelf(t.count,
          map e | e in t.runs && !(e in seen && t.runs[e] == {}) :: t.runs[e],
          set e | e in seen && t.runs[e] != {})
  }

  lemma SettleStep(t: Shelf, todo: set<Ext>, e: Ext)
    requires t.open <= t.runs.Keys && todo <= t.open && e in todo
    ensures var a, b := SettleOf(t, t.open - todo), SettleOf(t, t.open - (todo - {e}));
            e in a.runs && a.runs[e] == t.runs[e] && b ==
              if t.runs[e] != {} then a.(open := a.open + {e}) else a.(runs := a.runs - {e})
  {
    assert t.open - (todo - {e}) == t.open - todo + {e};
  }

  class Allocator {
    const ncases: nat
    var shelves: map<Slot, Shelf>
    var metas: map<Run, Meta>
    var bins: map<Bin, map<Run, set<nat>>>
    var caches: map<Cache, seq<Region>>
    ghost var user: set<Region>

    ghost function State(): Heap
      reads this
    {
      Heap(ncases, shelves, metas, bins, caches, user)
    }

    /** The run bin that serves an arena bin. */
    function HomeOf(b: Bin): Slot {
      Slot(if ncases == 0 then 0 else b.arena % ncases, RunType(b.cls))
    }

    /** select_run on an empty bin: a run from the run bin, which may first need an extent */
    method StockRun(b: Bin, supply: seq<Ext>) returns (left: seq<Ext>)
      requires Inv(State()) && Laid(State()) && Fresh(State(), supply) && b in bins && bins[b] == map[]
      modifies `shelves, `metas, `bins
      ensures if NoRun(old(State()), b, supply) then left == [] && State() == old(State())
              else Stocked(old(State()), State(), b, left) && Laid(State())
    {
      assert Home(State(), b) in shelves;
      var open := shelves[HomeOf(b)].open;
      left := supply;
      var e;
      if open == {} {
        if left == [] {
          return;
        }
        e, left := supply[0], supply[1..];
      } else {
        e :| e in open;
      }
      var count := RegionCount(b.cls);
      Bought(State(), b, e, count, supply);
      StockLaid(State(), b, e, count);
      Place(b, e, count);
    }

    /** The run bin's lowest free run of an extent, with new metadata, becomes the bin's only run. */
    method Place(b: Bin, e: Ext, count: nat)
      requires CanStock(State(), b, e, count) && CountFor(b.cls, count)
      modifies `shelves, `metas, `bins
      ensures State() == DoStock(old(State()), b, e, count)
    {
      assert HomeOf(b) == Home(State(), b);
      var s := shelves[HomeOf(b)];
      if s.open == {} {
        s := Offer(s, e);
      }
      var rid := LeastFrom(s.runs[e], 0, s.count);
      shelves := shelves[HomeOf(b) := Take(s, e, rid)];
      metas := metas[Run(e, rid) := Meta(b, count, false, {})];
      bins := bins[b := map[Run(e, rid) := {}]];
    }

    /** fill_regions on one run of the bin, which is dropped when nothing is left in it */
    method FillFrom(b: Bin, r: Run, c: Cache, restock: nat)
      requires Inv(State()) && CanFill(State(), b, r, c)
      modifies `caches, `bins
      ensures Inv(State()) && State() == DoFill(old(State()), b, r, c, restock)
    {
      FillBins(State(), b, r, c, restock);
      FillOwn(State(), b, r, c, restock);
      var more := Filled(bins[b][r], metas[r].count, Wanted(|caches[c]|, restock));
      var t := bins[b][r] + Elems(more);
      caches := caches[c := caches[c] + RegionsOf(r, more)];
      bins := bins[b := PutBits(bins[b], r, t, metas[r].count)];
    }

    /** One round of fill_cache_bin; false when there are no more runs */
    method FillRound(b: Bin, c: Cache, restock: nat, supply: seq<Ext>) returns (left: seq<Ext>, ok: bool)
      requires Inv(State()) && Laid(State()) && Fresh(State(), supply) && b in bins && c in caches && c.cls == b.cls
      requires |caches[c]| < restock
      modifies `shelves, `metas, `bins, `caches
      ensures Inv(State()) && Laid(State()) && Fresh(State(), left) && bins.Keys == old(bins).Keys
      ensures Appended(old(caches), caches, c)
      ensures if ok then |old(caches)[c]| < |caches[c]| <= restock
              else caches == old(caches) && bins[b] == map[] && NoRun(State(), b, left)
    {
      left := supply;
      if bins[b] == map[] {
        left := StockRun(b, left);
        if bins[b] == map[] {
          return left, false;
        }
      }
      FillFromAny(b, c, restock);
      ok := true;
    }

    /** Regions of some run of the arena bin go to the cache. */
    method FillFromAny(b: Bin, c: Cache, restock: nat)
      requires Inv(State()) && Laid(State()) && b in bins && bins[b] != map[]
      requires c in caches && c.cls == b.cls && |caches[c]| < restock
      modifies `bins, `caches
      ensures Inv(State()) && Laid(State()) && bins.Keys == old(bins).Keys && Appended(old(caches), caches, c)
      ensures |old(caches)[c]| < |caches[c]| <= restock
    {
      var r :| r in bins[b];
      assert EntryOk(State(), b, r);
      PouredSome(State(), b, r, c, restock);
      NextLaid(State(), Fill(b, r, c, restock));
      FillFrom(b, r, c, restock);
    }

    /** fill_cache_bin: restock a cache bin from an arena bin, run after run */
    method FillCacheBin(b: Bin, c: Cache, restock: nat, supply: seq<Ext>) returns (left: seq<Ext>)
      requires Inv(State()) && Laid(State()) && Fresh(State(), supply) && b in bins && c in caches && c.cls == b.cls
      modifies `shelves, `metas, `bins, `caches
      ensures Inv(State()) && Laid(State()) && Fresh(State(), left) && bins.Keys == old(bins).Keys
      ensures Appended(old(caches), caches, c)
      ensures |caches[c]| <= (if |old(caches)[c]| < restock then restock else |old(caches)[c]|)
      ensures |caches[c]| < restock ==> bins[b] == map[] && NoRun(State(), b, left)
    {
      left := supply;
      while |caches[c]| < restock
        invariant Inv(State()) && Laid(State()) && Fresh(State(), left) && bins.Keys == old(bins).Keys
                  && Appended(old(caches), caches, c)
        invariant |caches[c]| == |old(caches)[c]| || |caches[c]| <= restock
        decreases restock - |caches[c]|
      {
        var ok;
        left, ok := FillRound(b, c, restock, left);
        if !ok {
          break;
        }
      }
    }

    /** CacheBin::acquire: a region that nobody has, or none when neither cache, arena bin nor run bin can give one */
    method Acquire(arena: nat, c: Cache, stock: nat, supply: seq<Ext>)
        returns (g: Option<Region>, left: seq<Ext>)
      requires Inv(State()) && Laid(State()) && Fresh(State(), supply) && Bin(arena, c.cls) in bins && c in caches
      requires stock >= 1
      modifies this
      ensures Inv(State()) && Laid(State()) && Fresh(State(), left)
      ensures g.Some? ==> g.value !in old(user) && user == old(user) + {g.value}
      ensures g.Some? ==> g.value.run in metas && metas[g.value.run].bin.cls == c.cls
      ensures g.Some? ==> g.value.ind !in metas[g.value.run].busy
      ensures g.None? ==> user == old(user) && old(caches)[c] == [] && NoRun(State(), Bin(arena, c.cls), left)
    {
      left := supply;
      if caches[c] == [] {
        left := FillCacheBin(Bin(arena, c.cls), c, stock, supply);
        if caches[c] == [] {
          return None, left;
        }
      }
      var front := TakeFront(c);
      g := Some(front);
    }

    /** ThreadCache::acquire up to the medium limit: a region of the least class that holds the request. */
    method AcquireSize(arena: nat, thread: nat, size: nat, stock: nat, supply: seq<Ext>)
        returns (g: Option<Region>, left: seq<Ext>)
      requires Inv(State()) && Laid(State()) && Fresh(State(), supply) && stock >= 1 && size <= MAX_MEDIUM
      requires size > 0 ==> Bin(arena, ToIndex(size)) in bins && Cache(thread, ToIndex(size)) in caches
      modifies this
      ensures Inv(State()) && Laid(State()) && Fresh(State(), left)
      ensures size == 0 ==> g.None? && State() == old(State())
      ensures g.Some? ==> g.value !in old(user) && user == old(user) + {g.value} && g.value.run in metas
      ensures g.Some? ==> SizeOf(metas[g.value.run]) >= size
      ensures g.Some? ==> forall cls | 0 <= cls < metas[g.value.run].bin.cls :: ToSize(cls) < size
    {
      if size == 0 {
        return None, supply;
      }
      var cls := ToIndex(size);
      LeastClass(size);
      forall k | 0 <= k < cls ensures ToSize(k) < size { Galois(size, k); }
      g, left := Acquire(arena, Cache(thread, cls), stock, supply);
    }

    /** The region at the front of a cache bin goes to the user. */
    method TakeFront(c: Cache) returns (g: Region)
      requires Inv(State()) && Laid(State()) && c in caches && caches[c] != []
      modifies `user, `caches
      ensures Inv(State()) && Laid(State()) && g !in old(user) && user == old(user) + {g}
      ensures g.run in metas && metas[g.run].bin.cls == c.cls && g.ind !in metas[g.run].busy
    {
      g := caches[c][0];
      NextLaid(State(), Pop(c));
      PopIsFresh(State(), c);
      PopInv(State(), c);
      assert InCache(State(), g, c) && CachedOk(State(), c, g);
      user := user + {g};
      caches := caches[c := caches[c][1..]];
    }

    /** The user sets the token of a region that it has. */
    method Publish(g: Region)
      requires Inv(State()) && g in user
      modifies `metas
      ensures Inv(State()) && g.run in old(metas) && State() == DoPublish(old(State()), g)
      ensures Laid(old(State())) ==> Laid(State())
    {
      assert Allocated(State(), g);
      if Laid(State()) { NextLaid(State(), SlabHeap.Step.Publish(g)); }
      PublishInv(State(), g);
      metas := metas[g.run := metas[g.run].(busy := metas[g.run].busy + {g.ind})];
    }

    /** ArenaBin::release, with the run bin's release of a run that is entirely free */
    method ReturnRegion(g: Region)
      requires CanGiveBack(State(), g)
      modifies `bins, `shelves
      ensures State() == GiveBack(old(State()), g)
    {
      var b := metas[g.run].bin;
      var bits := bins[b];
      var found := g.run in bits;
      if !found {
        bits := bits[g.run := Ones(metas[g.run].count)];   // this run has been handed out entirely
      }
      bits := bits[g.run := bits[g.run] - {g.ind}];
      assert bits == BackBits(State(), g);
      assert HomeOf(b) == Home(State(), b);
      if bits[g.run] == {} && |bits| > RUN_HOLD {
        bits := bits - {g.run};
        shelves := shelves[HomeOf(b) := Give(shelves[HomeOf(b)], g.run.ext, g.run.rid)];
      }
      bins := bins[b := bits];
    }

    /** spill_front */
    method SpillFront(c: Cache)
      requires Inv(State()) && c in caches && caches[c] != []
      modifies `caches, `bins, `shelves
      ensures Inv(State()) && CanSpill(old(State()), c) && State() == DoSpill(old(State()), c)
    {
      SpillCan(State(), c);
      SpillInv(State(), c);
      var g := caches[c][0];
      BackKeepsCaches(State(), g, caches[c := caches[c][1..]]);
      caches := caches[c := caches[c][1..]];
      ReturnRegion(g);
    }

    method SpillNext(c: Cache, ghost h0: Heap, ghost k: nat)
      requires Inv(State()) && Drained(h0, State(), c, k) && c in caches && caches[c] != []
      modifies `caches, `bins, `shelves
      ensures Inv(State()) && Drained(h0, State(), c, k + 1) && (Laid(old(State())) ==> Laid(State()))
    {
      SpillCan(State(), c);
      if Laid(State()) { SpillLaid(State(), c); }
      DrainStep(h0, State(), c, k);
      SpillFront(c);
    }

    /** spill_cache_bin: a full cache bin drains its oldest regions to one below the stock */
    method SpillCacheBin(c: Cache, capacity: nat, stock: nat) returns (ghost k: nat)
      requires Inv(State()) && c in caches && 1 <= stock
      modifies `caches, `bins, `shelves
      ensures Inv(State()) && Drained(old(State()), State(), c, k) && (Laid(old(State())) ==> Laid(State()))
      ensures var n := |old(caches)[c]|; k == if n < capacity || n < stock then 0 else n - (stock - 1)
    {
      k := 0;
      assert caches[c][0..] == caches[c];
      if |caches[c]| >= capacity {
        while |caches[c]| >= stock
          invariant Inv(State()) && Drained(old(State()), State(), c, k) && (Laid(old(State())) ==> Laid(State()))
          invariant k > 0 ==> |caches[c]| >= stock - 1
          decreases |caches[c]|
        {
          SpillNext(c, old(State()), k);
          k := k + 1;
        }
      }
    }

    /** ThreadCache::*_release: the token is cleared and the region goes to the cache bin of its class */
    method Release(c: Cache, g: Region, capacity: nat, stock: nat)
      requires Inv(State()) && g in user && c in caches && 1 <= stock
      requires g.run in metas && metas[g.run].bin.cls == c.cls
      modifies this
      ensures Inv(State()) && user == old(user) - {g} && (Laid(old(State())) ==> Laid(State()))
      ensures metas == old(metas)[g.run := old(metas)[g.run].(busy := old(metas)[g.run].busy - {g.ind})]
    {
      FreeInv(State(), c, g);
      if Laid(State()) { NextLaid(State(), Free(c, g)); }
      metas := metas[g.run := metas[g.run].(busy := metas[g.run].busy - {g.ind})];
      caches := caches[c := caches[c] + [g]];
      user := user - {g};
      ghost var k := SpillCacheBin(c, capacity, stock);
    }

    /** ~CacheBin: every cached region goes back to its run */
    method DrainCache(c: Cache)
      requires Inv(State()) && c in caches
      modifies `caches, `bins, `shelves
      ensures Inv(State()) && Drained(old(State()), State(), c, |old(caches)[c]|)
    {
      ghost var k := 0;
      assert caches[c][0..] == caches[c];
      while caches[c] != []
        invariant Inv(State()) && Drained(old(State()), State(), c, k)
        decreases |caches[c]|
      {
        SpillNext(c, old(State()), k);
        k := k + 1;
      }
    }

    /** Destroying the thread caches */
    method DrainCaches()
      requires Inv(State())
      modifies `caches, `bins, `shelves
      ensures Inv(State()) && NoCached(State())
    {
      var todo := caches.Keys;
      while todo != {}
        invariant Inv(State()) && todo <= caches.Keys
        invariant forall c {:trigger caches[c]} | c in caches && c !in todo :: caches[c] == []
        decreases |todo|
      {
        var c :| c in todo;
        DrainCache(c);
        todo := todo - {c};
      }
    }

    /** ~ArenaBin on one entry */
    method CloseEntry(b: Bin, r: Run)
      requires CanClose(State(), b, r)
      modifies `bins, `shelves, `metas
      ensures State() == CloseRun(old(State()), b, r)
    {
      assert HomeOf(b) == Home(State(), b);
      var release := bins[b][r] == {};
      if release {
        shelves := shelves[HomeOf(b) := Give(shelves[HomeOf(b)], r.ext, r.rid)];
      } else {
        shelves := shelves[HomeOf(b) := Inform(shelves[HomeOf(b)], r.ext)];
        metas := metas[r := metas[r].(polluted := true)];
      }
      bins := bins[b := bins[b] - {r}];
    }

    /** ~ArenaBin */
    method CloseBin(b: Bin, ghost h0: Heap, ghost done: set<Run>) returns (ghost done': set<Run>)
      requires BinInv(h0) && ClosedUpTo(h0, State(), done) && b in bins
      modifies `bins, `shelves, `metas
      ensures ClosedUpTo(h0, State(), done') && bins == old(bins)[b := map[]]
    {
      done' := done;
      while bins[b] != map[]
        invariant ClosedUpTo(h0, State(), done') && b in bins && bins == old(bins)[b := bins[b]]
        decreases |bins[b]|
      {
        var r :| r in bins[b];
        CloseStep(h0, State(), done', b, r);
        CloseEntry(b, r);
        done' := done' + {r};
      }
    }

    /** Destroying the arenas */
    method CloseArenas() returns (ghost done: set<Run>)
      requires BinInv(State())
      modifies `bins, `shelves, `metas
      ensures ClosedUpTo(old(State()), State(), done) && Emptied(State())
    {
      CloseStart(State());
      done := {};
      var todo := bins.Keys;
      while todo != {}
        invariant ClosedUpTo(old(State()), State(), done) && todo <= bins.Keys
        invariant forall b {:trigger bins[b]} | b in bins && b !in todo :: bins[b] == map[]
        decreases |todo|
      {
        var b :| b in todo;
        done := CloseBin(b, old(State()), done);
        todo := todo - {b};
      }
      forall b | b in State().bins ensures State().bins[b] == map[] { assert bins[b] == map[]; }
    }

    /** ~RunBin: a busy extent is recorded and stays, another one is released */
    method CloseShelf(s: Slot)
      requires s in shelves && shelves[s].open <= shelves[s].runs.Keys
      modifies `shelves
      ensures shelves == old(shelves)[s := Settle(old(shelves)[s])]
    {
      var t := shelves[s];
      var runs, recorded, todo := t.runs, {}, t.open;
      while todo != {}
        invariant shelves == old(shelves) && todo <= t.open
                  && Shelf(t.count, runs, recorded) == SettleOf(t, t.open - todo)
        decreases |todo|
      {
        var e :| e in todo;
        if runs[e] != {} {
          recorded := recorded + {e};
        } else {
          runs := runs - {e};
        }
        SettleStep(t, todo, e);
        todo := todo - {e};
      }
      assert t.open - todo == t.open;
      assert Shelf(t.count, runs, recorded) == Settle(t);
      shelves := shelves[s := Shelf(t.count, runs, recorded)];
    }

    /** Destroying the run cases */
    method CloseRunBins()
      requires forall s | s in shelves :: shelves[s].open <= shelves[s].runs.Keys
      modifies `shelves
      ensures Settled(old(State()), State())
    {
      var todo := shelves.Keys;
      while todo != {}
        invariant todo <= shelves.Keys == old(shelves).Keys
        invariant forall s {:trigger shelves[s]} | s in shelves ::
                    shelves[s] == if s in todo then old(shelves)[s] else Settle(old(shelves)[s])
        decreases |todo|
      {
        var s :| s in todo;
        CloseShelf(s);
        todo := todo - {s};
      }
      forall s ensures SettledShelf(old(State()), State(), s) {}
    }

    /** ~AllocatorDetail: thread caches, then arenas, then run cases; h is the pool with its caches drained */
    method Close() returns (ghost h: Heap)
      requires Inv(State())
      modifies this
      ensures Inv(h) && NoCached(h) && h.user == old(user) && h.metas == old(metas) && Closed(h, State())
    {
      DrainCaches();
      h := State();
      ghost var done := CloseArenas();
      ghost var a := State();
      forall s | s in shelves ensures shelves[s].open <= shelves[s].runs.Keys { assert ClosedShelf(h, a, s); }
      CloseRunBins();
      assert ClosedUpTo(h, a, done) && Emptied(a) && Settled(a, State());
    }

    /** small_reboot and medium_reboot: the extent to its run bin, its marked runs to their arena bins */
    method RebootExtent(s: Slot, e: Ext, ghost h: Heap, ghost exts: set<Ext>, ghost done: set<Run>)
        returns (ghost done': set<Run>)
      requires Filed(h) && Rebooted(h, State(), exts, done) && s in h.shelves && e in h.shelves[s].open && e !in exts
      modifies `bins, `shelves, `metas
      ensures Rebooted(h, State(), exts + {e}, done') && done <= done'
      ensures forall rid: nat | rid < h.shelves[s].count :: Run(e, rid) in done'
    {
      ReloadStep(h, State(), exts, done, s, e);
      shelves := shelves[s := Reloaded(shelves[s], e, shelves[s].runs[e])];
      assert WokenShelf(h, State(), exts + {e}, s);
      done' := done;
      for rid := 0 to shelves[s].count
        invariant Rebooted(h, State(), exts + {e}, done') && done <= done' && s in shelves
        invariant forall i: nat | i < rid :: Run(e, i) in done'
      {
        RebootRun(s, Run(e, rid), h, exts + {e}, done');
        done' := done' + {Run(e, rid)};
      }
    }

    method RebootRun(s: Slot, r: Run, ghost h: Heap, ghost exts: set<Ext>, ghost done: set<Run>)
      requires Filed(h) && Rebooted(h, State(), exts, done) && s in h.shelves && r.ext in h.shelves[s].open
      modifies `bins, `metas
      ensures Rebooted(h, State(), exts, done + {r})
    {
      assert WokenShelf(h, State(), exts, s);
      if r.rid in shelves[s].runs[r.ext] {
        WakeStep(h, State(), exts, done, s, r);
        if metas[r].polluted {
          var m := metas[r];
          bins := bins[m.bin := bins[m.bin][r := m.busy]];
          metas := metas[r := m.(polluted := false)];
        }
      } else {
        SkipStep(h, State(), exts, done, s, r);
      }
    }

    /** Reboot one run bin's recorded extents. */
    method RebootShelf(s: Slot, recorded: set<Ext>, ghost h: Heap, ghost exts: set<Ext>, ghost done: set<Run>)
      returns (ghost exts': set<Ext>, ghost done': set<Run>)
      requires Filed(h) && Rebooted(h, State(), exts, done) && s in h.shelves && recorded == h.shelves[s].open
               && recorded !! exts
      modifies `bins, `shelves, `metas
      ensures Rebooted(h, State(), exts', done') && exts' == exts + recorded && done <= done'
      ensures forall e, rid: nat | e in recorded && rid < h.shelves[s].count :: Run(e, rid) in done'
    {
      exts', done' := exts, done;
      var todo := recorded;
      while todo != {}
        invariant Rebooted(h, State(), exts', done') && todo <= recorded && exts' == exts + (recorded - todo)
                  && done <= done'
        invariant forall e, rid: nat | e in recorded - todo && rid < h.shelves[s].count :: Run(e, rid) in done'
        decreases |todo|
      {
        var e :| e in todo;
        done' := RebootExtent(s, e, h, exts', done');
        exts' := exts' + {e};
        todo := todo - {e};
      }
    }

    method RebootShelves(records: map<Slot, set<Ext>>, ghost h0: Heap, ghost h: Heap)
      returns (ghost exts: set<Ext>, ghost done: set<Run>)
      requires BinInv(h0) && Closed(h0, h) && Filed(h) && Rebooted(h, State(), {}, {})
      requires records == map s | s in h.shelves :: h.shelves[s].open
      modifies `bins, `shelves, `metas
      ensures Rebooted(h, State(), exts, done) && AllReloaded(h, exts, done)
    {
      exts, done := {}, {};
      var todo := records.Keys;
      while todo != {}
        invariant Rebooted(h, State(), exts, done) && todo <= h.shelves.Keys
        invariant forall s {:trigger Turn(h, exts, done, todo, s)} :: Turn(h, exts, done, todo, s)
        decreases |todo|
      {
        var s :| s in todo;
        assert Turn(h, exts, done, todo, s);
        ghost var exts0, done0 := exts, done;
        exts, done := RebootShelf(s, records[s], h, exts, done);
        forall t ensures Turn(h, exts, done, todo - {s}, t) {
          assert OneShelf(h, s, t) && Turn(h, exts0, done0, todo, t);
        }
        todo := todo - {s};
      }
      forall s | s in h.shelves ensures ShelfDone(h, exts, done, s) { assert Turn(h, exts, done, todo, s); }
      AllDone(h0, h, exts, done);
    }

    /**
      AllocatorDetail::open on an orderly closed pool: new, empty run bins and arena bins, then every
      recorded extent
     */
    method Reboot(ghost h0: Heap)
      requires Inv(h0) && NoCached(h0) && Closed(h0, State())
      modifies this
      ensures Inv(State()) && NoCached(State())
      ensures user == (set g | g in h0.user && Survives(h0, g))
      ensures forall g {:trigger Allocated(State(), g)} :: Allocated(State(), g) <==> g in user
    {
      ghost var h := State();
      ClosedFiled(h0, h);
      var records := map s | s in shelves :: shelves[s].open;
      shelves := map s | s in shelves :: shelves[s].(open := {});
      RebootStart(h, State());
      ghost var exts, done := RebootShelves(records, h0, h);
      ReopenInv(h0, h, State(), exts, done);
      ClosedRun(h0, h, Run(0, 0));
      user := set g | g in h0.user && Survives(h0, g);
    }

    /**
      An orderly close and the reboot after it: the user keeps what was published and what is in runs held
      entirely.
     */
    method CloseAndReboot()
      requires Inv(State())
      modifies this
      ensures Inv(State()) && NoCached(State())
      ensures forall g {:trigger Allocated(State(), g)} :: Allocated(State(), g) <==> g in user
      ensures forall g {:trigger g in user} ::
                g in user <==> g in old(user) && g.run in old(metas)
                               && (g.ind in old(metas)[g.run].busy || WhollyHeld(old(State()), g.run))
    {
      ghost var h0 := Close();
      forall g | g in h0.user ensures g.run in h0.metas && (HalfUsed(h0, g.run) <==> !WhollyHeld(old(State()), g.run)) {
        HalfUsedIff(h0, g);
      }
      Reboot(h0);
    }
  }

  /** The recorded extents of one run bin are reloaded, and all their runs were looked at. */
  ghost predicate ShelfDone(h: Heap, exts: set<Ext>, done: set<Run>, s: Slot) {
    s in h.shelves ==>
      && h.shelves[s].open <= exts
      && forall e, rid: nat {:trigger Run(e, rid)} | e in h.shelves[s].open && rid < h.shelves[s].count ::
         Run(e, rid) in done
  }

  ghost predicate Turn(h: Heap, exts: set<Ext>, done: set<Run>, todo: set<Slot>, s: Slot) {
    s in h.shelves ==> if s in todo then h.shelves[s].open !! exts else ShelfDone(h, exts, done, s)
  }

  lemma RebootStart(h: Heap, h': Heap)
    requires Filed(h) && h' == h.(shelves := map s | s in h.shelves :: h.shelves[s].(open := {}))
    ensures Rebooted(h, h', {}, {})
  {
    forall r ensures WokenMeta(h, h', {}, r) {}
    forall b, r ensures WokenBin(h, h', {}, b, r) { assert b in h.bins ==> h.bins[b] == map[]; }
    forall s ensures WokenShelf(h, h', {}, s) {}
  }

  lemma AllDone(h0: Heap, h: Heap, exts: set<Ext>, done: set<Run>)
    requires BinInv(h0) && Closed(h0, h)
    requires forall s {:trigger ShelfDone(h, exts, done, s)} | s in h.shelves :: ShelfDone(h, exts, done, s)
    ensures AllReloaded(h, exts, done)
  {
    forall s, e | s in h.shelves && e in h.shelves[s].open ensures e in exts { assert ShelfDone(h, exts, done, s); }
    forall s, r | Holds(h, s, r) && r.ext in h.shelves[s].open ensures r in done {
      ClosedShelfIs(h0, h, s);
      assert ShelfDone(h, exts, done, s);
      assert r.rid in Ones(h.shelves[s].count) && Run(r.ext, r.rid) == r;
    }
  }
}
