/**
  The slab hierarchy: thread caches over arena bins over run bins over extents.  One step is what the
  source does under one bin's lock, together with the locks taken inside it.
 */
module SlabHeap {
  import opened Basics
  import opened RunBits
  import opened RunBin
  import opened RunSizes

  const RUN_HOLD: nat := 1

  datatype Run = Run(ext: Ext, rid: nat)
  datatype Region = Region(run: Run, ind: nat)
  datatype Bin = Bin(arena: nat, cls: nat)        // an arena's bin for one size class
  datatype Slot = Slot(rcase: nat, rbid: nat)     // a run case's bin for one run size
  datatype Cache = Cache(thread: nat, cls: nat)   // a thread's cache bin for one size class

  /** A run's metadata: the arena bin it was constructed for, and its tokens. */
  datatype Meta = Meta(bin: Bin, count: nat, polluted: bool, busy: set<nat>)

  datatype Heap = Heap(
    ncases: nat,
    shelves: map<Slot, Shelf>,
    metas: map<Run, Meta>,
    bins: map<Bin, map<Run, set<nat>>>,
    caches: map<Cache, seq<Region>>,
    user: set<Region>)

  /** The run bin that serves an arena bin. */
  function Home(h: Heap, b: Bin): Slot {
    Slot(if h.ncases == 0 then 0 else b.arena % h.ncases, RunType(b.cls))
  }

  ghost predicate Holds(h: Heap, s: Slot, r: Run) {
    s in h.shelves && r.ext in h.shelves[s].runs && r.rid in h.shelves[s].runs[r.ext]
  }

  /** A run is in use. */
  ghost predicate Live(h: Heap, r: Run) {
    r in h.metas && Holds(h, Home(h, h.metas[r].bin), r)
  }

  /** The regions of a run that left it: a run that is in no arena bin is handed out entirely. */
  ghost function Taken(h: Heap, r: Run): set<nat>
    requires r in h.metas
  {
    var m := h.metas[r];
    if m.bin in h.bins && r in h.bins[m.bin] then h.bins[m.bin][r] else Ones(m.count)
  }

  ghost predicate Allocated(h: Heap, g: Region) {
    Live(h, g.run) && g.ind in Taken(h, g.run)
  }

  ghost predicate InCache(h: Heap, g: Region, c: Cache) {
    c in h.caches && g in h.caches[c]
  }

  // The invariant

  ghost predicate OneShelf(h: Heap, s: Slot, t: Slot) {
    s in h.shelves && t in h.shelves && s != t ==> h.shelves[s].runs.Keys !! h.shelves[t].runs.Keys
  }

  ghost predicate RunOk(h: Heap, r: Run) {
    Live(h, r) ==>
      var m := h.metas[r];
      m.bin in h.bins && m.count >= 1 && m.busy <= Ones(m.count) && !m.polluted
  }

  ghost predicate EntryOk(h: Heap, b: Bin, r: Run) {
    b in h.bins && r in h.bins[b] ==> Live(h, r) && h.metas[r].bin == b && h.bins[b][r] < Ones(h.metas[r].count)
  }

  /** Bins, bitmaps and metadata agree. */
  ghost predicate BinInv(h: Heap) {
    && (forall s {:trigger h.shelves[s]} | s in h.shelves :: Exact(h.shelves[s]))
    && (forall s, t {:trigger OneShelf(h, s, t)} :: OneShelf(h, s, t))
    && (forall s, r {:trigger Holds(h, s, r)} | Holds(h, s, r) :: r in h.metas && Home(h, h.metas[r].bin) == s)
    && (forall r {:trigger RunOk(h, r)} :: RunOk(h, r))
    && (forall b, r {:trigger EntryOk(h, b, r)} :: EntryOk(h, b, r))
    && (forall b {:trigger Home(h, b)} | b in h.bins :: Home(h, b) in h.shelves)
  }

  /** A cached region is handed out, not used, and of the cache's size class. */
  ghost predicate CachedOk(h: Heap, c: Cache, g: Region) {
    InCache(h, g, c) ==>
      && Allocated(h, g) && g !in h.user
      && h.metas[g.run].bin.cls == c.cls && g.ind !in h.metas[g.run].busy
  }

  ghost predicate OnceIn(h: Heap, c: Cache) {
    c in h.caches ==> forall i, j | 0 <= i < j < |h.caches[c]| :: h.caches[c][i] != h.caches[c][j]
  }

  ghost predicate OneCache(h: Heap, g: Region, c: Cache, d: Cache) {
    InCache(h, g, c) && InCache(h, g, d) ==> c == d
  }

  ghost predicate Accounted(h: Heap, g: Region) {
    Allocated(h, g) ==> g in h.user || exists c :: InCache(h, g, c)
  }

  ghost predicate TokenOk(h: Heap, r: Run, i: nat) {
    Live(h, r) && i in h.metas[r].busy ==> Region(r, i) in h.user
  }

  /** Every region that left its run is with the user or in one place of one cache. */
  ghost predicate OwnInv(h: Heap) {
    && (forall g {:trigger g in h.user} | g in h.user :: Allocated(h, g))
    && (forall c, g {:trigger CachedOk(h, c, g)} :: CachedOk(h, c, g))
    && (forall c {:trigger OnceIn(h, c)} :: OnceIn(h, c))
    && (forall g, c, d {:trigger OneCache(h, g, c, d)} :: OneCache(h, g, c, d))
    && (forall g {:trigger Accounted(h, g)} :: Accounted(h, g))
    && (forall r, i {:trigger TokenOk(h, r, i)} :: TokenOk(h, r, i))
  }

  ghost predicate Inv(h: Heap) {
    BinInv(h) && OwnInv(h)
  }

  // The steps

  datatype Step =
    | Stock(b: Bin, e: Ext, count: nat)   // select_run: an empty arena bin gets a run
    | Fill(b: Bin, r: Run, c: Cache, restock: nat)
    | Pop(c: Cache)
    | Publish(g: Region)
    | Free(c: Cache, g: Region)
    | Spill(c: Cache)

  /** The shelf the run is taken from: with a new extent when it has none. */
  function Ready(h: Heap, b: Bin, e: Ext): Shelf
    requires Home(h, b) in h.shelves
  {
    var s := h.shelves[Home(h, b)];
    if s.open == {} then Offer(s, e) else s
  }

  ghost predicate Unused(h: Heap, e: Ext) {
    forall s {:trigger h.shelves[s]} | s in h.shelves :: e !in h.shelves[s].runs
  }

  ghost predicate CanStock(h: Heap, b: Bin, e: Ext, count: nat) {
    && b in h.bins && h.bins[b] == map[] && Home(h, b) in h.shelves && count >= 1
    && (h.shelves[Home(h, b)].open == {} ==> Unused(h, e))
    && e in Ready(h, b, e).open && e in Ready(h, b, e).runs
  }

  function StockedRun(h: Heap, b: Bin, e: Ext): Run
    requires Home(h, b) in h.shelves && e in Ready(h, b, e).runs
  {
    Run(e, LeastFrom(Ready(h, b, e).runs[e], 0, Ready(h, b, e).count))
  }

  function DoStock(h: Heap, b: Bin, e: Ext, count: nat): Heap
    requires Home(h, b) in h.shelves && e in Ready(h, b, e).runs
  {
    var r := StockedRun(h, b, e);
    h.(shelves := h.shelves[Home(h, b) := Take(Ready(h, b, e), e, r.rid)],
       metas := h.metas[r := Meta(b, count, false, {})],
       bins := h.bins[b := map[r := {}]])
  }

  ghost predicate CanFill(h: Heap, b: Bin, r: Run, c: Cache) {
    b in h.bins && r in h.bins[b] && r in h.metas && c in h.caches && c.cls == b.cls
  }

  function Wanted(have: nat, restock: nat): nat {
    if have < restock then restock - have else 0
  }

  function RegionsOf(r: Run, inds: seq<nat>): (gs: seq<Region>)
    ensures |gs| == |inds| && forall i | 0 <= i < |inds| :: gs[i] == Region(r, inds[i])
  {
    if inds == [] then [] else RegionsOf(r, inds[..|inds| - 1]) + [Region(r, inds[|inds| - 1])]
  }

  function Poured(h: Heap, b: Bin, r: Run, c: Cache, restock: nat): seq<nat>
    requires b in h.bins && r in h.bins[b] && r in h.metas && c in h.caches
  {
    Filled(h.bins[b][r], h.metas[r].count, Wanted(|h.caches[c]|, restock))
  }

  /** The entry of a run in its bin: dropped when nothing is left in the run. */
  function PutBits(bits: map<Run, set<nat>>, r: Run, t: set<nat>, count: nat): map<Run, set<nat>> {
    if t == Ones(count) then bits - {r} else bits[r := t]
  }

  ghost function DoFill(h: Heap, b: Bin, r: Run, c: Cache, restock: nat): Heap
    requires CanFill(h, b, r, c)
  {
    var more := Poured(h, b, r, c, restock);
    h.(caches := h.caches[c := h.caches[c] + RegionsOf(r, more)],
       bins := h.bins[b := PutBits(h.bins[b], r, h.bins[b][r] + Elems(more), h.metas[r].count)])
  }

  ghost predicate CanPop(h: Heap, c: Cache) {
    c in h.caches && h.caches[c] != []
  }

  ghost function DoPop(h: Heap, c: Cache): Heap
    requires CanPop(h, c)
  {
    h.(caches := h.caches[c := h.caches[c][1..]], user := h.user + {h.caches[c][0]})
  }

  /** The user sets the region's token. */
  ghost function DoPublish(h: Heap, g: Region): Heap
    requires g.run in h.metas
  {
    var m := h.metas[g.run];
    h.(metas := h.metas[g.run := m.(busy := m.busy + {g.ind})])
  }

  ghost predicate CanFree(h: Heap, c: Cache, g: Region) {
    c in h.caches && g in h.user && g.run in h.metas && h.metas[g.run].bin.cls == c.cls
  }

  ghost function DoFree(h: Heap, c: Cache, g: Region): Heap
    requires CanFree(h, c, g)
  {
    var m := h.metas[g.run];
    h.(metas := h.metas[g.run := m.(busy := m.busy - {g.ind})],
       caches := h.caches[c := h.caches[c] + [g]],
       user := h.user - {g})
  }

  ghost predicate CanGiveBack(h: Heap, g: Region) {
    g.run in h.metas && h.metas[g.run].bin in h.bins && Holds(h, Home(h, h.metas[g.run].bin), g.run)
  }

  /** The arena bin's entries after a region came back to its run. */
  ghost function BackBits(h: Heap, g: Region): (bits: map<Run, set<nat>>)
    requires CanGiveBack(h, g)
    ensures g.run in bits
  {
    h.bins[h.metas[g.run].bin][g.run := Taken(h, g.run) - {g.ind}]
  }

  /** The run is entirely free and not the only one in its bin. */
  ghost predicate RunLeaves(h: Heap, g: Region)
    requires CanGiveBack(h, g)
  {
    BackBits(h, g)[g.run] == {} && |BackBits(h, g)| > RUN_HOLD
  }

  ghost function GiveBack(h: Heap, g: Region): Heap
    requires CanGiveBack(h, g)
  {
    var b, bits := h.metas[g.run].bin, BackBits(h, g);
    var s := Home(h, b);
    if RunLeaves(h, g) then
      h.(bins := h.bins[b := bits - {g.run}], shelves := h.shelves[s := Give(h.shelves[s], g.run.ext, g.run.rid)])
    else h.(bins := h.bins[b := bits])
  }

  ghost predicate CanSpill(h: Heap, c: Cache) {
    c in h.caches && h.caches[c] != [] && CanGiveBack(h, h.caches[c][0])
  }

  /** A region returns to its run; a run that is entirely free leaves its bin, unless it is the only one. */
  ghost function DoSpill(h: Heap, c: Cache): Heap
    requires CanSpill(h, c)
  {
    GiveBack(h, h.caches[c][0]).(caches := h.caches[c := h.caches[c][1..]])
  }

  ghost predicate Can(h: Heap, step: Step) {
    match step
    case Stock(b, e, count) => CanStock(h, b, e, count) && CountFor(b.cls, count)
    case Fill(b, r, c, _) => CanFill(h, b, r, c)
    case Pop(c) => CanPop(h, c)
    case Publish(g) => g in h.user && g.run in h.metas
    case Free(c, g) => CanFree(h, c, g)
    case Spill(c) => CanSpill(h, c)
  }

  ghost function Next(h: Heap, step: Step): Heap
    requires Can(h, step)
  {
    match step
    case Stock(b, e, count) => DoStock(h, b, e, count)
    case Fill(b, r, c, restock) => DoFill(h, b, r, c, restock)
    case Pop(c) => DoPop(h, c)
    case Publish(g) => DoPublish(h, g)
    case Free(c, g) => DoFree(h, c, g)
    case Spill(c) => DoSpill(h, c)
  }
}
