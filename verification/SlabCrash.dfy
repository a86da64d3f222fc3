/**
  What persistent memory holds of bitmaps, run metadata and tokens while threads acquire and release
  runs and publish and free regions, store by store.

  Every location keeps its durable value and the values stored to it since; a crash leaves, of each
  location on its own, the durable value or one of the others.  That is more than cache lines allow, so
  what holds here holds of them.  A location becomes durable when its line is written back, by the
  thread that waits for it or by the cache on its own; waiting for a write-back is a guard of the step
  that comes after it.
 */
module SlabCrash {
  import opened Basics
  import opened RunBits
  import opened RunBin
  import opened SlabHeap
  import opened SlabHeapProof

  type Thread = nat

  datatype Loc = Bits(e: Ext) | Size(r: Run) | Arena(r: Run) | Count(r: Run) | Mark(r: Run) | Token(r: Run, i: nat)

  datatype Val = Num(n: nat) | Runs(runs: set<nat>)

  datatype Write = Write(loc: Loc, val: Val)

  /** What a thread is in the middle of; it holds the run bin's lock, and the arena bin's. */
  datatype Act =
    | Idle
    | Build(b: Bin, e: Ext, rid: nat, count: nat, todo: set<Write>)
    | Sealing(b: Bin, e: Ext, rid: nat)    // the bit is set
    | Clearing(b: Bin, e: Ext, rid: nat)   // the bit is cleared

  datatype State = State(h: Heap, base: map<Loc, Val>, log: seq<Write>, acts: map<Thread, Act>)

  function Read(m: map<Loc, Val>, loc: Loc): Val {
    if loc in m then m[loc] else Num(0)
  }

  /** What a load sees. */
  function Latest(m: map<Loc, Val>, log: seq<Write>, loc: Loc): Val {
    if log == [] then Read(m, loc)
    else if log[|log| - 1].loc == loc then log[|log| - 1].val
    else Latest(m, log[..|log| - 1], loc)
  }

  function Now(s: State, loc: Loc): Val {
    Latest(s.base, s.log, loc)
  }

  ghost predicate Pending(s: State, loc: Loc) {
    exists w :: w in s.log && w.loc == loc
  }

  ghost predicate CrashImage(s: State, im: map<Loc, Val>) {
    forall loc {:trigger Read(im, loc)} :: Read(im, loc) == Read(s.base, loc) || Write(loc, Read(im, loc)) in s.log
  }

  function Without(log: seq<Write>, loc: Loc): seq<Write> {
    if log == [] then []
    else Without(log[..|log| - 1], loc) + if log[|log| - 1].loc == loc then [] else [log[|log| - 1]]
  }

  /** The stores of construct: the fields, and a free token for every region. */
  ghost function Constructs(r: Run, b: Bin, count: nat): set<Write> {
    {Write(Size(r), Num(b.cls)), Write(Arena(r), Num(b.arena)), Write(Count(r), Num(count)), Write(Mark(r), Num(0))}
    + set i: nat | i < count :: Write(Token(r, i), Num(0))
  }

  function WithStore(s: State, w: Write): State {
    s.(log := s.log + [w])
  }

  function WithAct(s: State, t: Thread, a: Act): State {
    s.(acts := s.acts[t := a])
  }

  function WithHeap(s: State, h: Heap): State {
    s.(h := h)
  }

  /** No thread is between locking and unlocking this bin. */
  ghost predicate BinFree(s: State, b: Bin) {
    forall t {:trigger s.acts[t]} | t in s.acts && !s.acts[t].Idle? :: s.acts[t].b != b
  }

  ghost predicate SlotFree(s: State, x: Slot) {
    forall t {:trigger s.acts[t]} | t in s.acts && !s.acts[t].Idle? :: Home(s.h, s.acts[t].b) != x
  }

  /** A thread that has nothing in hand takes both locks. */
  ghost predicate MayStart(s: State, t: Thread, b: Bin) {
    t in s.acts && s.acts[t].Idle? && BinFree(s, b) && SlotFree(s, Home(s.h, b))
  }

  // Heap steps that the source does in one go, cut where a crash can fall

  function WithExtent(h: Heap, x: Slot, e: Ext): Heap
    requires x in h.shelves
  {
    h.(shelves := h.shelves[x := Offer(h.shelves[x], e)])
  }

  function WithoutExtent(h: Heap, x: Slot, e: Ext): Heap
    requires x in h.shelves
  {
    h.(shelves := h.shelves[x := h.shelves[x].(runs := h.shelves[x].runs - {e}, open := h.shelves[x].open - {e})])
  }

  /** A region's token is cleared while the user still has it. */
  function Unpublished(h: Heap, g: Region): Heap
    requires g.run in h.metas
  {
    h.(metas := h.metas[g.run := h.metas[g.run].(busy := h.metas[g.run].busy - {g.ind})])
  }

  /** The run is returned and its extent stays for now. */
  ghost function SpillKeep(h: Heap, c: Cache): Heap
    requires CanSpill(h, c)
  {
    var r := h.caches[c][0].run;
    var x := Home(h, h.metas[r].bin);
    var h' := DoSpill(h, c);
    if x in h'.shelves && r.ext !in h'.shelves[x].runs then WithExtent(h', x, r.ext) else h'
  }

  // Steps

  datatype Step =
    | Local(step: SlabHeap.Step)
    | NewExtent(t: Thread, b: Bin, e: Ext)
    | Begin(t: Thread, b: Bin, e: Ext, count: nat)
    | Construct(t: Thread, w: Write)
    | SetBit(t: Thread)
    | ClearBit(t: Thread, c: Cache)
    | DropExtent(t: Thread)
    | Unlock(t: Thread)
    | PublishToken(g: Region)
    | FireToken(g: Region)
    | FreeRegion(c: Cache, g: Region)
    | WriteBack(loc: Loc)

  /** Filling a cache, handing a region out, returning one that leaves its run in its bin: nothing persistent. */
  ghost predicate LocalStep(s: State, s': State, step: SlabHeap.Step) {
    && Can(s.h, step) && s' == WithHeap(s, Next(s.h, step))
    && match step
       case Fill(b, _, _, _) => BinFree(s, b)
       case Pop(_) => true
       case Spill(c) => BinFree(s, s.h.metas[s.h.caches[c][0].run].bin) && !RunLeaves(s.h, s.h.caches[c][0])
       case _ => false
  }

  /**
    An extent acquired for an empty run bin: its descriptor, with an empty bitmap, is durable before it is
    committed.
   */
  ghost predicate NewExtentStep(s: State, s': State, t: Thread, b: Bin, e: Ext) {
    && MayStart(s, t, b) && b in s.h.bins && Home(s.h, b) in s.h.shelves && s.h.shelves[Home(s.h, b)].open == {}
    && Unused(s.h, e)
    && s' == WithHeap(s, WithExtent(s.h, Home(s.h, b), e)).(base := s.base[Bits(e) := Runs({})],
       log := Without(s.log, Bits(e)))
  }

  ghost predicate BeginStep(s: State, s': State, t: Thread, b: Bin, e: Ext, count: nat) {
    && MayStart(s, t, b) && CanStock(s.h, b, e, count) && s.h.shelves[Home(s.h, b)].open != {}
    && var r := StockedRun(s.h, b, e);
    s' == WithAct(s, t, Build(b, e, r.rid, count, Constructs(r, b, count)))
  }

  /** One store of construct, in any order; a token that is free already is not stored to. */
  ghost predicate ConstructStep(s: State, s': State, t: Thread, w: Write) {
    && t in s.acts && s.acts[t].Build? && w in s.acts[t].todo
    && var a := s.acts[t].(todo := s.acts[t].todo - {w});
    if w.loc.Token? && Now(s, w.loc) == Num(0) then s' == WithAct(s, t, a) else s' == WithAct(WithStore(s, w), t, a)
  }

  /** The metadata has been waited for; now the bit. */
  ghost predicate SetBitStep(s: State, s': State, t: Thread) {
    && t in s.acts && s.acts[t].Build? && s.acts[t].todo == {}
    && var a := s.acts[t];
    && (forall w {:trigger Pending(s, w.loc)} | w in Constructs(Run(a.e, a.rid), a.b, a.count) :: !Pending(s, w.loc))
    && Home(s.h, a.b) in s.h.shelves && a.e in s.h.shelves[Home(s.h, a.b)].runs && a.e in Ready(s.h, a.b, a.e).runs
    && s' == WithAct(WithHeap(WithStore(s, Write(Bits(a.e), Runs(s.h.shelves[Home(s.h, a.b)].runs[a.e] + {a.rid}))),
                              DoStock(s.h, a.b, a.e, a.count)), t, Sealing(a.b, a.e, a.rid))
  }

  /** A region comes back to a run that is then entirely free and leaves: its bit is cleared. */
  ghost predicate ClearBitStep(s: State, s': State, t: Thread, c: Cache) {
    && CanSpill(s.h, c) && RunLeaves(s.h, s.h.caches[c][0])
    && var r := s.h.caches[c][0].run;
    && var b := s.h.metas[r].bin;
    && MayStart(s, t, b)
    && s' == WithAct(WithHeap(WithStore(s, Write(Bits(r.ext), Runs(s.h.shelves[Home(s.h, b)].runs[r.ext] - {r.rid}))),
                              SpillKeep(s.h, c)), t, Clearing(b, r.ext, r.rid))
  }

  /** The cleared bit has been waited for; an extent without runs goes back to the extent case. */
  ghost predicate DropExtentStep(s: State, s': State, t: Thread) {
    && t in s.acts && s.acts[t].Clearing? && !Pending(s, Bits(s.acts[t].e))
    && var x, e := Home(s.h, s.acts[t].b), s.acts[t].e;
    && x in s.h.shelves && e in s.h.shelves[x].runs && s.h.shelves[x].runs[e] == {}
    && |s.h.shelves[x].open| > EXTENT_HOLD
    && s' == WithAct(WithHeap(s, WithoutExtent(s.h, x, e)), t, Idle)
  }

  ghost predicate UnlockStep(s: State, s': State, t: Thread) {
    && t in s.acts && (s.acts[t].Sealing? || s.acts[t].Clearing?) && !Pending(s, Bits(s.acts[t].e))
    && s' == WithAct(s, t, Idle)
  }

  ghost predicate PublishTokenStep(s: State, s': State, g: Region) {
    && g in s.h.user && g.run in s.h.metas
    && s' == WithHeap(WithStore(s, Write(Token(g.run, g.ind), Num(1))), DoPublish(s.h, g))
  }

  ghost predicate FireTokenStep(s: State, s': State, g: Region) {
    && g in s.h.user && g.run in s.h.metas
    && s' == WithHeap(WithStore(s, Write(Token(g.run, g.ind), Num(0))), Unpublished(s.h, g))
  }

  /** The cleared token has been waited for; the region goes to the cache. */
  ghost predicate FreeRegionStep(s: State, s': State, c: Cache, g: Region) {
    && CanFree(s.h, c, g) && Now(s, Token(g.run, g.ind)) == Num(0) && !Pending(s, Token(g.run, g.ind))
    && s' == WithHeap(s, DoFree(s.h, c, g))
  }

  ghost predicate WriteBackStep(s: State, s': State, loc: Loc) {
    s' == s.(base := s.base[loc := Now(s, loc)], log := Without(s.log, loc))
  }

  ghost predicate NextStep(s: State, s': State, a: Step) {
    match a
    case Local(step) => LocalStep(s, s', step)
    case NewExtent(t, b, e) => NewExtentStep(s, s', t, b, e)
    case Begin(t, b, e, count) => BeginStep(s, s', t, b, e, count)
    case Construct(t, w) => ConstructStep(s, s', t, w)
    case SetBit(t) => SetBitStep(s, s', t)
    case ClearBit(t, c) => ClearBitStep(s, s', t, c)
    case DropExtent(t) => DropExtentStep(s, s', t)
    case Unlock(t) => UnlockStep(s, s', t)
    case PublishToken(g) => PublishTokenStep(s, s', g)
    case FireToken(g) => FireTokenStep(s, s', g)
    case FreeRegion(c, g) => FreeRegionStep(s, s', c, g)
    case WriteBack(loc) => WriteBackStep(s, s', loc)
  }
}
