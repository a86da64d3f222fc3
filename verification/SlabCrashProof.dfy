/**
  At every moment of every run of module SlabCrash, whatever a crash leaves of memory is an allocator
  image that the rebuild accepts, and each bitmap in it is the current one or the one before the bit
  operation in flight.
 */
module SlabCrashProof {
  import opened Basics
  import opened RunBits
  import opened RunBin
  import opened SlabHeap
  import opened SlabHeapProof
  import opened SlabReboot
  import opened SlabAllocator
  import opened SlabRecover
  import opened SlabCrash

  // Stores

  lemma LatestStore(s: State, w: Write, loc: Loc)
    ensures Now(WithStore(s, w), loc) == (if loc == w.loc then w.val else Now(s, loc))
    ensures Pending(WithStore(s, w), loc) <==> loc == w.loc || Pending(s, loc)
  {
    assert (s.log + [w])[..|s.log|] == s.log;
    if loc == w.loc { assert w in WithStore(s, w).log; }
    if Pending(s, loc) { var v :| v in s.log && v.loc == loc; assert v in WithStore(s, w).log; }
  }

  lemma {:induction false} LatestSettled(m: map<Loc, Val>, log: seq<Write>, loc: Loc)
    requires forall w <- log :: w.loc != loc
    ensures Latest(m, log, loc) == Read(m, loc)
  {
    if log != [] { LatestSettled(m, log[..|log| - 1], loc); }
  }

  lemma {:induction false} LatestIsOne(m: map<Loc, Val>, log: seq<Write>, loc: Loc)
    ensures Latest(m, log, loc) == Read(m, loc) || Write(loc, Latest(m, log, loc)) in log
  {
    if log != [] {
      var n := |log| - 1;
      LatestIsOne(m, log[..n], loc);
      assert log == log[..n] + [log[n]];
      assert log[n] == Write(log[n].loc, log[n].val);
    }
  }

  lemma {:induction false} WithoutHas(log: seq<Write>, loc: Loc, w: Write)
    ensures w in Without(log, loc) <==> w in log && w.loc != loc
  {
    if log != [] {
      var n := |log| - 1;
      WithoutHas(log[..n], loc, w);
      assert log == log[..n] + [log[n]];
    }
  }

  lemma {:induction false} LatestWithout(m: map<Loc, Val>, log: seq<Write>, loc: Loc, v: Val, x: Loc)
    ensures Latest(m[loc := v], Without(log, loc), x) == if x == loc then v else Latest(m, log, x)
  {
    if log != [] {
      var n := |log| - 1;
      LatestWithout(m, log[..n], loc, v, x);
      var rest := Without(log[..n], loc);
      if log[n].loc != loc {
        assert (rest + [log[n]])[..|rest|] == rest;
      } else {
        assert rest + [] == rest;
      }
    }
  }

  /** The location is durable with this value. */
  ghost predicate Fixed(s: State, loc: Loc, v: Val) {
    Read(s.base, loc) == v && !Pending(s, loc)
  }

  lemma FixedNow(s: State, loc: Loc)
    requires !Pending(s, loc)
    ensures Now(s, loc) == Read(s.base, loc)
  {
    LatestSettled(s.base, s.log, loc);
  }

  lemma SettledHas(s: State, loc: Loc, v: Val)
    requires !Pending(s, loc)
    ensures Write(loc, v) !in s.log
  {
    assert Write(loc, v).loc == loc;
  }

  // The invariant

  /** A value that a crash may leave at the location. */
  ghost predicate MayBe(s: State, loc: Loc, v: Val) {
    Read(s.base, loc) == v || Write(loc, v) in s.log
  }

  /** A crash leaves the token set or clear. */
  ghost predicate Binary(base: map<Loc, Val>, log: seq<Write>, loc: Loc) {
    Bit(Read(base, loc)) && forall w <- log | w.loc == loc :: Bit(w.val)
  }

  predicate Bit(v: Val) {
    v == Num(0) || v == Num(1)
  }

  /** The region is with the user, or durably unpublished. */
  ghost predicate TokenFree(s: State, r: Run, i: nat) {
    Binary(s.base, s.log, Token(r, i)) && (Region(r, i) in s.h.user || Fixed(s, Token(r, i), Num(0)))
  }

  /** The metadata of a run that a bitmap may show in use: durable, and fit for its run bin. */
  ghost predicate HeadOk(s: State, x: Slot, r: Run) {
    && r in s.h.metas
    && var m := s.h.metas[r];
    && Fixed(s, Size(r), Num(m.bin.cls)) && Fixed(s, Arena(r), Num(m.bin.arena)) && Fixed(s, Count(r), Num(m.count))
    && Home(s.h, m.bin) == x && m.bin in s.h.bins && m.count >= 1
    && forall i: nat {:trigger TokenFree(s, r, i)} | i < m.count :: TokenFree(s, r, i)
  }

  /** The thread that has a bit operation on the extent in flight. */
  ghost predicate AtWork(s: State, t: Thread, x: Slot, e: Ext) {
    t in s.acts && (s.acts[t].Sealing? || s.acts[t].Clearing?) && s.acts[t].e == e && Home(s.h, s.acts[t].b) == x
  }

  /** The bitmap before the operation. */
  function Undone(runs: set<nat>, a: Act): set<nat>
    requires a.Sealing? || a.Clearing?
  {
    if a.Sealing? then runs - {a.rid} else runs + {a.rid}
  }

  /** v is the extent's bitmap, or the one before the operation in flight. */
  ghost predicate NowOrBefore(s: State, x: Slot, e: Ext, v: set<nat>)
    requires x in s.h.shelves && e in s.h.shelves[x].runs
  {
    var runs := s.h.shelves[x].runs[e];
    v == runs || exists t :: AtWork(s, t, x, e) && v == Undone(runs, s.acts[t])
  }

  ghost predicate BitsOk(s: State, x: Slot, e: Ext) {
    x in s.h.shelves && e in s.h.shelves[x].runs ==>
      && Now(s, Bits(e)) == Runs(s.h.shelves[x].runs[e])
      && (Pending(s, Bits(e)) ==> exists t :: AtWork(s, t, x, e))
  }

  ghost predicate ValueOk(s: State, x: Slot, e: Ext, v: Val) {
    x in s.h.shelves && e in s.h.shelves[x].runs && MayBe(s, Bits(e), v) ==>
      && v.Runs? && v.runs <= Ones(s.h.shelves[x].count) && NowOrBefore(s, x, e, v.runs)
      && forall rid {:trigger Run(e, rid)} | rid in v.runs :: HeadOk(s, x, Run(e, rid))
  }

  /** These stores were made and nothing was stored over them. */
  ghost predicate Built(base: map<Loc, Val>, log: seq<Write>, done: set<Write>) {
    forall w {:trigger Latest(base, log, w.loc)} | w in done :: Latest(base, log, w.loc) == w.val
  }

  /** The run is still the one to be taken for the bin. */
  ghost predicate MayBuild(h: Heap, b: Bin, e: Ext, rid: nat, count: nat) {
    CanStock(h, b, e, count) && h.shelves[Home(h, b)].open != {} && StockedRun(h, b, e) == Run(e, rid)
  }

  lemma MayBuildStays(h: Heap, h': Heap, b: Bin, e: Ext, rid: nat, count: nat)
    requires MayBuild(h, b, e, rid, count) && h'.ncases == h.ncases && b in h'.bins && h'.bins[b] == h.bins[b]
    requires Home(h, b) in h'.shelves && h'.shelves[Home(h, b)] == h.shelves[Home(h, b)]
    ensures MayBuild(h', b, e, rid, count)
  {
  }

  ghost predicate ActOk(s: State, t: Thread) {
    t in s.acts ==>
      var a := s.acts[t];
      match a
      case Idle => true
      case Build(b, e, rid, count, todo) =>
        && MayBuild(s.h, b, e, rid, count)
        && todo <= Constructs(Run(e, rid), b, count) && Built(s.base, s.log, Constructs(Run(e, rid), b, count) - todo)
      case Sealing(b, e, rid) =>
        Home(s.h, b) in s.h.shelves && e in s.h.shelves[Home(s.h, b)].runs && b in s.h.bins
          && s.h.bins[b] == map[Run(e, rid) := {}]
      case Clearing(b, e, _) =>
        Home(s.h, b) in s.h.shelves && e in s.h.shelves[Home(s.h, b)].runs && e in s.h.shelves[Home(s.h, b)].open
  }

  ghost predicate LocksOk(s: State, t: Thread, u: Thread) {
    t in s.acts && u in s.acts && t != u && !s.acts[t].Idle? && !s.acts[u].Idle? ==>
      s.acts[t].b != s.acts[u].b && Home(s.h, s.acts[t].b) != Home(s.h, s.acts[u].b)
  }

  ghost predicate TokenOk(s: State, r: Run, i: nat) {
    Live(s.h, r) && i < s.h.metas[r].count ==> Now(s, Token(r, i)) == Num(if i in s.h.metas[r].busy then 1 else 0)
  }

  ghost predicate Inv(s: State) {
    && SlabHeap.Inv(s.h)
    && (forall x, e {:trigger BitsOk(s, x, e)} :: BitsOk(s, x, e))
    && (forall x, e, v {:trigger ValueOk(s, x, e, v)} :: ValueOk(s, x, e, v))
    && (forall t {:trigger ActOk(s, t)} :: ActOk(s, t))
    && (forall t, u {:trigger LocksOk(s, t, u)} :: LocksOk(s, t, u))
    && (forall r, i {:trigger TokenOk(s, r, i)} :: TokenOk(s, r, i))
  }

  // What a crash leaves

  function NumOf(v: Val): nat {
    if v.Num? then v.n else 0
  }

  function RunsOf(v: Val): set<nat> {
    if v.Runs? then v.runs else {}
  }

  function MetaOf(im: map<Loc, Val>, r: Run): Meta {
    var count := NumOf(Read(im, Count(r)));
    Meta(Bin(NumOf(Read(im, Arena(r))), NumOf(Read(im, Size(r)))), count, Read(im, Mark(r)) != Num(0),
         set i: nat | i < count && Read(im, Token(r, i)) == Num(1))
  }

  /** The allocator as the rebuild finds it: allocated extents, bitmaps, metadata and tokens, and nothing volatile. */
  ghost function HeapOf(h: Heap, im: map<Loc, Val>): Heap {
    Heap(h.ncases,
         map x | x in h.shelves ::
           Shelf(h.shelves[x].count, map e | e in h.shelves[x].runs :: RunsOf(Read(im, Bits(e))), {}),
         map r | r in h.metas :: MetaOf(im, r),
         map b | b in h.bins :: map[],
         map c | c in h.caches :: [],
         {})
  }

  lemma FixedInImage(s: State, im: map<Loc, Val>, loc: Loc, v: Val)
    requires Fixed(s, loc, v) && CrashImage(s, im)
    ensures Read(im, loc) == v
  {
    if Write(loc, Read(im, loc)) in s.log { assert Pending(s, loc); }
  }

  /** A run that the image shows in use has its metadata whole. */
  lemma HeldInImage(s: State, im: map<Loc, Val>, x: Slot, r: Run)
    requires Inv(s) && CrashImage(s, im) && Holds(HeapOf(s.h, im), x, r)
    ensures r in s.h.metas && Home(s.h, s.h.metas[r].bin) == x && s.h.metas[r].bin in s.h.bins
            && s.h.metas[r].count >= 1
    ensures MetaOf(im, r).bin == s.h.metas[r].bin && MetaOf(im, r).count == s.h.metas[r].count
    ensures r.rid in Ones(s.h.shelves[x].count)
  {
    var v := Read(im, Bits(r.ext));
    assert ValueOk(s, x, r.ext, v) && MayBe(s, Bits(r.ext), v);
    assert Run(r.ext, r.rid) == r && HeadOk(s, x, r);
    var m := s.h.metas[r];
    FixedInImage(s, im, Size(r), Num(m.bin.cls));
    FixedInImage(s, im, Arena(r), Num(m.bin.arena));
    FixedInImage(s, im, Count(r), Num(m.count));
  }

  lemma BitsInImage(s: State, im: map<Loc, Val>, x: Slot, e: Ext)
    requires Inv(s) && CrashImage(s, im) && x in s.h.shelves && e in s.h.shelves[x].runs
    ensures RunsOf(Read(im, Bits(e))) <= Ones(s.h.shelves[x].count)
  {
    assert ValueOk(s, x, e, Read(im, Bits(e))) && MayBe(s, Bits(e), Read(im, Bits(e)));
  }

  /** Whatever a crash leaves at any moment, the rebuild accepts it. */
  lemma CrashIsImage(s: State, im: map<Loc, Val>)
    requires Inv(s) && CrashImage(s, im)
    ensures Image(HeapOf(s.h, im))
  {
    var k := HeapOf(s.h, im);
    forall x | x in k.shelves ensures k.shelves[x].count > 1 { assert Exact(s.h.shelves[x]); }
    forall x, e | x in k.shelves && e in k.shelves[x].runs ensures k.shelves[x].runs[e] <= Ones(k.shelves[x].count) {
      BitsInImage(s, im, x, e);
    }
    forall x, y ensures OneShelf(k, x, y) { assert OneShelf(s.h, x, y); }
    forall x, r | Holds(k, x, r) ensures r in k.metas && Home(k, k.metas[r].bin) == x && Sound(k, k.metas[r]) {
      HeldInImage(s, im, x, r);
    }
    forall b | b in k.bins ensures Home(k, b) in k.shelves { assert Home(s.h, b) in s.h.shelves; }
  }

  // Steps without stores

  /** Regions that the user no longer has are durably unpublished. */
  ghost predicate Cleared(s: State, h': Heap) {
    forall g {:trigger g in s.h.user} | g in s.h.user && g !in h'.user :: Fixed(s, Token(g.run, g.ind), Num(0))
  }

  lemma SameHead(s: State, s': State, x: Slot, r: Run)
    requires HeadOk(s, x, r) && Cleared(s, s'.h) && s'.base == s.base && s'.log == s.log && s'.h.ncases == s.h.ncases
             && s.h.bins.Keys <= s'.h.bins.Keys
    requires r in s'.h.metas && s'.h.metas[r].bin == s.h.metas[r].bin && s'.h.metas[r].count == s.h.metas[r].count
    ensures HeadOk(s', x, r)
  {
    forall i: nat | i < s.h.metas[r].count ensures TokenFree(s', r, i) { assert TokenFree(s, r, i); }
  }

  lemma SameBits(s: State, s': State, x: Slot, e: Ext, v: Val)
    requires Inv(s) && s'.base == s.base && s'.log == s.log && s'.acts == s.acts && s'.h.ncases == s.h.ncases
    requires s'.h.shelves == s.h.shelves && s'.h.bins.Keys == s.h.bins.Keys
    requires s.h.metas.Keys <= s'.h.metas.Keys && Cleared(s, s'.h)
    requires forall r {:trigger s'.h.metas[r]} | r in s.h.metas ::
             s'.h.metas[r].bin == s.h.metas[r].bin && s'.h.metas[r].count == s.h.metas[r].count
    ensures BitsOk(s', x, e) && ValueOk(s', x, e, v)
  {
    assert BitsOk(s, x, e) && ValueOk(s, x, e, v);
    if Pending(s, Bits(e)) && x in s.h.shelves && e in s.h.shelves[x].runs {
      var t :| AtWork(s, t, x, e);
      assert AtWork(s', t, x, e);
    }
    if x in s.h.shelves && e in s.h.shelves[x].runs && MayBe(s', Bits(e), v) {
      assert MayBe(s, Bits(e), v);
      forall rid | rid in v.runs ensures HeadOk(s', x, Run(e, rid)) { SameHead(s, s', x, Run(e, rid)); }
      var runs := s.h.shelves[x].runs[e];
      if v.runs != runs {
        var t :| AtWork(s, t, x, e) && v.runs == Undone(runs, s.acts[t]);
        assert AtWork(s', t, x, e);
      }
    }
  }

  /** A step of the heap that leaves shelves, metadata and the bins at work alone. */
  lemma HeapOnly(s: State, h': Heap)
    requires Inv(s) && SlabHeap.Inv(h') && h'.ncases == s.h.ncases && h'.shelves == s.h.shelves
             && h'.bins.Keys == s.h.bins.Keys
    requires h'.metas == s.h.metas && Cleared(s, h')
    requires forall t {:trigger s.acts[t]} | t in s.acts && !s.acts[t].Idle? && s.acts[t].b in s.h.bins ::
               h'.bins[s.acts[t].b] == s.h.bins[s.acts[t].b]
    ensures Inv(WithHeap(s, h'))
  {
    var s' := WithHeap(s, h');
    forall x, e ensures BitsOk(s', x, e) { SameBits(s, s', x, e, Num(0)); }
    forall x, e, v ensures ValueOk(s', x, e, v) { SameBits(s, s', x, e, v); }
    forall t ensures ActOk(s', t) { ActStays(s, s', t); }
    forall t, u ensures LocksOk(s', t, u) { assert LocksOk(s, t, u); }
    forall r, i ensures TokenOk(s', r, i) { assert TokenOk(s, r, i); }
  }

  /** A thread at work is not disturbed by changes elsewhere. */
  lemma ActStays(s: State, s': State, t: Thread)
    requires ActOk(s, t) && s'.base == s.base && s'.log == s.log && s'.h.ncases == s.h.ncases
    requires t in s'.acts ==> t in s.acts && s'.acts[t] == s.acts[t]
    requires t in s.acts && !s.acts[t].Idle? ==>
               var b := s.acts[t].b;
               && Home(s.h, b) in s'.h.shelves && (Home(s.h, b) in s.h.shelves ==>
                  s'.h.shelves[Home(s.h, b)] == s.h.shelves[Home(s.h, b)])
               && (b in s.h.bins ==> b in s'.h.bins && s'.h.bins[b] == s.h.bins[b])
    ensures ActOk(s', t)
  {
    if t in s'.acts && s.acts[t].Build? {
      var a := s.acts[t];
      MayBuildStays(s.h, s'.h, a.b, a.e, a.rid, a.count);
    }
  }

  lemma LocalInv(s: State, s': State, step: SlabHeap.Step)
    requires Inv(s) && LocalStep(s, s', step)
    ensures Inv(s')
  {
    SlabHeapProof.NextInv(s.h, step);
    HeapOnly(s, s'.h);
  }

  /** A thread takes or gives back its locks; no bit operation is in flight while it does. */
  lemma ActOnly(s: State, t: Thread, a: Act)
    requires Inv(s) && t in s.acts && !a.Sealing? && !a.Clearing? && ActOk(WithAct(s, t, a), t)
    requires s.acts[t].Idle? || (!s.acts[t].Build? && !Pending(s, Bits(s.acts[t].e)))
             || (s.acts[t].Build? && a.Build? && a.b == s.acts[t].b)
    requires a.Idle? || MayStart(s, t, a.b) || (s.acts[t].Build? && a.b == s.acts[t].b)
    ensures Inv(WithAct(s, t, a))
  {
    var s' := WithAct(s, t, a);
    forall x, e ensures BitsOk(s', x, e) { ActBits(s, t, a, x, e, Num(0)); }
    forall x, e, v ensures ValueOk(s', x, e, v) { ActBits(s, t, a, x, e, v); }
    forall u ensures ActOk(s', u) { if u != t { assert ActOk(s, u); } }
    forall u, w ensures LocksOk(s', u, w) { assert LocksOk(s, u, w); }
    forall r, i ensures TokenOk(s', r, i) { assert TokenOk(s, r, i); }
  }

  lemma ActBits(s: State, t: Thread, a: Act, x: Slot, e: Ext, v: Val)
    requires Inv(s) && t in s.acts && !a.Sealing? && !a.Clearing?
    requires s.acts[t].Idle? || s.acts[t].Build? || !Pending(s, Bits(s.acts[t].e))
    ensures BitsOk(WithAct(s, t, a), x, e) && ValueOk(WithAct(s, t, a), x, e, v)
  {
    var s' := WithAct(s, t, a);
    assert BitsOk(s, x, e) && ValueOk(s, x, e, v);
    if x in s.h.shelves && e in s.h.shelves[x].runs {
      if Pending(s, Bits(e)) {
        var u :| AtWork(s, u, x, e);
        assert AtWork(s', u, x, e);
      } else {
        FixedNow(s, Bits(e));
      }
      if MayBe(s', Bits(e), v) {
        assert MayBe(s, Bits(e), v);
        forall rid | rid in v.runs ensures HeadOk(s', x, Run(e, rid)) { SameHead(s, s', x, Run(e, rid)); }
        var runs := s.h.shelves[x].runs[e];
        if v.runs != runs {
          assert Write(Bits(e), v) in s.log || Pending(s, Bits(e));
          var u :| AtWork(s, u, x, e) && v.runs == Undone(runs, s.acts[u]);
          assert AtWork(s', u, x, e);
        }
      }
    }
  }

  lemma BeginInv(s: State, s': State, t: Thread, b: Bin, e: Ext, count: nat)
    requires Inv(s) && BeginStep(s, s', t, b, e, count)
    ensures Inv(s')
  {
    ActOnly(s, t, s'.acts[t]);
  }

  lemma UnlockInv(s: State, s': State, t: Thread)
    requires Inv(s) && UnlockStep(s, s', t)
    ensures Inv(s')
  {
    ActOnly(s, t, Idle);
  }

  // Constructing a run's metadata

  /** The run under construction is in no bitmap that a crash may leave. */
  lemma BuildIsHidden(s: State, t: Thread, x: Slot, e: Ext, v: Val)
    requires Inv(s) && t in s.acts && s.acts[t].Build? && x in s.h.shelves && e in s.h.shelves[x].runs
             && MayBe(s, Bits(e), v) && v.Runs?
    ensures e == s.acts[t].e ==> s.acts[t].rid !in v.runs && !Pending(s, Bits(e))
    ensures !Live(s.h, Run(s.acts[t].e, s.acts[t].rid))
  {
    var a := s.acts[t];
    assert ActOk(s, t) && BitsOk(s, x, e) && ValueOk(s, x, e, v);
    StockIsNew(s.h, a.b, a.e, a.count);
    if e == a.e {
      assert OneShelf(s.h, x, Home(s.h, a.b));
      forall u ensures !AtWork(s, u, x, e) { assert LocksOk(s, t, u); }
      FixedNow(s, Bits(e));
      SettledHas(s, Bits(e), v);
      assert !Holds(s.h, x, Run(a.e, a.rid));
    }
  }

  ghost predicate Constructing(s: State, t: Thread, w: Write) {
    t in s.acts && s.acts[t].Build? && w in s.acts[t].todo
      && w in Constructs(Run(s.acts[t].e, s.acts[t].rid), s.acts[t].b, s.acts[t].count)
  }

  /** The run whose metadata a location belongs to. */
  ghost predicate OfRun(loc: Loc, r: Run) {
    !loc.Bits? && loc.r == r
  }

  lemma ConstructBits(s: State, t: Thread, w: Write, x: Slot, e: Ext, v: Val)
    requires Inv(s) && Constructing(s, t, w)
    ensures BitsOk(WithStore(s, w), x, e) && ValueOk(WithStore(s, w), x, e, v)
  {
    var s' := WithStore(s, w);
    assert BitsOk(s, x, e) && ValueOk(s, x, e, v);
    LatestStore(s, w, Bits(e));
    if x in s.h.shelves && e in s.h.shelves[x].runs {
      if Pending(s, Bits(e)) {
        var u :| AtWork(s, u, x, e);
        assert AtWork(s', u, x, e);
      }
      if MayBe(s', Bits(e), v) {
        assert MayBe(s, Bits(e), v);
        BuildIsHidden(s, t, x, e, v);
        forall rid | rid in v.runs ensures HeadOk(s', x, Run(e, rid)) { HeadStays(s, w, x, Run(e, rid)); }
        var runs := s.h.shelves[x].runs[e];
        if v.runs != runs {
          var u :| AtWork(s, u, x, e) && v.runs == Undone(runs, s.acts[u]);
          assert AtWork(s', u, x, e);
        }
      }
    }
  }

  lemma HeadStays(s: State, w: Write, x: Slot, r: Run)
    requires HeadOk(s, x, r) && w.loc != Size(r) && w.loc != Arena(r) && w.loc != Count(r)
    requires w.loc.Token? && w.loc.r == r ==> Region(r, w.loc.i) in s.h.user && Bit(w.val)
    ensures HeadOk(WithStore(s, w), x, r)
  {
    forall i: nat | i < s.h.metas[r].count ensures TokenFree(WithStore(s, w), r, i) {
      assert TokenFree(s, r, i);
      LatestStore(s, w, Token(r, i));
    }
    LatestStore(s, w, Size(r));
    LatestStore(s, w, Arena(r));
    LatestStore(s, w, Count(r));
  }

  /** Two threads construct different runs. */
  lemma BuildsApart(s: State, t: Thread, u: Thread)
    requires Inv(s) && t in s.acts && u in s.acts && t != u && s.acts[t].Build? && s.acts[u].Build?
    ensures s.acts[t].e != s.acts[u].e
  {
    assert ActOk(s, t) && ActOk(s, u) && LocksOk(s, t, u);
    var x, y := Home(s.h, s.acts[t].b), Home(s.h, s.acts[u].b);
    assert OneShelf(s.h, x, y);
    assert Exact(s.h.shelves[x]) && Exact(s.h.shelves[y]);
  }

  lemma BuiltStays(s: State, w: Write, done: set<Write>)
    requires Built(s.base, s.log, done) && forall d <- done :: d.loc != w.loc
    ensures Built(s.base, s.log + [w], done)
  {
    forall d | d in done ensures Latest(s.base, s.log + [w], d.loc) == d.val { LatestStore(s, w, d.loc); }
  }

  /** A store that is not to the run's own metadata. */
  lemma BuildUntouched(s: State, w: Write, c: Act)
    requires c.Build? && Built(s.base, s.log, Constructs(Run(c.e, c.rid), c.b, c.count) - c.todo)
             && !OfRun(w.loc, Run(c.e, c.rid))
    ensures Built(s.base, s.log + [w], Constructs(Run(c.e, c.rid), c.b, c.count) - c.todo)
  {
    BuiltStays(s, w, Constructs(Run(c.e, c.rid), c.b, c.count) - c.todo);
  }

  lemma ConstructOwn(s: State, t: Thread, w: Write, a: Act)
    requires Inv(s) && Constructing(s, t, w) && a == s.acts[t].(todo := s.acts[t].todo - {w})
    ensures ActOk(WithAct(WithStore(s, w), t, a), t)
  {
    assert ActOk(s, t);
    var all := Constructs(Run(a.e, a.rid), a.b, a.count);
    forall d | d in all - a.todo ensures Latest(s.base, s.log + [w], d.loc) == d.val { LatestStore(s, w, d.loc); }
  }

  lemma ConstructAct(s: State, t: Thread, w: Write, a: Act, u: Thread)
    requires Inv(s) && Constructing(s, t, w) && a == s.acts[t].(todo := s.acts[t].todo - {w}) && u != t
    ensures ActOk(WithAct(WithStore(s, w), t, a), u)
  {
    assert ActOk(s, u);
    if u in s.acts && s.acts[u].Build? {
      BuildsApart(s, t, u);
      BuildUntouched(s, w, s.acts[u]);
    }
  }

  lemma ConstructInv(s: State, s': State, t: Thread, w: Write)
    requires Inv(s) && ConstructStep(s, s', t, w)
    ensures Inv(s')
  {
    assert ActOk(s, t);
    var a := s.acts[t].(todo := s.acts[t].todo - {w});
    if w.loc.Token? && Now(s, w.loc) == Num(0) {
      ActOnly(s, t, a);
    } else {
      var s1 := WithStore(s, w);
      forall x, e ensures BitsOk(s', x, e) { ConstructBits(s, t, w, x, e, Num(0)); BuildBits(s1, t, a, x, e, Num(0)); }
      forall x, e, v ensures ValueOk(s', x, e, v) { ConstructBits(s, t, w, x, e, v); BuildBits(s1, t, a, x, e, v); }
      forall u ensures ActOk(s', u) { if u == t { ConstructOwn(s, t, w, a); } else { ConstructAct(s, t, w, a, u); } }
      forall u, q ensures LocksOk(s', u, q) { assert LocksOk(s, u, q); }
      forall r, i ensures TokenOk(s', r, i) {
        assert TokenOk(s, r, i);
        LatestStore(s, w, Token(r, i));
        BuildIsDead(s, t);
      }
    }
  }

  lemma BuildIsDead(s: State, t: Thread)
    requires Inv(s) && t in s.acts && s.acts[t].Build?
    ensures !Live(s.h, Run(s.acts[t].e, s.acts[t].rid))
  {
    assert ActOk(s, t);
    StockIsNew(s.h, s.acts[t].b, s.acts[t].e, s.acts[t].count);
  }

  /** A thread that goes on building is not at work on a bit. */
  lemma BuildBits(s: State, t: Thread, a: Act, x: Slot, e: Ext, v: Val)
    requires BitsOk(s, x, e) && ValueOk(s, x, e, v) && t in s.acts && s.acts[t].Build? && a.Build?
    ensures BitsOk(WithAct(s, t, a), x, e) && ValueOk(WithAct(s, t, a), x, e, v)
  {
    var s' := WithAct(s, t, a);
    if x in s.h.shelves && e in s.h.shelves[x].runs {
      if Pending(s, Bits(e)) {
        var u :| AtWork(s, u, x, e);
        assert AtWork(s', u, x, e);
      }
      if MayBe(s', Bits(e), v) {
        assert MayBe(s, Bits(e), v);
        forall rid | rid in v.runs ensures HeadOk(s', x, Run(e, rid)) { SameHead(s, s', x, Run(e, rid)); }
        var runs := s.h.shelves[x].runs[e];
        if v.runs != runs {
          var u :| AtWork(s, u, x, e) && v.runs == Undone(runs, s.acts[u]);
          assert AtWork(s', u, x, e);
        }
      }
    }
  }

  // Setting and clearing a bit

  /** A bit operation of t on extent e of slot x: one store, and the heap's bitmap of e with it. */
  ghost predicate Flips(s: State, s': State, t: Thread, x: Slot, e: Ext, v: set<nat>, a: Act) {
    && x in s.h.shelves && e in s.h.shelves[x].runs && v <= Ones(s.h.shelves[x].count) && t in s.acts
    && (a.Sealing? || a.Clearing?) && a.e == e && Home(s.h, a.b) == x && !Pending(s, Bits(e))
    && Undone(v, a) == s.h.shelves[x].runs[e]
    && !s.acts[t].Sealing? && !s.acts[t].Clearing?
    && s'.base == s.base && s'.log == s.log + [Write(Bits(e), Runs(v))] && s'.acts == s.acts[t := a]
    && s'.h.ncases == s.h.ncases && s'.h.bins.Keys == s.h.bins.Keys && s.h.metas.Keys <= s'.h.metas.Keys
    && s'.h.shelves.Keys == s.h.shelves.Keys && s'.h.user == s.h.user
    && (forall y {:trigger s'.h.shelves[y]} | y in s.h.shelves && y != x :: s'.h.shelves[y] == s.h.shelves[y])
    && s'.h.shelves[x].count == s.h.shelves[x].count && s'.h.shelves[x].runs == s.h.shelves[x].runs[e := v]
    && (forall r {:trigger s'.h.metas[r]} | r in s.h.metas && !(a.Sealing? && r == Run(e, a.rid)) ::
       s'.h.metas[r] == s.h.metas[r])
    && (forall u {:trigger s.acts[u]} | u in s.acts && u != t && !s.acts[u].Idle? ::
          s.acts[u].b != a.b && Home(s.h, s.acts[u].b) != x
            && (s.acts[u].b in s.h.bins ==> s'.h.bins[s.acts[u].b] == s.h.bins[s.acts[u].b]))
  }

  lemma FlipsBits(s: State, s': State, t: Thread, x: Slot, e: Ext, v: set<nat>, a: Act, y: Slot, f: Ext)
    requires BitsOk(s, y, f) && OneShelf(s.h, x, y) && Flips(s, s', t, x, e, v, a)
    ensures BitsOk(s', y, f)
  {
    LatestStore(s, Write(Bits(e), Runs(v)), Bits(f));
    assert Now(s', Bits(f)) == Now(WithStore(s, Write(Bits(e), Runs(v))), Bits(f));
    assert Pending(s', Bits(f)) <==> Pending(WithStore(s, Write(Bits(e), Runs(v))), Bits(f));
    if y in s'.h.shelves && f in s'.h.shelves[y].runs && Pending(s', Bits(f)) {
      if f == e {
        assert AtWork(s', t, x, e);
      } else {
        var u :| AtWork(s, u, y, f);
        assert AtWork(s', u, y, f);
      }
    }
  }

  lemma FlipsHead(s: State, s': State, t: Thread, x: Slot, e: Ext, v: set<nat>, a: Act, y: Slot, r: Run)
    requires Inv(s) && Flips(s, s', t, x, e, v, a) && HeadOk(s, y, r) && !(a.Sealing? && r == Run(e, a.rid))
    ensures HeadOk(s', y, r)
  {
    var s1 := WithStore(s, Write(Bits(e), Runs(v)));
    HeadStays(s, Write(Bits(e), Runs(v)), y, r);
    SameHead(s1, s', y, r);
  }

  lemma FlipsValue(s: State, s': State, t: Thread, x: Slot, e: Ext, v: set<nat>, a: Act, y: Slot, f: Ext, z: Val)
    requires Inv(s) && Flips(s, s', t, x, e, v, a)
    requires a.Sealing? ==> HeadOk(s', x, Run(e, a.rid)) && a.rid !in s.h.shelves[x].runs[e]
    ensures ValueOk(s', y, f, z)
  {
    assert ValueOk(s, y, f, z) && OneShelf(s.h, x, y);
    if y in s'.h.shelves && f in s'.h.shelves[y].runs && MayBe(s', Bits(f), z) {
      if f == e {
        assert y == x;
        FlipsOwnValue(s, s', t, x, e, v, a, z);
      } else {
        FlipsOtherValue(s, s', t, x, e, v, a, y, f, z);
      }
    }
  }

  lemma FlipsOtherValue(s: State, s': State, t: Thread, x: Slot, e: Ext, v: set<nat>, a: Act, y: Slot, f: Ext, z: Val)
    requires Inv(s) && Flips(s, s', t, x, e, v, a) && f != e && y in s.h.shelves && f in s.h.shelves[y].runs
             && MayBe(s', Bits(f), z)
    ensures ValueOk(s', y, f, z)
  {
    assert ValueOk(s, y, f, z) && MayBe(s, Bits(f), z);
    forall rid | rid in z.runs ensures HeadOk(s', y, Run(f, rid)) { FlipsHead(s, s', t, x, e, v, a, y, Run(f, rid)); }
    FlipsBefore(s, s', t, x, e, v, a, y, f, z.runs);
  }

  lemma FlipsBefore(s: State, s': State, t: Thread, x: Slot, e: Ext, v: set<nat>, a: Act, y: Slot, f: Ext, z: set<nat>)
    requires Flips(s, s', t, x, e, v, a) && f != e && y in s.h.shelves && f in s.h.shelves[y].runs
             && NowOrBefore(s, y, f, z)
    ensures f in s'.h.shelves[y].runs && s'.h.shelves[y].count == s.h.shelves[y].count && NowOrBefore(s', y, f, z)
  {
    var runs := s.h.shelves[y].runs[f];
    if z != runs {
      var u :| AtWork(s, u, y, f) && z == Undone(runs, s.acts[u]);
      assert AtWork(s', u, y, f);
    }
  }

  lemma FlipsOwnValue(s: State, s': State, t: Thread, x: Slot, e: Ext, v: set<nat>, a: Act, z: Val)
    requires Inv(s) && Flips(s, s', t, x, e, v, a) && MayBe(s', Bits(e), z)
    requires a.Sealing? ==> HeadOk(s', x, Run(e, a.rid)) && a.rid !in s.h.shelves[x].runs[e]
    ensures ValueOk(s', x, e, z)
  {
    var runs := s.h.shelves[x].runs[e];
    assert BitsOk(s, x, e) && ValueOk(s, x, e, Runs(runs));
    FixedNow(s, Bits(e));
    assert MayBe(s, Bits(e), Runs(runs));
    SettledHas(s, Bits(e), z);
    assert z == Runs(runs) || z == Runs(v);
    assert AtWork(s', t, x, e);
    forall rid | rid in z.runs ensures HeadOk(s', x, Run(e, rid)) {
      if !(a.Sealing? && rid == a.rid) {
        assert rid in runs && HeadOk(s, x, Run(e, rid));
        FlipsHead(s, s', t, x, e, v, a, x, Run(e, rid));
      }
    }
  }

  lemma FlipsAct(s: State, s': State, t: Thread, x: Slot, e: Ext, v: set<nat>, a: Act, u: Thread)
    requires Inv(s) && Flips(s, s', t, x, e, v, a) && u != t
    ensures ActOk(s', u)
  {
    assert ActOk(s, u);
    if u in s.acts && s.acts[u].Build? {
      var c := s.acts[u];
      FlipsElsewhere(s, s', t, x, e, v, a, u);
      MayBuildStays(s.h, s'.h, c.b, c.e, c.rid, c.count);
      BuildUntouched(s, Write(Bits(e), Runs(v)), c);
    } else if u in s.acts && !s.acts[u].Idle? {
      FlipsElsewhere(s, s', t, x, e, v, a, u);
    }
  }

  /** Another thread's bins are not touched. */
  lemma FlipsElsewhere(s: State, s': State, t: Thread, x: Slot, e: Ext, v: set<nat>, a: Act, u: Thread)
    requires Flips(s, s', t, x, e, v, a) && u in s.acts && u != t && !s.acts[u].Idle?
    ensures var b := s.acts[u].b;
            && Home(s'.h, b) == Home(s.h, b)
            && (Home(s.h, b) in s.h.shelves ==>
               Home(s.h, b) in s'.h.shelves && s'.h.shelves[Home(s.h, b)] == s.h.shelves[Home(s.h, b)])
            && (b in s.h.bins ==> b in s'.h.bins && s'.h.bins[b] == s.h.bins[b])
  {
  }

  lemma FlipsInv(s: State, s': State, t: Thread, x: Slot, e: Ext, v: set<nat>, a: Act)
    requires Inv(s) && Flips(s, s', t, x, e, v, a) && SlabHeap.Inv(s'.h) && ActOk(s', t)
    requires a.Sealing? ==> HeadOk(s', x, Run(e, a.rid)) && a.rid !in s.h.shelves[x].runs[e]
    requires forall r, i :: TokenOk(s', r, i)
    ensures Inv(s')
  {
    forall y, f ensures BitsOk(s', y, f) {
      assert BitsOk(s, y, f) && OneShelf(s.h, x, y);
      FlipsBits(s, s', t, x, e, v, a, y, f);
    }
    forall y, f, z ensures ValueOk(s', y, f, z) { FlipsValue(s, s', t, x, e, v, a, y, f, z); }
    forall u ensures ActOk(s', u) { if u != t { FlipsAct(s, s', t, x, e, v, a, u); } }
    forall u, q ensures LocksOk(s', u, q) {
      assert LocksOk(s, u, q);
      FlipsLocks(s, s', t, x, e, v, a, u, q);
    }
  }

  lemma FlipsLocks(s: State, s': State, t: Thread, x: Slot, e: Ext, v: set<nat>, a: Act, u: Thread, q: Thread)
    requires LocksOk(s, u, q) && Flips(s, s', t, x, e, v, a)
    ensures LocksOk(s', u, q)
  {
  }

  lemma SetBitHead(s: State, s': State, t: Thread)
    requires Inv(s) && SetBitStep(s, s', t)
    ensures HeadOk(s', Home(s.h, s.acts[t].b), Run(s.acts[t].e, s.acts[t].rid))
  {
    var a := s.acts[t];
    var r := Run(a.e, a.rid);
    var all := Constructs(r, a.b, a.count);
    assert ActOk(s, t) && all - a.todo == all;
    var ws := [Write(Size(r), Num(a.b.cls)), Write(Arena(r), Num(a.b.arena)), Write(Count(r), Num(a.count))];
    forall k | 0 <= k < 3 ensures Fixed(s', ws[k].loc, ws[k].val) {
      assert ws[k] in all && !Pending(s, ws[k].loc);
      FixedNow(s, ws[k].loc);
      LatestStore(s, s'.log[|s.log|], ws[k].loc);
      assert Pending(s', ws[k].loc) <==> Pending(WithStore(s, s'.log[|s.log|]), ws[k].loc);
    }
    assert Fixed(s', ws[0].loc, ws[0].val) && Fixed(s', ws[1].loc, ws[1].val) && Fixed(s', ws[2].loc, ws[2].val);
    forall i: nat | i < a.count ensures TokenFree(s', r, i) {
      var w := Write(Token(r, i), Num(0));
      assert w in all && !Pending(s, w.loc);
      FixedNow(s, w.loc);
      LatestStore(s, s'.log[|s.log|], w.loc);
      assert Pending(s', w.loc) <==> Pending(WithStore(s, s'.log[|s.log|]), w.loc);
    }
  }

  lemma SetBitToken(s: State, s': State, t: Thread, r: Run, i: nat)
    requires Inv(s) && SetBitStep(s, s', t)
    ensures TokenOk(s', r, i)
  {
    var a := s.acts[t];
    assert ActOk(s, t) && TokenOk(s, r, i);
    StockRun(s.h, a.b, a.e, a.count, r);
    assert Now(s', Token(r, i)) == Now(s, Token(r, i)) by { LatestStore(s, s'.log[|s.log|], Token(r, i)); }
    if r == Run(a.e, a.rid) && i < a.count { NewToken(s, t, i); }
  }

  /** The tokens of a run under construction have been cleared once all its stores were made. */
  lemma NewToken(s: State, t: Thread, i: nat)
    requires ActOk(s, t) && t in s.acts && s.acts[t].Build? && s.acts[t].todo == {} && i < s.acts[t].count
    ensures Now(s, Token(Run(s.acts[t].e, s.acts[t].rid), i)) == Num(0)
  {
    var a := s.acts[t];
    var q := Run(a.e, a.rid);
    assert Write(Token(q, i), Num(0)) in Constructs(q, a.b, a.count) - a.todo;
  }

  lemma Alone(s: State, t: Thread)
    requires Inv(s) && t in s.acts && !s.acts[t].Idle?
    ensures forall u {:trigger s.acts[u]} | u in s.acts && u != t && !s.acts[u].Idle? ::
              s.acts[u].b != s.acts[t].b && Home(s.h, s.acts[u].b) != Home(s.h, s.acts[t].b)
  {
    forall u | u in s.acts && u != t && !s.acts[u].Idle?
      ensures s.acts[u].b != s.acts[t].b && Home(s.h, s.acts[u].b) != Home(s.h, s.acts[t].b)
    {
      assert LocksOk(s, t, u);
    }
  }

  lemma SetBitFlips(s: State, s': State, t: Thread)
    requires Inv(s) && SetBitStep(s, s', t)
    ensures var a := s.acts[t]; var x := Home(s.h, a.b);
            && x in s.h.shelves && a.e in s.h.shelves[x].runs && a.rid !in s.h.shelves[x].runs[a.e]
            && Flips(s, s', t, x, a.e, s.h.shelves[x].runs[a.e] + {a.rid}, s'.acts[t])
  {
    var a := s.acts[t];
    var x := Home(s.h, a.b);
    assert ActOk(s, t) && BitsOk(s, x, a.e) && Exact(s.h.shelves[x]);
    StockIsNew(s.h, a.b, a.e, a.count);
    assert !Holds(s.h, x, Run(a.e, a.rid));
    LatestIsOne(s.base, s.log, Bits(a.e));
    BuildIsHidden(s, t, x, a.e, Runs(s.h.shelves[x].runs[a.e]));
    Alone(s, t);
    assert s.h.shelves[x].runs[a.e] + {a.rid} - {a.rid} == s.h.shelves[x].runs[a.e];
  }

  lemma SetBitInv(s: State, s': State, t: Thread)
    requires Inv(s) && SetBitStep(s, s', t)
    ensures Inv(s')
  {
    var a := s.acts[t];
    var x := Home(s.h, a.b);
    assert ActOk(s, t);
    StockInv(s.h, a.b, a.e, a.count);
    SetBitHead(s, s', t);
    SetBitFlips(s, s', t);
    forall q, i ensures TokenOk(s', q, i) { SetBitToken(s, s', t, q, i); }
    FlipsInv(s, s', t, x, a.e, s.h.shelves[x].runs[a.e] + {a.rid}, s'.acts[t]);
  }

  lemma SlotIsSettled(s: State, x: Slot, e: Ext)
    requires Inv(s) && SlotFree(s, x) && x in s.h.shelves && e in s.h.shelves[x].runs
    ensures !Pending(s, Bits(e)) && Read(s.base, Bits(e)) == Runs(s.h.shelves[x].runs[e])
  {
    assert BitsOk(s, x, e);
    forall t ensures !AtWork(s, t, x, e) { assert t in s.acts ==> s.acts[t] == s.acts[t]; }
    FixedNow(s, Bits(e));
  }

  /** An extent without runs may enter a run bin at any time. */
  lemma ExtentEnters(h: Heap, x: Slot, e: Ext)
    requires SlabHeap.Inv(h) && x in h.shelves && Unused(h, e)
    ensures SlabHeap.Inv(WithExtent(h, x, e))
  {
    var h' := WithExtent(h, x, e);
    OfferKeeps(h.shelves[x], e);
    forall y, z ensures OneShelf(h', y, z) {
      assert OneShelf(h, y, z);
      assert y in h.shelves ==> e !in h.shelves[y].runs;
      assert z in h.shelves ==> e !in h.shelves[z].runs;
    }
    ExtentMoves(h, h');
  }

  lemma ExtentLeaves(h: Heap, x: Slot, e: Ext)
    requires SlabHeap.Inv(h) && x in h.shelves && e in h.shelves[x].runs && h.shelves[x].runs[e] == {}
    ensures SlabHeap.Inv(WithoutExtent(h, x, e))
  {
    var h' := WithoutExtent(h, x, e);
    assert Exact(h.shelves[x]);
    assert Exact(h'.shelves[x]);
    forall y, z ensures OneShelf(h', y, z) { assert OneShelf(h, y, z); }
    ExtentMoves(h, h');
  }

  /** Extents without runs come and go; the runs in use stay. */
  lemma ExtentMoves(h: Heap, h': Heap)
    requires SlabHeap.Inv(h) && h' == h.(shelves := h'.shelves) && h'.shelves.Keys == h.shelves.Keys
    requires forall y {:trigger h'.shelves[y]} | y in h.shelves :: Exact(h'.shelves[y])
    requires forall y, z {:trigger OneShelf(h', y, z)} :: OneShelf(h', y, z)
    requires forall y, r {:trigger Holds(h', y, r)} :: Holds(h', y, r) <==> Holds(h, y, r)
    ensures SlabHeap.Inv(h')
  {
    forall r ensures Live(h', r) <==> Live(h, r) {
      if r in h.metas { assert Home(h', h.metas[r].bin) == Home(h, h.metas[r].bin); }
    }
    forall r ensures RunOk(h', r) { assert RunOk(h, r); }
    forall b, r ensures EntryOk(h', b, r) { assert EntryOk(h, b, r); }
    forall b | b in h'.bins ensures Home(h', b) in h'.shelves { assert Home(h, b) in h.shelves; }
    forall g ensures Allocated(h', g) <==> Allocated(h, g) {}
    SameOwn(h, h');
  }

  /** Returning a run and, if its extent left with it, putting the extent back: only the bit is cleared. */
  lemma GiveAndKeep(s: Shelf, e: Ext, rid: nat)
    requires Exact(s) && e in s.runs && rid in s.runs[e]
    ensures var g := Give(s, e, rid);
            var k := if e in g.runs then g else Offer(g, e);
            k.count == s.count && k.runs == s.runs[e := s.runs[e] - {rid}] && k.open == s.open + {e}
  {
    var g := Give(s, e, rid);
    if e !in g.runs { assert s.runs[e] - {rid} == {}; }
  }

  /** What the heap looks like after a run left its arena bin and before its extent may leave. */
  ghost predicate Returned(h: Heap, h': Heap, r: Run) {
    && r in h.metas && Home(h, h.metas[r].bin) in h.shelves
    && var x := Home(h, h.metas[r].bin);
    && r.ext in h.shelves[x].runs && r.rid in h.shelves[x].runs[r.ext]
    && h'.ncases == h.ncases && h'.metas == h.metas && h'.bins.Keys == h.bins.Keys && h'.shelves.Keys == h.shelves.Keys
    && h'.user == h.user
    && (forall b {:trigger h'.bins[b]} | b in h.bins && b != h.metas[r].bin :: h'.bins[b] == h.bins[b])
    && (forall y {:trigger h'.shelves[y]} | y in h.shelves && y != x :: h'.shelves[y] == h.shelves[y])
    && h'.shelves[x].count == h.shelves[x].count && r.ext in h'.shelves[x].open
    && h'.shelves[x].runs == h.shelves[x].runs[r.ext := h.shelves[x].runs[r.ext] - {r.rid}]
  }

  lemma SpillKeepIs(h: Heap, c: Cache)
    requires SlabHeap.Inv(h) && CanSpill(h, c) && RunLeaves(h, h.caches[c][0])
    ensures Returned(h, SpillKeep(h, c), h.caches[c][0].run)
  {
    var r := h.caches[c][0].run;
    var x := Home(h, h.metas[r].bin);
    assert Exact(h.shelves[x]);
    SpillIs(h, c);
    KeptIsReturned(h, DoSpill(h, c), r);
  }

  lemma SpillIs(h: Heap, c: Cache)
    requires CanSpill(h, c) && RunLeaves(h, h.caches[c][0])
    ensures Given(h, DoSpill(h, c), h.caches[c][0].run)
  {
  }

  /** The run went back to its run bin, and its extent with it if the run bin let it go. */
  ghost predicate Given(h: Heap, h': Heap, r: Run) {
    && r in h.metas && Home(h, h.metas[r].bin) in h.shelves
    && var b := h.metas[r].bin; var x := Home(h, b);
    && r.ext in h.shelves[x].runs && r.rid in h.shelves[x].runs[r.ext] && b in h.bins && b in h'.bins
    && h'.ncases == h.ncases && h'.metas == h.metas && h'.shelves == h.shelves[x := Give(h.shelves[x], r.ext, r.rid)]
    && h'.bins == h.bins[b := h'.bins[b]] && h'.user == h.user
  }

  lemma KeptIsReturned(h: Heap, h': Heap, r: Run)
    requires Given(h, h', r) && Exact(h.shelves[Home(h, h.metas[r].bin)])
    ensures var x := Home(h, h.metas[r].bin);
            Returned(h, if r.ext !in h'.shelves[x].runs then WithExtent(h', x, r.ext) else h', r)
  {
    GiveAndKeep(h.shelves[Home(h, h.metas[r].bin)], r.ext, r.rid);
  }

  lemma SpillKeepInv(h: Heap, c: Cache)
    requires SlabHeap.Inv(h) && CanSpill(h, c) && RunLeaves(h, h.caches[c][0])
    ensures SlabHeap.Inv(SpillKeep(h, c))
  {
    var r := h.caches[c][0].run;
    var x := Home(h, h.metas[r].bin);
    var h1 := DoSpill(h, c);
    SpillInv(h, c);
    if r.ext !in h1.shelves[x].runs {
      forall y | y in h1.shelves ensures r.ext !in h1.shelves[y].runs { assert OneShelf(h, x, y); }
      ExtentEnters(h1, x, r.ext);
    }
  }

  lemma ReturnedLive(h: Heap, h': Heap, r: Run, q: Run)
    requires Returned(h, h', r) && Live(h', q)
    ensures Live(h, q)
  {
    assert Home(h', h.metas[q].bin) == Home(h, h.metas[q].bin);
    assert Holds(h, Home(h, h.metas[q].bin), q);
  }

  lemma ClearBitToken(s: State, s': State, t: Thread, c: Cache, r: Run, i: nat)
    requires Inv(s) && ClearBitStep(s, s', t, c) && Returned(s.h, s'.h, s.h.caches[c][0].run)
    ensures TokenOk(s', r, i)
  {
    assert TokenOk(s, r, i);
    LatestStore(s, s'.log[|s.log|], Token(r, i));
    if Live(s'.h, r) { ReturnedLive(s.h, s'.h, s.h.caches[c][0].run, r); }
  }

  lemma ClearBitFlips(s: State, s': State, t: Thread, c: Cache)
    requires Inv(s) && ClearBitStep(s, s', t, c) && Returned(s.h, s'.h, s.h.caches[c][0].run)
    ensures var r := s.h.caches[c][0].run; var x := Home(s.h, s.h.metas[r].bin);
            Flips(s, s', t, x, r.ext, s.h.shelves[x].runs[r.ext] - {r.rid}, s'.acts[t])
  {
    var r := s.h.caches[c][0].run;
    var x := Home(s.h, s.h.metas[r].bin);
    SlotIsSettled(s, x, r.ext);
    assert Exact(s.h.shelves[x]);
    SettledFlips(s, s', t, c);
  }

  lemma SettledFlips(s: State, s': State, t: Thread, c: Cache)
    requires ClearBitStep(s, s', t, c) && Returned(s.h, s'.h, s.h.caches[c][0].run)
    requires var r := s.h.caches[c][0].run; var x := Home(s.h, s.h.metas[r].bin);
             !Pending(s, Bits(r.ext)) && s.h.shelves[x].runs[r.ext] <= Ones(s.h.shelves[x].count)
    ensures var r := s.h.caches[c][0].run; var x := Home(s.h, s.h.metas[r].bin);
            Flips(s, s', t, x, r.ext, s.h.shelves[x].runs[r.ext] - {r.rid}, s'.acts[t])
  {
    var r := s.h.caches[c][0].run;
    var runs := s.h.shelves[Home(s.h, s.h.metas[r].bin)].runs[r.ext];
    assert runs - {r.rid} + {r.rid} == runs;
  }

  lemma ClearBitInv(s: State, s': State, t: Thread, c: Cache)
    requires Inv(s) && ClearBitStep(s, s', t, c)
    ensures Inv(s')
  {
    var r := s.h.caches[c][0].run;
    var b := s.h.metas[r].bin;
    var x := Home(s.h, b);
    SpillKeepIs(s.h, c);
    SpillKeepInv(s.h, c);
    SlotIsSettled(s, x, r.ext);
    forall q, i ensures TokenOk(s', q, i) { ClearBitToken(s, s', t, c, q, i); }
    ClearBitFlips(s, s', t, c);
    FlipsInv(s, s', t, x, r.ext, s.h.shelves[x].runs[r.ext] - {r.rid}, s'.acts[t]);
  }

  // Extents coming and going

  lemma DropExtentBits(s: State, s': State, t: Thread, y: Slot, f: Ext, v: Val)
    requires Inv(s) && DropExtentStep(s, s', t)
    ensures BitsOk(s', y, f) && ValueOk(s', y, f, v)
  {
    assert BitsOk(s, y, f) && ValueOk(s, y, f, v);
    var x, e := Home(s.h, s.acts[t].b), s.acts[t].e;
    assert OneShelf(s.h, x, y);
    if y in s'.h.shelves && f in s'.h.shelves[y].runs {
      assert f in s.h.shelves[y].runs && s'.h.shelves[y].runs[f] == s.h.shelves[y].runs[f] && f != e;
      if Pending(s', Bits(f)) {
        var u :| AtWork(s, u, y, f);
        assert AtWork(s', u, y, f);
      }
      if MayBe(s', Bits(f), v) {
        assert MayBe(s, Bits(f), v);
        forall rid | rid in v.runs ensures HeadOk(s', y, Run(f, rid)) { SameHead(s, s', y, Run(f, rid)); }
        var runs := s.h.shelves[y].runs[f];
        if v.runs != runs {
          var u :| AtWork(s, u, y, f) && v.runs == Undone(runs, s.acts[u]);
          assert AtWork(s', u, y, f);
        }
      }
    }
  }

  lemma DropExtentInv(s: State, s': State, t: Thread)
    requires Inv(s) && DropExtentStep(s, s', t)
    ensures Inv(s')
  {
    var x, e := Home(s.h, s.acts[t].b), s.acts[t].e;
    ExtentLeaves(s.h, x, e);
    forall y, f ensures BitsOk(s', y, f) { DropExtentBits(s, s', t, y, f, Num(0)); }
    forall y, f, v ensures ValueOk(s', y, f, v) { DropExtentBits(s, s', t, y, f, v); }
    forall u ensures ActOk(s', u) {
      if u != t {
        assert ActOk(s, u) && LocksOk(s, t, u);
        ActStays(s, s', u);
      }
    }
    forall u, q ensures LocksOk(s', u, q) { assert LocksOk(s, u, q); }
    forall r, i ensures TokenOk(s', r, i) {
      assert TokenOk(s, r, i);
      if Live(s'.h, r) {
        assert Home(s'.h, s.h.metas[r].bin) == Home(s.h, s.h.metas[r].bin)
               && Holds(s.h, Home(s.h, s.h.metas[r].bin), r);
      }
    }
  }

  // Write-backs

  /** Writing a location back hides stores from a crash and changes nothing else. */
  ghost predicate Settles(s: State, s': State, loc: Loc, v: Val) {
    s'.base == s.base[loc := v] && s'.log == Without(s.log, loc) && s'.acts == s.acts
  }

  lemma SettlesLoc(s: State, s': State, loc: Loc, v: Val, y: Loc)
    requires Settles(s, s', loc, v)
    ensures Now(s', y) == (if y == loc then v else Now(s, y))
    ensures Pending(s', y) <==> y != loc && Pending(s, y)
    ensures Read(s'.base, y) == if y == loc then v else Read(s.base, y)
  {
    LatestWithout(s.base, s.log, loc, v, y);
    if Pending(s', y) {
      var w :| w in s'.log && w.loc == y;
      WithoutHas(s.log, loc, w);
    }
    if y != loc && Pending(s, y) {
      var w :| w in s.log && w.loc == y;
      WithoutHas(s.log, loc, w);
    }
  }

  lemma SettlesMayBe(s: State, s': State, loc: Loc, v: Val, y: Loc, z: Val)
    requires Settles(s, s', loc, v) && MayBe(s', y, z)
    ensures if y == loc then z == v else MayBe(s, y, z)
  {
    WithoutHas(s.log, loc, Write(y, z));
  }

  lemma SettlesBinary(s: State, s': State, loc: Loc, v: Val, x: Loc)
    requires Settles(s, s', loc, v) && Binary(s.base, s.log, x) && (v == Now(s, loc) || loc != x)
    ensures Binary(s'.base, s'.log, x)
  {
    LatestIsOne(s.base, s.log, x);
    forall w | w in s'.log && w.loc == x ensures Bit(w.val) { WithoutHas(s.log, loc, w); }
  }

  lemma SettlesHead(s: State, s': State, loc: Loc, v: Val, x: Slot, r: Run)
    requires Settles(s, s', loc, v) && HeadOk(s, x, r) && (v == Now(s, loc) || loc.Bits?)
    requires s'.h.ncases == s.h.ncases && s'.h.metas == s.h.metas && s'.h.bins == s.h.bins && s'.h.user == s.h.user
    ensures HeadOk(s', x, r)
  {
    forall i: nat | i < s.h.metas[r].count ensures TokenFree(s', r, i) {
      assert TokenFree(s, r, i);
      SettlesLoc(s, s', loc, v, Token(r, i));
      SettlesBinary(s, s', loc, v, Token(r, i));
      if !Pending(s, Token(r, i)) { FixedNow(s, Token(r, i)); }
    }
    SettlesLoc(s, s', loc, v, Size(r));
    SettlesLoc(s, s', loc, v, Arena(r));
    SettlesLoc(s, s', loc, v, Count(r));
    FixedNow(s, Size(r));
    FixedNow(s, Arena(r));
    FixedNow(s, Count(r));
  }

  lemma SettlesBits(s: State, s': State, loc: Loc, v: Val, y: Slot, f: Ext, z: Val)
    requires Inv(s) && Settles(s, s', loc, v) && (v == Now(s, loc) || loc.Bits?)
             && (loc == Bits(f) ==> v == Now(s, loc))
    requires s'.h.ncases == s.h.ncases && s'.h.metas == s.h.metas && s'.h.bins == s.h.bins && s'.h.user == s.h.user
    requires y in s.h.shelves && f in s.h.shelves[y].runs
    requires y in s'.h.shelves && f in s'.h.shelves[y].runs && s'.h.shelves[y].runs[f] == s.h.shelves[y].runs[f]
             && s'.h.shelves[y].count == s.h.shelves[y].count
    ensures BitsOk(s', y, f) && ValueOk(s', y, f, z)
  {
    assert BitsOk(s, y, f) && ValueOk(s, y, f, z);
    SettlesLoc(s, s', loc, v, Bits(f));
    LatestIsOne(s.base, s.log, Bits(f));
    if Pending(s', Bits(f)) {
      var u :| AtWork(s, u, y, f);
      assert AtWork(s', u, y, f);
    }
    if MayBe(s', Bits(f), z) {
      SettlesMayBe(s, s', loc, v, Bits(f), z);
      assert MayBe(s, Bits(f), z);
      forall rid | rid in z.runs ensures HeadOk(s', y, Run(f, rid)) { SettlesHead(s, s', loc, v, y, Run(f, rid)); }
      var runs := s.h.shelves[y].runs[f];
      if z.runs != runs {
        var u :| AtWork(s, u, y, f) && z.runs == Undone(runs, s.acts[u]);
        assert AtWork(s', u, y, f);
      }
    }
  }

  lemma SettlesBuilt(s: State, s': State, loc: Loc, v: Val, done: set<Write>)
    requires Settles(s, s', loc, v) && Built(s.base, s.log, done)
             && (v == Now(s, loc) || forall d <- done :: d.loc != loc)
    ensures Built(s'.base, s'.log, done)
  {
    forall d | d in done ensures Latest(s'.base, s'.log, d.loc) == d.val { SettlesLoc(s, s', loc, v, d.loc); }
  }

  lemma WriteBackInv(s: State, s': State, loc: Loc)
    requires Inv(s) && WriteBackStep(s, s', loc)
    ensures Inv(s')
  {
    var v := Now(s, loc);
    forall y, f ensures BitsOk(s', y, f) {
      if y in s.h.shelves && f in s.h.shelves[y].runs { SettlesBits(s, s', loc, v, y, f, Num(0)); }
    }
    forall y, f, z ensures ValueOk(s', y, f, z) {
      if y in s.h.shelves && f in s.h.shelves[y].runs { SettlesBits(s, s', loc, v, y, f, z); }
    }
    forall u ensures ActOk(s', u) {
      assert ActOk(s, u);
      if u in s.acts && s.acts[u].Build? {
        var a := s.acts[u];
        SettlesBuilt(s, s', loc, v, Constructs(Run(a.e, a.rid), a.b, a.count) - a.todo);
      }
    }
    forall u, q ensures LocksOk(s', u, q) { assert LocksOk(s, u, q); }
    forall r, i ensures TokenOk(s', r, i) {
      assert TokenOk(s, r, i);
      SettlesLoc(s, s', loc, v, Token(r, i));
    }
  }

  lemma NewExtentInv(s: State, s': State, t: Thread, b: Bin, e: Ext)
    requires Inv(s) && NewExtentStep(s, s', t, b, e)
    ensures Inv(s')
  {
    var x := Home(s.h, b);
    ExtentEnters(s.h, x, e);
    forall y, f ensures BitsOk(s', y, f) { NewExtentBits(s, s', t, b, e, y, f, Num(0)); }
    forall y, f, z ensures ValueOk(s', y, f, z) { NewExtentBits(s, s', t, b, e, y, f, z); }
    forall u ensures ActOk(s', u) { NewExtentAct(s, s', t, b, e, u); }
    forall u, q ensures LocksOk(s', u, q) { assert LocksOk(s, u, q); }
    forall r, i ensures TokenOk(s', r, i) { NewExtentToken(s, s', t, b, e, r, i); }
  }

  lemma NewExtentToken(s: State, s': State, t: Thread, b: Bin, e: Ext, r: Run, i: nat)
    requires Inv(s) && NewExtentStep(s, s', t, b, e)
    ensures TokenOk(s', r, i)
  {
    assert TokenOk(s, r, i);
    SettlesLoc(s, s', Bits(e), Runs({}), Token(r, i));
    if Live(s'.h, r) {
      assert Home(s'.h, s.h.metas[r].bin) == Home(s.h, s.h.metas[r].bin) && Holds(s.h, Home(s.h, s.h.metas[r].bin), r);
    }
  }

  lemma NewExtentBits(s: State, s': State, t: Thread, b: Bin, e: Ext, y: Slot, f: Ext, z: Val)
    requires Inv(s) && NewExtentStep(s, s', t, b, e)
    ensures BitsOk(s', y, f) && ValueOk(s', y, f, z)
  {
    if y in s'.h.shelves && f in s'.h.shelves[y].runs {
      if f == e {
        assert y == Home(s.h, b);
        SettlesLoc(s, s', Bits(e), Runs({}), Bits(e));
        if MayBe(s', Bits(e), z) { SettlesMayBe(s, s', Bits(e), Runs({}), Bits(e), z); }
      } else {
        SettlesBits(s, s', Bits(e), Runs({}), y, f, z);
      }
    }
  }

  lemma NewExtentAct(s: State, s': State, t: Thread, b: Bin, e: Ext, u: Thread)
    requires Inv(s) && NewExtentStep(s, s', t, b, e)
    ensures ActOk(s', u)
  {
    assert ActOk(s, u);
    if u in s.acts && !s.acts[u].Idle? {
      var a := s.acts[u];
      assert Home(s.h, a.b) != Home(s.h, b) && Home(s'.h, a.b) == Home(s.h, a.b);
      if a.Build? {
        MayBuildStays(s.h, s'.h, a.b, a.e, a.rid, a.count);
        SettlesBuilt(s, s', Bits(e), Runs({}), Constructs(Run(a.e, a.rid), a.b, a.count) - a.todo);
      }
    }
  }

  // Tokens

  lemma UnpublishedInv(h: Heap, g: Region)
    requires SlabHeap.Inv(h) && g in h.user && g.run in h.metas
    ensures SlabHeap.Inv(Unpublished(h, g))
  {
    var h' := Unpublished(h, g);
    SameBins(h, h');
    forall c, x ensures CachedOk(h', c, x) {
      assert CachedOk(h, c, x);
      assert InCache(h', x, c) <==> InCache(h, x, c);
    }
    forall c ensures OnceIn(h', c) { assert OnceIn(h, c); }
    forall x, c, d ensures OneCache(h', x, c, d) { assert OneCache(h, x, c, d); }
    forall x ensures Accounted(h', x) {
      assert Accounted(h, x);
      if Allocated(h, x) && x !in h'.user { var c :| InCache(h, x, c); assert InCache(h', x, c); }
    }
    forall r, i ensures SlabHeap.TokenOk(h', r, i) { assert SlabHeap.TokenOk(h, r, i); }
  }

  /** One token is stored to; the heap's metadata says the same of it and nothing else changes. */
  ghost predicate Tokens(s: State, s': State, g: Region, v: bool) {
    && g in s.h.user && g.run in s.h.metas
    && s'.base == s.base && s'.acts == s.acts && s'.log == s.log + [Write(Token(g.run, g.ind), Num(if v then 1 else 0))]
    && var m := s.h.metas[g.run];
    s'.h == s.h.(metas := s.h.metas[g.run := m.(busy := if v then m.busy + {g.ind} else m.busy - {g.ind})])
  }

  lemma TokensBits(s: State, s': State, g: Region, v: bool, y: Slot, f: Ext)
    requires BitsOk(s, y, f) && Tokens(s, s', g, v)
    ensures BitsOk(s', y, f)
  {
    var w := s'.log[|s.log|];
    LatestStore(s, w, Bits(f));
    assert Pending(s', Bits(f)) <==> Pending(WithStore(s, w), Bits(f));
    if y in s.h.shelves && f in s.h.shelves[y].runs && Pending(s', Bits(f)) {
      var u :| AtWork(s, u, y, f);
      assert AtWork(s', u, y, f);
    }
  }

  lemma TokensHead(s: State, s': State, g: Region, v: bool, y: Slot, r: Run)
    requires HeadOk(s, y, r) && Tokens(s, s', g, v)
    ensures HeadOk(s', y, r)
  {
    var w := s'.log[|s.log|];
    HeadStays(s, w, y, r);
    SameHead(WithStore(s, w), s', y, r);
  }

  lemma TokensValue(s: State, s': State, g: Region, v: bool, y: Slot, f: Ext, z: Val)
    requires ValueOk(s, y, f, z) && Tokens(s, s', g, v)
    ensures ValueOk(s', y, f, z)
  {
    if y in s.h.shelves && f in s.h.shelves[y].runs && MayBe(s', Bits(f), z) {
      assert MayBe(s, Bits(f), z);
      forall rid | rid in z.runs ensures HeadOk(s', y, Run(f, rid)) { TokensHead(s, s', g, v, y, Run(f, rid)); }
      var runs := s.h.shelves[y].runs[f];
      if z.runs != runs {
        var u :| AtWork(s, u, y, f) && z.runs == Undone(runs, s.acts[u]);
        assert AtWork(s', u, y, f);
      }
    }
  }

  lemma TokensAct(s: State, s': State, g: Region, v: bool, u: Thread)
    requires Inv(s) && Tokens(s, s', g, v)
    ensures ActOk(s', u)
  {
    assert ActOk(s, u);
    if u in s.acts && s.acts[u].Build? {
      var a := s.acts[u];
      MayBuildStays(s.h, s'.h, a.b, a.e, a.rid, a.count);
      BuildIsDead(s, u);
      assert Allocated(s.h, g);
      BuildUntouched(s, s'.log[|s.log|], a);
    }
  }

  lemma TokensToken(s: State, s': State, g: Region, v: bool, r: Run, i: nat)
    requires Inv(s) && Tokens(s, s', g, v)
    ensures TokenOk(s', r, i)
  {
    assert TokenOk(s, r, i);
    LatestStore(s, s'.log[|s.log|], Token(r, i));
    if Live(s'.h, r) {
      assert Home(s'.h, s.h.metas[r].bin) == Home(s.h, s.h.metas[r].bin) && Holds(s.h, Home(s.h, s.h.metas[r].bin), r);
    }
  }

  lemma TokensInv(s: State, s': State, g: Region, v: bool)
    requires Inv(s) && Tokens(s, s', g, v) && SlabHeap.Inv(s'.h)
    ensures Inv(s')
  {
    forall y, f ensures BitsOk(s', y, f) {
      assert BitsOk(s, y, f);
      TokensBits(s, s', g, v, y, f);
    }
    forall y, f, z ensures ValueOk(s', y, f, z) {
      assert ValueOk(s, y, f, z);
      TokensValue(s, s', g, v, y, f, z);
    }
    forall u ensures ActOk(s', u) { TokensAct(s, s', g, v, u); }
    forall u, q ensures LocksOk(s', u, q) { assert LocksOk(s, u, q); }
    forall r, i ensures TokenOk(s', r, i) { TokensToken(s, s', g, v, r, i); }
  }

  lemma PublishTokenInv(s: State, s': State, g: Region)
    requires Inv(s) && PublishTokenStep(s, s', g)
    ensures Inv(s')
  {
    PublishInv(s.h, g);
    TokensInv(s, s', g, true);
  }

  lemma FireTokenInv(s: State, s': State, g: Region)
    requires Inv(s) && FireTokenStep(s, s', g)
    ensures Inv(s')
  {
    UnpublishedInv(s.h, g);
    TokensInv(s, s', g, false);
  }

  lemma FreeRegionInv(s: State, s': State, c: Cache, g: Region)
    requires Inv(s) && FreeRegionStep(s, s', c, g)
    ensures Inv(s')
  {
    FreeInv(s.h, c, g);
    assert Allocated(s.h, g) && TokenOk(s, g.run, g.ind);
    InRange(s.h, g);
    assert g.ind !in s.h.metas[g.run].busy;
    assert s.h.metas[g.run].busy - {g.ind} == s.h.metas[g.run].busy;
    assert s'.h.metas == s.h.metas;
    FixedNow(s, Token(g.run, g.ind));
    HeapOnly(s, s'.h);
  }

  // Whole runs

  lemma NextInv(s: State, s': State, a: SlabCrash.Step)
    requires Inv(s) && NextStep(s, s', a)
    ensures Inv(s')
  {
    match a
    case Local(step) => LocalInv(s, s', step);
    case NewExtent(t, b, e) => NewExtentInv(s, s', t, b, e);
    case Begin(t, b, e, count) => BeginInv(s, s', t, b, e, count);
    case Construct(t, w) => ConstructInv(s, s', t, w);
    case SetBit(t) => SetBitInv(s, s', t);
    case ClearBit(t, c) => ClearBitInv(s, s', t, c);
    case DropExtent(t) => DropExtentInv(s, s', t);
    case Unlock(t) => UnlockInv(s, s', t);
    case PublishToken(g) => PublishTokenInv(s, s', g);
    case FireToken(g) => FireTokenInv(s, s', g);
    case FreeRegion(c, g) => FreeRegionInv(s, s', c, g);
    case WriteBack(loc) => WriteBackInv(s, s', loc);
  }

  /** Any allocator in order whose persistent part, up to marks, is durable, with nobody in the middle of anything. */
  ghost predicate Init(s: State) {
    && SlabHeap.Inv(s.h) && (forall w <- s.log :: w.loc.Mark?) && (forall t <- s.acts :: s.acts[t].Idle?)
    && (forall x, e {:trigger s.h.shelves[x].runs[e]} | x in s.h.shelves && e in s.h.shelves[x].runs ::
          Read(s.base, Bits(e)) == Runs(s.h.shelves[x].runs[e]))
    && (forall r {:trigger s.h.metas[r]} | r in s.h.metas && Live(s.h, r) ::
          var m := s.h.metas[r];
          && Read(s.base, Size(r)) == Num(m.bin.cls) && Read(s.base, Arena(r)) == Num(m.bin.arena)
          && Read(s.base, Count(r)) == Num(m.count)
          && forall i: nat {:trigger Token(r, i)} | i < m.count ::
             Read(s.base, Token(r, i)) == Num(if i in m.busy then 1 else 0))
  }

  /** A new pool, over memory with any content. */
  lemma NewPoolInit(h: Heap, base: map<Loc, Val>, threads: set<Thread>)
    requires SlabHeapProof.Init(h)
    ensures Init(State(h, base, [], map t | t in threads :: Idle))
  {
    SlabHeapProof.InitInv(h);
  }

  lemma InitSettled(s: State, loc: Loc)
    requires (forall w <- s.log :: w.loc.Mark?) && !loc.Mark?
    ensures !Pending(s, loc) && Now(s, loc) == Read(s.base, loc)
            && forall v :: MayBe(s, loc, v) ==> v == Read(s.base, loc)
  {
    FixedNow(s, loc);
    forall v ensures Write(loc, v) !in s.log { assert Write(loc, v).loc == loc; }
  }

  lemma InitHead(s: State, x: Slot, r: Run)
    requires Init(s) && Holds(s.h, x, r)
    ensures HeadOk(s, x, r)
  {
    assert Live(s.h, r) && RunOk(s.h, r);
    InitSettled(s, Size(r));
    InitSettled(s, Arena(r));
    InitSettled(s, Count(r));
    forall i: nat | i < s.h.metas[r].count ensures TokenFree(s, r, i) {
      InitSettled(s, Token(r, i));
      assert SlabHeap.TokenOk(s.h, r, i);
    }
  }

  lemma InitInv(s: State)
    requires Init(s)
    ensures Inv(s)
  {
    forall x, e ensures BitsOk(s, x, e) { InitSettled(s, Bits(e)); }
    forall x, e, v ensures ValueOk(s, x, e, v) {
      InitSettled(s, Bits(e));
      if x in s.h.shelves && e in s.h.shelves[x].runs && MayBe(s, Bits(e), v) {
        assert Exact(s.h.shelves[x]);
        forall rid | rid in v.runs ensures HeadOk(s, x, Run(e, rid)) { InitHead(s, x, Run(e, rid)); }
      }
    }
    forall r, i ensures TokenOk(s, r, i) { InitSettled(s, Token(r, i)); }
  }

  ghost predicate Trace(states: seq<State>, steps: seq<SlabCrash.Step>) {
    && |states| == |steps| + 1 && Init(states[0])
    && forall i: nat {:trigger steps[i]} | i < |steps| :: NextStep(states[i], states[i + 1], steps[i])
  }

  lemma {:induction false} TraceInv(states: seq<State>, steps: seq<SlabCrash.Step>, n: nat)
    requires Trace(states, steps) && n <= |steps|
    ensures Inv(states[n])
  {
    if n == 0 {
      InitInv(states[0]);
    } else {
      TraceInv(states, steps, n - 1);
      NextInv(states[n - 1], states[n], steps[n - 1]);
    }
  }

  // What every crash leaves

  /** The bitmaps in an image are those of the moment, or those before the bit operation in flight. */
  ghost predicate BitmapsOf(s: State, k: Heap) {
    && k.shelves.Keys == s.h.shelves.Keys
    && forall x, e {:trigger k.shelves[x].runs[e]} | x in k.shelves ::
         (e in k.shelves[x].runs <==> e in s.h.shelves[x].runs)
         && (e in k.shelves[x].runs ==> NowOrBefore(s, x, e, k.shelves[x].runs[e]))
  }

  /** A region the user has, whose token is durable, is published in the image as its token says; no other region is. */
  ghost predicate TokensOf(s: State, k: Heap) {
    forall g {:trigger Published(k, g)} ::
      && (Published(k, g) ==> g in s.h.user)
      && (g in s.h.user && !Pending(s, Token(g.run, g.ind)) ==> (Published(k, g) <==> Published(s.h, g)))
  }

  lemma ImageBitmaps(s: State, im: map<Loc, Val>)
    requires Inv(s) && CrashImage(s, im)
    ensures BitmapsOf(s, HeapOf(s.h, im))
  {
    var k := HeapOf(s.h, im);
    forall x, e | x in k.shelves && e in k.shelves[x].runs ensures NowOrBefore(s, x, e, k.shelves[x].runs[e]) {
      assert ValueOk(s, x, e, Read(im, Bits(e))) && MayBe(s, Bits(e), Read(im, Bits(e)));
    }
  }

  /** A run whose bit is on its way has no region taken. */
  lemma SealedIsFree(s: State, t: Thread)
    requires Inv(s) && t in s.acts && s.acts[t].Sealing?
    ensures var r := Run(s.acts[t].e, s.acts[t].rid); r in s.h.metas && Taken(s.h, r) == {}
  {
    assert ActOk(s, t) && EntryOk(s.h, s.acts[t].b, Run(s.acts[t].e, s.acts[t].rid));
  }

  /** The run of a region that the user has is in use in every image. */
  lemma UserRunSurvives(s: State, im: map<Loc, Val>, g: Region)
    requires Inv(s) && CrashImage(s, im) && g in s.h.user
    ensures Live(s.h, g.run) && Holds(HeapOf(s.h, im), Home(s.h, s.h.metas[g.run].bin), g.run)
  {
    assert Allocated(s.h, g);
    var r := g.run;
    var x := Home(s.h, s.h.metas[r].bin);
    assert Holds(s.h, x, r);
    var v := Read(im, Bits(r.ext));
    assert ValueOk(s, x, r.ext, v) && MayBe(s, Bits(r.ext), v);
    var runs := s.h.shelves[x].runs[r.ext];
    if v.runs != runs {
      var t :| AtWork(s, t, x, r.ext) && v.runs == Undone(runs, s.acts[t]);
      if s.acts[t].Sealing? { SealedIsFree(s, t); }
    }
  }

  lemma ImageTokens(s: State, im: map<Loc, Val>, g: Region)
    requires Inv(s) && CrashImage(s, im)
    ensures Published(HeapOf(s.h, im), g) ==> g in s.h.user
    ensures g in s.h.user && !Pending(s, Token(g.run, g.ind)) ==> (Published(HeapOf(s.h, im), g) <==> Published(s.h, g))
  {
    var k, r := HeapOf(s.h, im), g.run;
    if Published(k, g) {
      var x := Home(k, k.metas[r].bin);
      HeldInImage(s, im, x, r);
      var v := Read(im, Bits(r.ext));
      assert ValueOk(s, x, r.ext, v) && MayBe(s, Bits(r.ext), v) && Run(r.ext, r.rid) == r && HeadOk(s, x, r);
      assert TokenFree(s, r, g.ind);
      if g !in s.h.user { FixedInImage(s, im, Token(r, g.ind), Num(0)); }
    }
    if g in s.h.user && !Pending(s, Token(r, g.ind)) {
      UserRunSurvives(s, im, g);
      HeldInImage(s, im, Home(s.h, s.h.metas[r].bin), r);
      InRange(s.h, g);
      assert TokenOk(s, r, g.ind);
      FixedNow(s, Token(r, g.ind));
      FixedInImage(s, im, Token(r, g.ind), Now(s, Token(r, g.ind)));
    }
  }

  /**
    At every moment of every run, whatever a crash leaves of memory is an image that the rebuild accepts.
    Its bitmaps are those of the moment, up to the bit operation in flight, a run it shows in use has its
    metadata whole, the durable tokens of the user's regions count, and no free region is published.
   */
  lemma CrashAnywhere(states: seq<State>, steps: seq<SlabCrash.Step>, n: nat, im: map<Loc, Val>)
    requires Trace(states, steps) && n <= |steps| && CrashImage(states[n], im)
    ensures Image(HeapOf(states[n].h, im))
    ensures BitmapsOf(states[n], HeapOf(states[n].h, im)) && TokensOf(states[n], HeapOf(states[n].h, im))
  {
    TraceInv(states, steps, n);
    var s := states[n];
    CrashIsImage(s, im);
    ImageBitmaps(s, im);
    forall g ensures Published(HeapOf(s.h, im), g) ==> g in s.h.user { ImageTokens(s, im, g); }
    forall g
      ensures g in s.h.user && !Pending(s, Token(g.run, g.ind)) ==>
              (Published(HeapOf(s.h, im), g) <==> Published(s.h, g))
    {
      ImageTokens(s, im, g);
    }
  }

  // The cut steps are the heap's steps

  lemma OfferBack(s: Shelf, e: Ext)
    requires e !in s.runs && e !in s.open
    ensures var k := Offer(s, e); k.(runs := k.runs - {e}, open := k.open - {e}) == s
  {
    var k := Offer(s, e);
    assert k.runs - {e} == s.runs && k.open - {e} == s.open;
  }

  /** An extent that the run bin keeps when a run comes back may not be dropped. */
  lemma KeptStays(s: Shelf, e: Ext, rid: nat)
    requires e in s.runs && e in Give(s, e, rid).runs && Give(s, e, rid).runs[e] == {}
    ensures |Give(s, e, rid).open| <= EXTENT_HOLD
  {
  }

  /** Clearing the bit, waiting for it and dropping the extent are together the return of the run. */
  lemma DropIsSpill(s: State, s1: State, s2: State, s3: State, t: Thread, c: Cache)
    requires SlabHeap.Inv(s.h) && ClearBitStep(s, s1, t, c) && WriteBackStep(s1, s2, Bits(s1.acts[t].e))
    requires DropExtentStep(s2, s3, t)
    ensures s3.h == DoSpill(s.h, c)
  {
    var r := s.h.caches[c][0].run;
    assert s1.acts[t].e == r.ext && s2.h == SpillKeep(s.h, c);
    var x := Home(s.h, s.h.metas[r].bin);
    assert Exact(s.h.shelves[x]);
    SpillIs(s.h, c);
    DroppedIsGiven(s.h, DoSpill(s.h, c), r);
  }

  lemma DroppedIsGiven(h: Heap, h1: Heap, r: Run)
    requires Given(h, h1, r) && Exact(h.shelves[Home(h, h.metas[r].bin)])
    ensures var x, e := Home(h, h.metas[r].bin), r.ext;
            var k := if e !in h1.shelves[x].runs then WithExtent(h1, x, e) else h1;
            && x in k.shelves && e in k.shelves[x].runs
            && (k.shelves[x].runs[e] == {} && |k.shelves[x].open| > EXTENT_HOLD ==> WithoutExtent(k, x, e) == h1)
  {
    var x, e := Home(h, h.metas[r].bin), r.ext;
    GiveKeeps(h.shelves[x], e, r.rid);
    if e in h1.shelves[x].runs {
      if h1.shelves[x].runs[e] == {} { KeptStays(h.shelves[x], e, r.rid); }
    } else {
      ExtentBack(h1, x, e);
    }
  }

  lemma ExtentBack(h: Heap, x: Slot, e: Ext)
    requires x in h.shelves && e !in h.shelves[x].runs && e !in h.shelves[x].open
    ensures WithoutExtent(WithExtent(h, x, e), x, e) == h
  {
    OfferBack(h.shelves[x], e);
    assert WithoutExtent(WithExtent(h, x, e), x, e).shelves == h.shelves;
  }

  /** An extent for an empty run bin and the run taken from it are together the purchase of a run. */
  lemma NewExtentIsStock(h: Heap, b: Bin, e: Ext, count: nat)
    requires CanStock(h, b, e, count) && h.shelves[Home(h, b)].open == {}
    ensures var h1 := WithExtent(h, Home(h, b), e);
            CanStock(h1, b, e, count) && DoStock(h1, b, e, count) == DoStock(h, b, e, count)
  {
    var h1 := WithExtent(h, Home(h, b), e);
    assert Home(h1, b) == Home(h, b) && Ready(h1, b, e) == Ready(h, b, e);
    assert DoStock(h1, b, e, count).shelves == DoStock(h, b, e, count).shelves;
  }

  // Session after session

  /** The memory that a rebuild leaves: the crash's, with some marks cleared or being cleared. */
  ghost predicate Remains(im: map<Loc, Val>, s: State) {
    (forall loc: Loc {:trigger Read(s.base, loc)} | !loc.Mark? :: Read(s.base, loc) == Read(im, loc))
    && (forall w <- s.log :: w.loc.Mark?) && forall t <- s.acts :: s.acts[t].Idle?
  }

  lemma LiveInImage(s: State, im: map<Loc, Val>, h': Heap, r: Run)
    requires Inv(s) && CrashImage(s, im) && Rebuilt(HeapOf(s.h, im), h') && SlabHeap.Inv(h') && Live(h', r)
    ensures Live(HeapOf(s.h, im), r) && h'.metas[r] == MetaOf(im, r).(polluted := false)
    ensures Holds(HeapOf(s.h, im), Home(s.h, s.h.metas[r].bin), r)
  {
    var k, x := HeapOf(s.h, im), Home(h', h'.metas[r].bin);
    assert Holds(k, x, r);
    HeldInImage(s, im, x, r);
  }

  lemma RestartRun(s: State, im: map<Loc, Val>, s': State, r: Run)
    requires Inv(s) && CrashImage(s, im) && Rebuilt(HeapOf(s.h, im), s'.h) && SlabHeap.Inv(s'.h) && Remains(im, s')
    requires Live(s'.h, r)
    ensures var m := s'.h.metas[r];
            && Read(s'.base, Size(r)) == Num(m.bin.cls) && Read(s'.base, Arena(r)) == Num(m.bin.arena)
            && Read(s'.base, Count(r)) == Num(m.count)
            && forall i: nat {:trigger Token(r, i)} | i < m.count ::
               Read(s'.base, Token(r, i)) == Num(if i in m.busy then 1 else 0)
  {
    LiveInImage(s, im, s'.h, r);
    HeldInWords(s, im, Home(s.h, s.h.metas[r].bin), r);
  }

  /** What the image has of such a run, word by word. */
  lemma HeldInWords(s: State, im: map<Loc, Val>, x: Slot, r: Run)
    requires Inv(s) && CrashImage(s, im) && Holds(HeapOf(s.h, im), x, r)
    ensures var m := MetaOf(im, r);
            && Read(im, Size(r)) == Num(m.bin.cls) && Read(im, Arena(r)) == Num(m.bin.arena)
            && Read(im, Count(r)) == Num(m.count)
            && forall i: nat {:trigger Token(r, i)} | i < m.count ::
               Read(im, Token(r, i)) == Num(if i in m.busy then 1 else 0)
  {
    var v := Read(im, Bits(r.ext));
    assert ValueOk(s, x, r.ext, v) && MayBe(s, Bits(r.ext), v) && Run(r.ext, r.rid) == r && HeadOk(s, x, r);
    var m := s.h.metas[r];
    FixedInImage(s, im, Size(r), Num(m.bin.cls));
    FixedInImage(s, im, Arena(r), Num(m.bin.arena));
    FixedInImage(s, im, Count(r), Num(m.count));
    forall i: nat | i < m.count ensures Bit(Read(im, Token(r, i))) {
      assert TokenFree(s, r, i);
      assert Read(im, Token(r, i)) == Read(s.base, Token(r, i)) || Write(Token(r, i), Read(im, Token(r, i))) in s.log;
    }
  }

  /** The rebuilt allocator over what the crash left of memory is a start again. */
  lemma RestartInit(s: State, im: map<Loc, Val>, s': State)
    requires Inv(s) && CrashImage(s, im) && Rebuilt(HeapOf(s.h, im), s'.h) && SlabHeap.Inv(s'.h) && Remains(im, s')
    ensures Init(s')
  {
    forall x, e | x in s'.h.shelves && e in s'.h.shelves[x].runs
      ensures Read(s'.base, Bits(e)) == Runs(s'.h.shelves[x].runs[e])
    {
      assert ValueOk(s, x, e, Read(im, Bits(e))) && MayBe(s, Bits(e), Read(im, Bits(e)));
    }
    forall r | r in s'.h.metas && Live(s'.h, r)
      ensures var m := s'.h.metas[r];
              && Read(s'.base, Size(r)) == Num(m.bin.cls) && Read(s'.base, Arena(r)) == Num(m.bin.arena)
              && Read(s'.base, Count(r)) == Num(m.count)
              && forall i: nat {:trigger Token(r, i)} | i < m.count ::
                 Read(s'.base, Token(r, i)) == Num(if i in m.busy then 1 else 0)
    {
      RestartRun(s, im, s', r);
    }
  }

  /** One session: a run of steps and what the crash at its end leaves. */
  datatype Session = Session(states: seq<State>, steps: seq<SlabCrash.Step>, im: map<Loc, Val>)

  ghost predicate Goes(p: Session) {
    && |p.states| == |p.steps| + 1 && CrashImage(p.states[|p.steps|], p.im)
    && forall i: nat {:trigger p.steps[i]} | i < |p.steps| :: NextStep(p.states[i], p.states[i + 1], p.steps[i])
  }

  /** The next session starts from the rebuild of what this one's crash left. */
  ghost predicate Restarts(p: Session, s: State)
    requires Goes(p)
  {
    Rebuilt(HeapOf(p.states[|p.steps|].h, p.im), s.h) && SlabHeap.Inv(s.h) && Remains(p.im, s)
  }

  /** Crash after crash, from a first start. */
  ghost predicate Life(ps: seq<Session>) {
    && ps != [] && Goes(ps[0]) && Init(ps[0].states[0])
    && forall i: nat {:trigger Follows(ps, i)} :: Follows(ps, i)
  }

  ghost predicate Follows(ps: seq<Session>, i: nat) {
    i + 1 < |ps| ==> Goes(ps[i]) && Goes(ps[i + 1]) && Restarts(ps[i], ps[i + 1].states[0])
  }

  /** Every session of a life is a run from a start, so whatever holds of such runs holds in every session. */
  lemma {:induction false} EverySession(ps: seq<Session>, i: nat)
    requires Life(ps) && i < |ps|
    ensures Trace(ps[i].states, ps[i].steps)
  {
    if i > 0 {
      EverySession(ps, i - 1);
      assert Follows(ps, i - 1);
      NextSession(ps[i - 1], ps[i].states[0]);
    }
    SessionIsTrace(ps[i]);
  }

  lemma NextSession(p: Session, s: State)
    requires Goes(p) && Trace(p.states, p.steps) && Restarts(p, s)
    ensures Init(s)
  {
    TraceInv(p.states, p.steps, |p.steps|);
    RestartInit(p.states[|p.steps|], p.im, s);
  }

  lemma SessionIsTrace(p: Session)
    requires Goes(p) && Init(p.states[0])
    ensures Trace(p.states, p.steps)
  {
  }

  /**
    A crash at any moment and the rebuild: the rebuilder is given the durably published regions and
    nothing that was free.
   */
  method CrashAndRecover(a: Allocator, ghost states: seq<State>, ghost steps: seq<SlabCrash.Step>, ghost n: nat,
      ghost im: map<Loc, Val>)
    returns (visits: seq<Region>)
    requires Trace(states, steps) && n <= |steps| && CrashImage(states[n], im) && a.State() == HeapOf(states[n].h, im)
    modifies a
    ensures SlabHeap.Inv(a.State()) && Rebuilt(HeapOf(states[n].h, im), a.State())
    ensures forall g {:trigger g in visits} :: g in visits <==> Allocated(a.State(), g)
    ensures forall g <- visits :: g in states[n].h.user
    ensures forall g {:trigger Published(states[n].h, g)} |
              g in states[n].h.user && !Pending(states[n], Token(g.run, g.ind)) ::
              g in visits <==> Published(states[n].h, g)
    ensures forall i, j | 0 <= i < j < |visits| :: visits[i] != visits[j]
  {
    CrashAnywhere(states, steps, n, im);
    visits := Recover(a);
  }
}
