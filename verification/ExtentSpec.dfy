/**
  Acquiring and releasing an extent on the allocator's abstract state.
 */
module ExtentSpec {
  import opened Basics
  import opened ExtentPool

  /** A request: region type, run case and run or region size. */
  datatype Request = Request(kind: RegionType, rcase: nat, size: nat) {
    predicate Valid() {
      kind != Invalid && 0 < size <= EXTENT_SIZE && EXTENT_SIZE % size == 0
    }
  }

  /** The descriptor `construct` leaves. */
  function Constructed(x: Request, next: Option<nat>, runs: Option<nat>): Desc
    requires x.Valid()
  {
    Desc(x.kind, x.rcase, x.size, EXTENT_SIZE / x.size, next, runs, {})
  }

  /** allocate_meta: from the free list if it can, else the next unused array. */
  function TakeMeta(v: View): (nat, View) {
    if v.freeMeds != [] then (v.freeMeds[0], v.(freeMeds := v.freeMeds[1..]))
    else (v.medUsed, v.(medUsed := v.medUsed + RUNS_PER_EXTENT))
  }

  function TakeExtent(v: View): (nat, View) {
    if v.freeExts != [] then (v.freeExts[0], v.(freeExts := v.freeExts[1..]))
    else (v.extUsed, v.(extUsed := v.extUsed + 1))
  }

  predicate CanAcquire(v: View, total: nat) {
    v.freeExts != [] || v.extUsed < total
  }

  function Acquired(v: View, x: Request): (nat, View)
    requires x.Valid()
  {
    var (i, v1) := TakeExtent(v);
    var (runs, v2) := if x.kind == Medium then var (m, w) := TakeMeta(v1); (Some(m), w) else (None, v1);
    (i, v2.(alloc := v2.alloc[i := Meaning(Constructed(x, None, runs))]))
  }

  function Released(v: View, i: nat): View
    requires i in v.alloc
  {
    var meds := if v.alloc[i].kind == Medium && v.alloc[i].runs.Some? then [v.alloc[i].runs.value] + v.freeMeds
                else v.freeMeds;
    v.(freeExts := [i] + v.freeExts, freeMeds := meds, alloc := v.alloc - {i})
  }

  ghost function Below(n: nat): set<nat> {
    if n == 0 then {} else Below(n - 1) + {n - 1}
  }

  ghost function Elements(s: seq<nat>): set<nat> {
    if s == [] then {} else {s[0]} + Elements(s[1..])
  }

  lemma {:induction false} BelowIs(n: nat)
    ensures |Below(n)| == n && forall i :: i in Below(n) <==> 0 <= i < n
  {
    if n > 0 { BelowIs(n - 1); }
  }

  lemma {:induction false} ElementsIs(s: seq<nat>)
    ensures forall i :: i in Elements(s) <==> i in s
    ensures Distinct(s) ==> |Elements(s)| == |s|
  {
    if s != [] { ElementsIs(s[1..]); }
  }

  lemma AllocatedBelowUsed(v: View, total: nat)
    requires ExtInv(v, total)
    ensures |v.alloc| + |v.freeExts| == v.extUsed
  {
    var free := Elements(v.freeExts);
    ElementsIs(v.freeExts);
    BelowIs(v.extUsed);
    assert v.alloc.Keys + free == Below(v.extUsed);
    assert v.alloc.Keys !! free;
    assert |v.alloc.Keys + free| == |v.alloc.Keys| + |free|;
  }

  lemma MediumsBound(v: View, total: nat)
    requires ExtInv(v, total)
    ensures |Mediums(v)| + |v.freeExts| <= v.extUsed
  {
    AllocatedBelowUsed(v, total);
    assert Mediums(v) <= v.alloc.Keys;
    SubsetSize(Mediums(v), v.alloc.Keys);
  }

  lemma SplitFirst(s: seq<nat>)
    requires s != [] && Distinct(s)
    ensures Distinct(s[1..]) && s[0] in s && s[0] !in s[1..] && forall i :: i in s <==> i == s[0] || i in s[1..]
  {
  }

  lemma AcquireKeepsExtents(v: View, total: nat, x: Request)
    requires ExtInv(v, total) && x.Valid() && CanAcquire(v, total)
    ensures var (i, v') := Acquired(v, x);
            && ExtInv(v', total) && i !in v.alloc && i < total
            && v'.alloc.Keys == v.alloc.Keys + {i}
            && Mediums(v') == if x.kind == Medium then Mediums(v) + {i} else Mediums(v)
  {
    var (i, v') := Acquired(v, x);
    if v.freeExts != [] { SplitFirst(v.freeExts); }
    forall j ensures j in v'.alloc || j in v'.freeExts <==> 0 <= j < v'.extUsed {
    }
  }

  /** Handing out one more array keeps the medium metas conserved, whichever of its two sources it comes from. */
  lemma TakeMetaKeeps(v: View, v': View, i: nat)
    requires MedInv(v) && i !in v.alloc && Mediums(v') == Mediums(v) + {i}
    requires forall j <- v.alloc :: j in v'.alloc && v'.alloc[j] == v.alloc[j]
    requires var (m, w) := TakeMeta(v);
             v'.freeMeds == w.freeMeds && v'.medUsed == w.medUsed && v'.alloc[i].runs == Some(m)
    requires |Mediums(v)| + 1 <= v'.extUsed && v.extUsed <= v'.extUsed
    ensures MedInv(v')
  {
    var (m, w) := TakeMeta(v);
    if v.freeMeds != [] { SplitFirst(v.freeMeds); }
    forall j <- Mediums(v')
      ensures v'.alloc[j].runs.Some? && MedArray(v', v'.alloc[j].runs.value) && v'.alloc[j].runs.value !in v'.freeMeds
    {
      assert j == i || j in Mediums(v);
    }
    forall j, k | j in Mediums(v') && k in Mediums(v') && j != k ensures v'.alloc[j].runs != v'.alloc[k].runs {
      assert j == i || j in Mediums(v);
      assert k == i || k in Mediums(v);
    }
  }

  /** What was asked for is what the extent is, its regions or runs fill it, and every other extent is as it was. */
  lemma AcquiredIs(v: View, x: Request)
    requires x.Valid()
    ensures var (i, v') := Acquired(v, x);
            && i == (if v.freeExts != [] then v.freeExts[0] else v.extUsed)
            && i in v'.alloc && Asked(v'.alloc[i], x)
            && v'.alloc.Keys == v.alloc.Keys + {i}
            && forall j {:trigger v'.alloc[j]} | j in v.alloc && j != i :: v'.alloc[j] == v.alloc[j]
  {
    var q := EXTENT_SIZE / x.size;
    assert EXTENT_SIZE == x.size * q + EXTENT_SIZE % x.size;
  }

  /** The extent is of the requested kind, case and size, cut without a rest, and nothing of it is in use. */
  predicate Asked(e: Extent, x: Request) {
    && e.kind == x.kind && e.rcase == x.rcase && e.size == x.size && e.count * e.size == EXTENT_SIZE
    && e.used == {} && (e.runs.Some? <==> x.kind == Medium)
  }

  /** An acquired extent was in nobody's hands; the array of medium metas it gets lies within the segment. */
  lemma AcquireKeeps(v: View, total: nat, x: Request)
    requires ViewInv(v, total) && x.Valid() && CanAcquire(v, total)
    ensures var (i, v') := Acquired(v, x);
            && ViewInv(v', total)
            && i !in v.alloc && i < total && v'.alloc.Keys == v.alloc.Keys + {i}
            && v'.medUsed <= RUNS_PER_EXTENT * total
  {
    var (i, v') := Acquired(v, x);
    AcquireKeepsExtents(v, total, x);
    MediumsBound(v, total);
    if x.kind == Medium {
      TakeMetaKeeps(v, v', i);
    }
  }

  lemma ReleaseKeepsExtents(v: View, total: nat, i: nat)
    requires ExtInv(v, total) && i in v.alloc
    ensures ExtInv(Released(v, i), total) && Mediums(Released(v, i)) == Mediums(v) - {i}
  {
    var v' := Released(v, i);
    forall j ensures j in v'.alloc || j in v'.freeExts <==> 0 <= j < v'.extUsed {
      assert j in v'.freeExts <==> j == i || j in v.freeExts;
    }
  }

  lemma ReleaseKeepsMetas(v: View, v': View, i: nat)
    requires MedInv(v) && i in v.alloc && v' == Released(v, i) && Mediums(v') == Mediums(v) - {i}
    ensures MedInv(v')
  {
    forall m ensures m in v'.freeMeds <==> m in v.freeMeds || (i in Mediums(v) && m == v.alloc[i].runs.value) {
    }
  }

  lemma ReleaseKeeps(v: View, total: nat, i: nat)
    requires ViewInv(v, total) && i in v.alloc
    ensures ViewInv(Released(v, i), total)
    ensures var w := Released(v, i);
            && w.alloc == v.alloc - {i} && w.freeExts == [i] + v.freeExts && w.extUsed == v.extUsed
            && w.medUsed == v.medUsed
            && w.freeMeds == if v.alloc[i].kind == Medium then [v.alloc[i].runs.value] + v.freeMeds else v.freeMeds
  {
    ReleaseKeepsExtents(v, total, i);
    ReleaseKeepsMetas(v, Released(v, i), i);
  }

  /** Releasing what was just taken from the free lists puts both lists back. */
  lemma ReleaseUndoesReclaim(v: View, total: nat, x: Request)
    requires ViewInv(v, total) && x.Valid() && v.freeExts != [] && (x.kind == Medium ==> v.freeMeds != [])
    ensures var (i, v') := Acquired(v, x);
            Released(v', i) == v
  {
    var (i, v') := Acquired(v, x);
    assert i in v.freeExts;
    assert v'.alloc - {i} == v.alloc;
  }
}
