/**
  Which runs a size class is cut from: the run types, their sizes, and how many regions a run holds.
 */
module RunSizes {
  import opened Basics
  import opened HashCode
  import opened SizeClass
  import opened RegionLayout

  const RUN_TYPES: nat := 6             // kRunTypeCount
  const SMALL_TYPES: nat := 3           // the run bins up to kSRunBinBound
  const MAX_SMALL: nat := 0x800         // kMaxSmallSize

  /** kRunSizeTab */
  function RunSize(t: nat): nat
    requires t < RUN_TYPES
  {
    [0x4000, 0x8000, 0x1_0000, 0x2_0000, 0x4_0000, 0x8_0000][t]
  }

  /** kCBin2RBin: the run type that a size class is cut from */
  function RunType(cls: nat): (t: nat)
    ensures t < RUN_TYPES
  {
    if cls < CACHED then [0, 0, 1, 1, 2, 3, 3, 4, 4, 5][cls / PER_GROUP] else 0
  }

  /** The arena bins up to kMaxSmallIndex are small. */
  predicate SmallClass(cls: nat) {
    cls <= ToIndex(MAX_SMALL)
  }

  /** The run that a class is cut from has this many regions. */
  ghost predicate CountFor(cls: nat, count: nat) {
    var size, rsize := ToSize(cls), RunSize(RunType(cls));
    if SmallClass(cls) then LargestFit(count, size, rsize) else size > 0 && LargestPages(count, size, rsize)
  }

  /** The last class of a group has twice the group's gap; the others are smaller multiples of a quarter of it. */
  lemma GroupBound(cls: nat)
    ensures 0 < ToSize(cls) <= 128 * Pow2(cls / 4)
    ensures cls >= 4 ==> ToSize(cls) % (32 * Pow2(cls / 4 - 1)) == 0 && ToSize(cls) > 128 * Pow2(cls / 4 - 1)
  {
    if cls >= 4 {
      var p, k := Pow2(cls / 4 - 1), cls % 4 + 1;
      NextInGroup(cls);
      assert 32 * p * k <= 32 * p * 4;
      assert 128 * p + 32 * p * k == 32 * p * (4 + k);
      Multiple(32 * p, 4 + k);
      assert Pow2(cls / 4) == 2 * p;
      assert 32 * p * k > 0;
    }
  }

  lemma Multiple(unit: nat, k: nat)
    requires unit > 0
    ensures unit * k % unit == 0
  {
    DivideBack(unit, k, 0);
    assert k * unit == unit * k;
    assert unit * k == unit * (unit * k / unit) + unit * k % unit;
  }

  lemma SmallIs(cls: nat)
    ensures SmallClass(cls) <==> cls < 20
  {
    PowTable();
    NextInGroup(19);
    IndexOfSize(19);
  }

  /** Runs cut an extent without a rest, into at most 256 small or 32 medium ones; sizes double from a base. */
  lemma RunsPerExtent(t: nat)
    requires t < RUN_TYPES
    ensures var n := EXTENT_SIZE / RunSize(t);
            n * RunSize(t) == EXTENT_SIZE && 1 < n <= if t < SMALL_TYPES then 256 else 32
    ensures RunSize(t) == if t == 0 then 4 * PAGE else if t == SMALL_TYPES then 32 * PAGE else 2 * RunSize(t - 1)
  {
  }

  /**
    The run of a cached class holds a region of it, with its token beside it when small; small classes get
    small runs.
   */
  lemma RunHoldsRegion(cls: nat, count: nat)
    requires cls < CACHED && CountFor(cls, count)
    ensures count >= 1 && (SmallClass(cls) <==> RunType(cls) < SMALL_TYPES)
    ensures if SmallClass(cls) then Total(count, ToSize(cls)) <= RunSize(RunType(cls))
            else count * ToSize(cls) <= RunSize(RunType(cls))
  {
    SmallIs(cls);
    GroupBound(cls);
    PowTable();
    var size, rsize := ToSize(cls), RunSize(RunType(cls));
    if cls < 20 {
      assert size + 25 <= rsize;
      if count == 0 { assert Total(1, size) == size + 25; }
    } else {
      assert 8 * size <= rsize;
      EightFillPages(cls);
      QuotientAtLeast(rsize, size, 8);
      QuotientTimes(rsize, size, count);
    }
  }

  lemma PowTable()
    ensures Pow2(0) == 1 && Pow2(1) == 2 && Pow2(2) == 4 && Pow2(3) == 8 && Pow2(4) == 16
    ensures Pow2(5) == 32 && Pow2(6) == 64 && Pow2(7) == 128 && Pow2(8) == 256 && Pow2(9) == 512
  {
  }

  /** Eight regions of a medium class fill whole pages. */
  lemma EightFillPages(cls: nat)
    requires 20 <= cls < CACHED
    ensures 8 * ToSize(cls) % PAGE == 0
  {
    GroupBound(cls);
    PowTable();
    var unit := 32 * Pow2(cls / 4 - 1);
    var q := ToSize(cls) / unit;
    assert ToSize(cls) == unit * q;
    assert unit % 512 == 0;
    var u := unit / 512;
    assert 8 * ToSize(cls) == PAGE * (u * q);
    Multiple(PAGE, u * q);
  }

  lemma QuotientAtLeast(x: nat, d: nat, k: nat)
    requires d > 0 && k * d <= x
    ensures k <= x / d
  {
    var q := x / d;
    assert x < (q + 1) * d;
    assert q + 1 <= k ==> (q + 1) * d <= k * d;
  }

  lemma QuotientTimes(x: nat, d: nat, k: nat)
    requires d > 0 && k <= x / d
    ensures k * d <= x
  {
    assert x == d * (x / d) + x % d;
    assert k * d <= (x / d) * d;
  }

  /** srun_acquire and mrun_acquire ask for the count of the run they construct. */
  method RegionCount(cls: nat) returns (count: nat)
    requires cls < CACHED
    ensures CountFor(cls, count) && count >= 1
  {
    SmallIs(cls);
    GroupBound(cls);
    if cls <= ToIndex(MAX_SMALL) {
      QuantumSize(cls);
      count := SmallRegionCount(RunSize(RunType(cls)), ToSize(cls));
    } else {
      count := MediumRegionCount(RunSize(RunType(cls)), ToSize(cls));
    }
    RunHoldsRegion(cls, count);
  }

  lemma QuantumSize(cls: nat)
    ensures ToSize(cls) >= 32
  {
    ToSizeGrows(cls);
  }
}
