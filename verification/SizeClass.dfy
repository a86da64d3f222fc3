/**
  Size classes: groups of four evenly spaced sizes, the spacing doubling from group to group.
 */
module SizeClass {
  import opened Basics
  import opened HashCode

  const QUANTUM: nat := 32
  const MIN_GAP: nat := 128
  const MIN_GAP_SHIFT: nat := 7
  const MAX_MEDIUM: nat := 0x1_0000
  const MAX_LOOKUP: nat := 4096

  /** index_most1: the position of the highest set bit. */
  function Most1(x: nat): (m: nat)
    requires x > 0
    ensures Pow2(m) <= x < 2 * Pow2(m)
  {
    if x == 1 then 0 else 1 + Most1(x / 2)
  }

  function Quotient(x: nat, y: nat): nat
    requires y > 0
  {
    x / y
  }

  /** size2index_compute */
  function ToIndex(size: nat): nat
    requires size > 0
  {
    if size <= MIN_GAP then (size - 1) / QUANTUM else
    var most := Most1(size - 1);
    GroupShift(size);
    var gap := Pow2(most);
    (most - MIN_GAP_SHIFT + 1) * PER_GROUP + Quotient(size - gap - 1, gap / PER_GROUP)
  }

  /** index2size_compute */
  function ToSize(idx: nat): (s: nat) {
    if idx < PER_GROUP then (idx + 1) * QUANTUM else
    var gap := MIN_GAP * Pow2(idx / PER_GROUP - 1);
    gap + gap / PER_GROUP * (idx % PER_GROUP + 1)
  }

  lemma PowAdd(n: nat)
    ensures Pow2(n + 7) == 128 * Pow2(n)
  {
    assert Pow2(n + 7) == 2 * Pow2(n + 6) == 4 * Pow2(n + 5) == 8 * Pow2(n + 4);
    assert Pow2(n + 4) == 2 * Pow2(n + 3) == 4 * Pow2(n + 2) == 8 * Pow2(n + 1);
  }

  /** A size above the first group lies in a group of gap at least 128, divisible by 32 * 4. */
  lemma GroupShift(size: nat)
    requires size > MIN_GAP
    ensures Most1(size - 1) >= MIN_GAP_SHIFT && Pow2(Most1(size - 1)) >= 128
    ensures Pow2(Most1(size - 1)) == 128 * Pow2(Most1(size - 1) - 7)
  {
    var m := Most1(size - 1);
    if m < 7 {
      PowMono(m + 1, 7);
      PowAdd(0);
    }
    PowAdd(m - 7);
  }

  lemma SizeAt(g: nat, sid: nat)
    requires g >= 1 && sid < 4
    ensures ToSize(4 * g + sid) == 128 * Pow2(g - 1) + 32 * Pow2(g - 1) * (sid + 1)
  {
    var i := 4 * g + sid;
    assert i / 4 == g && i % 4 == sid;
    var gap := MIN_GAP * Pow2(g - 1);
    assert gap / 4 == 32 * Pow2(g - 1);
  }

  lemma IndexAt(size: nat, m: nat, sid: nat)
    requires size > MIN_GAP && m == Most1(size - 1) && m >= 7 && sid == Quotient(size - Pow2(m) - 1, 32 * Pow2(m - 7))
    ensures ToIndex(size) == 4 * (m - 6) + sid
  {
    GroupShift(size);
    assert Pow2(m) / PER_GROUP == 32 * Pow2(m - 7);
  }

  lemma LeastClassSmall(size: nat)
    requires 0 < size <= MIN_GAP
    ensures size <= ToSize(ToIndex(size)) && (ToIndex(size) > 0 ==> ToSize(ToIndex(size) - 1) < size)
  {
    var i := ToIndex(size);
    assert i == (size - 1) / 32 && i < 4;
    assert ToSize(i) == (i + 1) * 32;
  }

  lemma LeastClassBig(size: nat, m: nat, gap: nat, unit: nat)
    requires size > MIN_GAP && m == Most1(size - 1) && m >= 7 && gap == Pow2(m) && unit == 32 * Pow2(m - 7)
             && gap == 4 * unit
    ensures size <= ToSize(ToIndex(size)) && ToIndex(size) > 0 && ToSize(ToIndex(size) - 1) < size
  {
    var sid := Quotient(size - gap - 1, unit);
    QuarterIndex(size - gap - 1, unit);
    IndexAt(size, m, sid);
    ClassBounds(size, m, sid);
  }

  /** The class a size is given holds it, and the class before does not. */
  lemma LeastClass(size: nat)
    requires size > 0
    ensures size <= ToSize(ToIndex(size)) && (ToIndex(size) > 0 ==> ToSize(ToIndex(size) - 1) < size)
  {
    if size <= MIN_GAP {
      LeastClassSmall(size);
    } else {
      GroupShift(size);
      var m := Most1(size - 1);
      LeastClassBig(size, m, Pow2(m), 32 * Pow2(m - 7));
    }
  }

  lemma ClassBounds(size: nat, m: nat, sid: nat)
    requires m >= 7 && sid < 4 && Pow2(m) == 128 * Pow2(m - 7) && Pow2(m) < size
    requires 32 * Pow2(m - 7) * sid <= size - Pow2(m) - 1 < 32 * Pow2(m - 7) * (sid + 1)
    ensures size <= ToSize(4 * (m - 6) + sid) && ToSize(4 * (m - 6) + sid - 1) < size
  {
    SizeAt(m - 6, sid);
    if sid > 0 {
      SizeAt(m - 6, sid - 1);
    } else {
      LastOfGroup(m);
      assert 4 * (m - 6) - 1 == (m - 7) * 4 + 3;
    }
  }

  lemma QuarterIndex(x: nat, unit: nat)
    requires unit > 0 && x < 4 * unit
    ensures x / unit < 4 && unit * (x / unit) <= x < unit * (x / unit + 1)
  {
    var q := x / unit;
    assert x == unit * q + x % unit;
    assert q >= 4 ==> unit * q >= unit * 4;
  }

  /** The last class of a group is the next group's gap. */
  lemma LastOfGroup(m: nat)
    requires m >= 7
    ensures ToSize((m - 7) * 4 + 3) == Pow2(m)
  {
    if m == 7 {
      PowAdd(0);
    } else {
      var i := (m - 7) * 4 + 3;
      assert i / 4 == m - 7 && i % 4 == 3;
      PowAdd(m - 7);
      assert Pow2(m - 7) == 2 * Pow2(m - 8);
    }
  }

  /** Sizes of a group with gap 128 * p: its k-th class and the next one. */
  lemma GroupSizes(p: nat, k: nat)
    requires p > 0
    ensures (128 * p + 32 * p * k) % 32 == 0 && 128 * p + 32 * p * k < 128 * p + 32 * p * (k + 1)
    ensures 0 < 128 * p + 32 * p * k && 128 * p + 32 * p * 4 < 128 * (2 * p) + 32 * (2 * p)
  {
    assert 128 * p + 32 * p * k == 32 * (4 * p + p * k);
    assert p * (k + 1) == p * k + p;
  }

  lemma NextInGroup(i: nat)
    requires i >= PER_GROUP
    ensures var p, k := Pow2(i / 4 - 1), i % 4 + 1;
            && p > 0 && ToSize(i) == 128 * p + 32 * p * k
            && ToSize(i + 1) == if k == 4 then 128 * (2 * p) + 32 * (2 * p) else 128 * p + 32 * p * (k + 1)
  {
    SizeIn(Pow2(i / 4 - 1), i % 4 + 1);
    if i % 4 == 3 {
      assert (i + 1) / 4 == i / 4 + 1 && (i + 1) % 4 == 0 && Pow2(i / 4) == 2 * Pow2(i / 4 - 1);
      SizeIn(Pow2(i / 4), 1);
    } else {
      assert (i + 1) / 4 == i / 4 && (i + 1) % 4 == i % 4 + 1;
      SizeIn(Pow2(i / 4 - 1), i % 4 + 2);
    }
  }

  lemma SizeIn(p: nat, k: nat)
    ensures MIN_GAP * p + MIN_GAP * p / PER_GROUP * k == 128 * p + 32 * p * k
  {
    assert 128 * p / 4 == 32 * p;
  }

  lemma ToSizeGrows(i: nat)
    ensures ToSize(i) % QUANTUM == 0 && 0 < ToSize(i) < ToSize(i + 1)
  {
    if i >= PER_GROUP {
      NextInGroup(i);
      GroupSizes(Pow2(i / 4 - 1), i % 4 + 1);
    } else if i == 3 {
      assert ToSize(4) == 128 + 32;
    }
  }

  lemma {:induction false} ToSizeMono(i: nat, j: nat)
    requires i < j
    ensures ToSize(i) < ToSize(j)
    decreases j
  {
    ToSizeGrows(j - 1);
    if i < j - 1 { ToSizeMono(i, j - 1); }
  }

  /** The two conversions form a Galois pair, over all sizes and indices. */
  lemma Galois(size: nat, i: nat)
    requires size > 0
    ensures ToIndex(size) <= i <==> size <= ToSize(i)
  {
    LeastClass(size);
    var k := ToIndex(size);
    if k < i { ToSizeMono(k, i); }
    if i < k && i < k - 1 { ToSizeMono(i, k - 1); }
  }

  lemma IndexOfSize(i: nat)
    ensures ToSize(i) > 0 && ToIndex(ToSize(i)) == i
  {
    ToSizeGrows(i);
    Galois(ToSize(i), i);
    if i > 0 {
      ToSizeGrows(i - 1);
      Galois(ToSize(i), i - 1);
    }
  }

  /** Sizes within one quantum have one class. */
  lemma SameQuantum(a: nat, b: nat)
    requires a > 0 && b > 0 && (a - 1) / QUANTUM == (b - 1) / QUANTUM
    ensures ToIndex(a) == ToIndex(b)
  {
    ToSizeGrows(ToIndex(a));
    ToSizeGrows(ToIndex(b));
    Galois(a, ToIndex(b));
    Galois(b, ToIndex(a));
    Galois(a, ToIndex(a));
    Galois(b, ToIndex(b));
    QuantumBound(a, b, ToSize(ToIndex(a)));
    QuantumBound(b, a, ToSize(ToIndex(b)));
  }

  lemma QuantumBound(a: nat, b: nat, c: nat)
    requires a > 0 && b > 0 && (a - 1) / QUANTUM == (b - 1) / QUANTUM && c % QUANTUM == 0 && a <= c
    ensures b <= c
  {
  }

  /** A garbage region found in the limbo list of a record's class is large enough for the record. */
  lemma LimboRegionFits(len: nat, region: nat, c: nat)
    requires len > 0 && region == ToSize(c) && region > 0 && ToIndex(region) == ToIndex(len)
    ensures len <= region
  {
    IndexOfSize(c);
    LeastClass(len);
  }

  /** The lookup tables. */
  class Tables {
    const toSize: array<nat>
    const toIndex: array<nat>

    ghost predicate Valid()
      reads toSize, toIndex
    {
      && toSize.Length == CACHED && toIndex.Length == MAX_LOOKUP / QUANTUM
      && (forall i | 0 <= i < CACHED :: toSize[i] == ToSize(i) / QUANTUM)
      && (forall i | 0 <= i < MAX_LOOKUP / QUANTUM :: toIndex[i] == ToIndex((i + 1) * QUANTUM - 1))
    }

    constructor ()
      ensures Valid()
    {
      toSize, toIndex := new nat[CACHED], new nat[MAX_LOOKUP / QUANTUM];
      new;
      for i := 0 to MAX_LOOKUP / QUANTUM
        invariant forall j | 0 <= j < i :: toIndex[j] == ToIndex((j + 1) * QUANTUM - 1)
      {
        toIndex[i] := ToIndex((i + 1) * QUANTUM - 1);
      }
      for i := 0 to CACHED
        invariant forall j | 0 <= j < i :: toSize[j] == ToSize(j) / QUANTUM
        invariant forall j | 0 <= j < MAX_LOOKUP / QUANTUM :: toIndex[j] == ToIndex((j + 1) * QUANTUM - 1)
      {
        toSize[i] := ToSize(i) / QUANTUM;
      }
    }

    /** size2index: looked up for small sizes, computed for others, the same class either way */
    method Size2Index(size: nat) returns (i: nat)
      requires Valid() && 0 < size <= MAX_MEDIUM
      ensures size <= ToSize(i) && forall j | 0 <= j < i :: ToSize(j) < size
    {
      if size > MAX_LOOKUP {
        i := ToIndex(size);
      } else {
        i := toIndex[(size - 1) / QUANTUM];
        SameQuantum(size, ((size - 1) / QUANTUM + 1) * QUANTUM - 1);
      }
      Galois(size, i);
      forall j | 0 <= j < i ensures ToSize(j) < size { Galois(size, j); }
    }

    method Index2Size(i: nat) returns (size: nat)
      requires Valid() && i < CACHED
      ensures size == ToSize(i)
    {
      size := toSize[i] * QUANTUM;
      ToSizeGrows(i);
    }
  }
}
