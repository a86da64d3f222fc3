/**
  How many regions a run holds, where they lie, and how a pointer is decoded back to run and region.
 */
module RegionLayout {
  const SMALL_META: nat := 24   // sizeof(SmallMeta); one token byte per region follows
  const PAGE: nat := 4096

  /** Bytes taken by c regions, their tokens and the run's metadata. */
  function Total(c: nat, size: nat): nat {
    c * size + SMALL_META + c
  }

  /** The largest count that fits beside its own metadata. */
  ghost predicate LargestFit(c: nat, size: nat, rsize: nat) {
    Total(c, size) <= rsize < Total(c + 1, size)
  }

  /** The largest count not above rsize / size whose regions fill whole pages. */
  ghost predicate LargestPages(count: nat, size: nat, rsize: nat)
    requires size > 0
  {
    count <= rsize / size && count * size % PAGE == 0 && forall c | count < c <= rsize / size :: c * size % PAGE != 0
  }

  /** c misses the fixed point by d; rho is the slack at the fixed point. */
  ghost function Measure(d: int, rho: nat): nat {
    2 * (if d < 0 then -d else d) + if (rho == 0 && d > 0) || (rho > 0 && d < 0) then 1 else 0
  }

  lemma MulAtLeastTwo(s: nat, x: nat)
    requires s >= 2
    ensures s * x >= 2 * x
  {
  }

  /** One round brings the distance to the fixed point down. */
  lemma MeasureDrops(s: nat, rho: nat, d: int, d': int)
    requires s >= 2 && rho <= s && d != 0 && s * d' <= rho - d < s * (d' + 1)
    ensures Measure(d', rho) < Measure(d, rho)
  {
    if d' >= 1 {
      assert s * d' == s + s * (d' - 1);
      MulAtLeastTwo(s, d' - 1);
      assert s * (d' - 1) >= 2 * (d' - 1);
    } else if d' <= -1 {
      MulAtLeastTwo(s, -(d' + 1));
      assert s * (d' + 1) == -(s * -(d' + 1));
    }
  }

  /** Where a round leads, measured from the fixed point. */
  lemma Round(s: nat, rho: nat, fix: nat, room: nat, c: nat)
    requires s >= 2 && rho <= s && room == fix * (s + 1) + rho && c <= room
    ensures var c' := (room - c) / s;
            s * (c' - fix) <= rho - (c - fix) < s * (c' - fix + 1)
  {
    var c' := (room - c) / s;
    var r := (room - c) % s;
    assert room - c == s * c' + r;
    assert fix * (s + 1) == s * fix + fix;
    assert s * (c' - fix) == s * c' - s * fix;
    assert s * (c' - fix + 1) == s * (c' - fix) + s;
  }

  lemma FixIsFit(s: nat, rho: nat, fix: nat, room: nat, c: nat)
    requires s >= 2 && rho <= s && room == fix * (s + 1) + rho
    ensures c == fix <==> Total(c, s) <= room + SMALL_META && room + SMALL_META - Total(c, s) <= s
    ensures c == fix ==> LargestFit(c, s, room + SMALL_META)
  {
    assert Total(c, s) == c * (s + 1) + SMALL_META;
    assert Total(c + 1, s) == c * (s + 1) + (s + 1) + SMALL_META;
    var d := c - fix;
    assert c * (s + 1) == fix * (s + 1) + d * (s + 1);
    if d >= 1 { assert d * (s + 1) >= s + 1; }
    if d <= -1 { assert d * (s + 1) <= -(s + 1); }
  }

  ghost function Fix(rsize: nat, size: nat): nat
    requires rsize >= SMALL_META
  {
    (rsize - SMALL_META) / (size + 1)
  }

  ghost function Slack(rsize: nat, size: nat): nat
    requires rsize >= SMALL_META
  {
    (rsize - SMALL_META) % (size + 1)
  }

  /** How far the loop still is from its end. */
  ghost function Distance(rsize: nat, size: nat, count: nat): nat
    requires rsize >= SMALL_META
  {
    Measure(count - Fix(rsize, size), Slack(rsize, size))
  }

  /** A round that does not end the loop decreases the distance. */
  lemma Progress(rsize: nat, size: nat, count: nat, next: nat)
    requires size >= 2 && SMALL_META + count <= rsize && next == (rsize - (SMALL_META + count)) / size
    ensures Total(count, size) <= rsize && rsize - Total(count, size) <= size ==> LargestFit(count, size, rsize)
    ensures !(Total(count, size) <= rsize && rsize - Total(count, size) <= size) ==>
            Distance(rsize, size, next) < Distance(rsize, size, count)
  {
    var room, fix, rho := rsize - SMALL_META, Fix(rsize, size), Slack(rsize, size);
    assert room == fix * (size + 1) + rho;
    FixIsFit(size, rho, fix, room, count);
    if count != fix {
      Round(size, rho, fix, room, count);
      MeasureDrops(size, rho, count - fix, next - fix);
    }
  }

  /** small_region_count: terminates for every region size of at least 2, at the largest count that fits. */
  method SmallRegionCount(rsize: nat, size: nat) returns (count: nat)
    requires size >= 2 && rsize >= 2 * SMALL_META
    ensures LargestFit(count, size, rsize)
  {
    count := rsize / size;
    Halved(rsize, size);
    while true
      invariant 2 * count <= rsize
      decreases Distance(rsize, size, count)
    {
      var meta := SMALL_META + count;
      var total := count * size + meta;
      var next := (rsize - meta) / size;
      Halved(rsize - meta, size);
      Progress(rsize, size, count, next);
      if total <= rsize && rsize - total <= size {
        return;
      }
      count := next;
    }
  }

  lemma Halved(x: nat, s: nat)
    requires s >= 2
    ensures 0 <= x / s && 2 * (x / s) <= x
  {
    assert x == s * (x / s) + x % s;
    MulAtLeastTwo(s, x / s);
  }

  /** medium_region_count: the largest count not above rsize / size that fills whole pages */
  method MediumRegionCount(rsize: nat, size: nat) returns (count: nat)
    requires size > 0
    ensures LargestPages(count, size, rsize)
  {
    count := rsize / size;
    while count * size % PAGE != 0
      invariant 0 <= count <= rsize / size
      invariant forall c | count < c <= rsize / size :: c * size % PAGE != 0
      decreases count
    {
      count := count - 1;
    }
  }

  // Placement and decoding

  /** First byte of region i: the regions end where the run ends. */
  function SmallRegion(ext: nat, rsize: nat, rid: nat, count: nat, size: nat, i: nat): int {
    ext + rid * rsize + rsize - count * size + i * size
  }

  function MediumRegion(ext: nat, rsize: nat, rid: nat, size: nat, i: nat): nat {
    ext + rid * rsize + i * size
  }

  function RoundDown(x: nat, unit: nat): nat
    requires unit > 0
  {
    x / unit * unit
  }

  lemma DivideBack(unit: nat, q: nat, r: nat)
    requires unit > 0 && r < unit
    ensures (q * unit + r) / unit == q
  {
    var x := q * unit + r;
    var d := x / unit - q;
    assert x == unit * (x / unit) + x % unit;
    assert unit * d == r - x % unit by { assert unit * d == unit * (x / unit) - unit * q; }
    assert d >= 1 ==> unit * d >= unit;
    assert d <= -1 ==> unit * d <= 0 - unit;
  }

  lemma RoundDownBack(ext: nat, unit: nat, off: nat)
    requires unit > 0 && ext % unit == 0 && off < unit
    ensures RoundDown(ext + off, unit) == ext
  {
    assert ext == unit * (ext / unit);
    DivideBack(unit, ext / unit, off);
  }

  lemma RunOffset(esize: nat, rsize: nat, runs: nat, rid: nat, off: nat)
    requires rsize > 0 && esize == runs * rsize && rid < runs && off < rsize
    ensures rid * rsize + off < esize
  {
    assert (rid + 1) * rsize <= runs * rsize;
    assert (rid + 1) * rsize == rid * rsize + rsize;
  }

  /** A region lies between its run's tokens and the end of the run, clear of the other regions. */
  lemma SmallRegionInRun(rsize: nat, count: nat, size: nat, i: nat)
    requires Total(count, size) <= rsize && i < count && size > 0
    ensures SMALL_META + count <= rsize - count * size + i * size
    ensures rsize - count * size + i * size + size <= rsize
    ensures forall j: nat {:trigger j * size} | j < count && j != i ::
            j * size + size <= i * size || i * size + size <= j * size
  {
    assert (i + 1) * size <= count * size;
    assert (i + 1) * size == i * size + size;
    forall j: nat | j < count && j != i ensures j * size + size <= i * size || i * size + size <= j * size {
      RegionsApart(size, i, j);
    }
  }

  /** Two regions of a run do not overlap. */
  lemma RegionsApart(size: nat, i: nat, j: nat)
    requires i != j
    ensures j * size + size <= i * size || i * size + size <= j * size
  {
    if i < j {
      assert (i + 1) * size <= j * size;
    } else {
      assert (j + 1) * size <= i * size;
    }
  }

  /** Release decodes a pointer to the extent, run and region it was made from. */
  lemma SmallDecodes(ext: nat, esize: nat, runs: nat, rsize: nat, rid: nat, count: nat, size: nat, i: nat)
    requires size > 0 && rsize > 0 && esize == runs * rsize && esize > 0 && ext % esize == 0 && rid < runs
    requires Total(count, size) <= rsize && i < count
    ensures var p := SmallRegion(ext, rsize, rid, count, size, i);
            && p >= 0 && RoundDown(p, esize) == ext
            && (p - ext) / rsize == rid
            && (p - (ext + rsize * rid + rsize - count * size)) / size == i
            && p == i * size + (ext + rsize * rid + rsize - count * size)
  {
    var off := rsize - count * size + i * size;
    SmallRegionInRun(rsize, count, size, i);
    assert RoundDown(ext + (rid * rsize + off), esize) == ext by {
      RunOffset(esize, rsize, runs, rid, off);
      RoundDownBack(ext, esize, rid * rsize + off);
    }
    assert (rid * rsize + off) / rsize == rid by { DivideBack(rsize, rid, off); }
    assert (i * size + 0) / size == i by { DivideBack(size, i, 0); }
    assert rsize * rid == rid * rsize;
  }

  lemma MediumRegionInRun(rsize: nat, count: nat, size: nat, i: nat)
    requires count * size <= rsize && i < count && size > 0
    ensures i * size + size <= rsize
  {
    assert (i + 1) * size <= count * size;
    assert (i + 1) * size == i * size + size;
  }

  lemma MediumDecodes(ext: nat, esize: nat, runs: nat, rsize: nat, rid: nat, count: nat, size: nat, i: nat)
    requires size > 0 && rsize > 0 && esize == runs * rsize && esize > 0 && ext % esize == 0 && rid < runs
    requires count * size <= rsize && i < count
    ensures var p := MediumRegion(ext, rsize, rid, size, i);
            && RoundDown(p, esize) == ext && (p - ext) / rsize == rid && (p - (ext + rsize * rid)) / size == i
  {
    var off := i * size;
    MediumRegionInRun(rsize, count, size, i);
    assert RoundDown(ext + (rid * rsize + off), esize) == ext by {
      RunOffset(esize, rsize, runs, rid, off);
      RoundDownBack(ext, esize, rid * rsize + off);
    }
    assert (rid * rsize + off) / rsize == rid by { DivideBack(rsize, rid, off); }
    assert (i * size + 0) / size == i by { DivideBack(size, i, 0); }
    assert rsize * rid == rid * rsize;
  }
}
