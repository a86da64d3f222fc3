/**
  The extendible hash table as a value: a directory of 2^depth entries over segments of buckets.
  Segments are named by number, so that directory entries can share them.
 */
module HashDirectory {
  import opened Basics
  import opened HashCode
  import opened HashBucket

  type Segment = seq<Bucket>

  datatype Table = Table(dir: seq<nat>, depth: nat, segs: map<nat, Segment>)

  ghost predicate SegmentInv(s: Segment) {
    |s| == BUCKETS && forall b | 0 <= b < BUCKETS :: BucketInv(s[b]) && s[b].index == b && s[b].depth == s[0].depth
  }

  /** Local depth. */
  function Local(s: Segment): nat
    requires |s| == BUCKETS
  {
    s[0].depth
  }

  ghost predicate Shape(t: Table) {
    && |t.dir| == Pow2(t.depth)
    && (forall i {:trigger t.dir[i]} | 0 <= i < |t.dir| :: t.dir[i] in t.segs)
    && (forall id {:trigger t.segs[id]} | id in t.segs :: SegmentInv(t.segs[id]) && Local(t.segs[id]) <= t.depth)
  }

  /** The local depth of the segment behind entry i. */
  ghost function DepthAt(t: Table, i: nat): nat
    requires Shape(t) && i < |t.dir|
  {
    Local(t.segs[t.dir[i]])
  }

  /** Two entries share a segment exactly when their indices agree on its local depth. */
  ghost predicate Sharing(t: Table)
    requires Shape(t)
  {
    forall i, j {:trigger t.dir[i], t.dir[j]} | 0 <= i < |t.dir| && 0 <= j < |t.dir| ::
      t.dir[i] == t.dir[j] <==> Low(i, DepthAt(t, i)) == Low(j, DepthAt(t, i))
  }

  ghost predicate Reached(t: Table) {
    forall id <- t.segs :: id in t.dir
  }

  /** Every key in a segment agrees with the segment's entries on its local depth. */
  ghost predicate Home(t: Table)
    requires Shape(t)
  {
    forall i, b, k {:trigger Get(t.segs[t.dir[i]][b], k)} | 0 <= i < |t.dir| && 0 <= b < BUCKETS ::
      Get(t.segs[t.dir[i]][b], k).Some? ==> Low(k.code, DepthAt(t, i)) == Low(i, DepthAt(t, i))
  }

  ghost predicate TableInv(t: Table) {
    Shape(t) && Sharing(t) && Reached(t) && Home(t)
  }

  /** The bucket a key is looked up in. */
  function BucketOf(t: Table, k: Key): Bucket
    requires Shape(t)
  {
    t.segs[t.dir[Low(k.code, t.depth)]][BucketIndex(k.code)]
  }

  function Find(t: Table, k: Key): Option<Rec>
    requires Shape(t)
  {
    Get(BucketOf(t, k), k)
  }

  // Directory doubling

  function Doubled(t: Table): Table {
    t.(dir := t.dir + t.dir, depth := t.depth + 1)
  }

  lemma DoubledEntry(t: Table, j: nat)
    requires |t.dir| == Pow2(t.depth) && j < Pow2(t.depth + 1)
    ensures Doubled(t).dir[j] == t.dir[Low(j, t.depth)]
  {
    SmallLow(j, t.depth + 1);
    LowStep(j, t.depth);
  }

  /** Doubling the directory changes no lookup. */
  lemma DoubledKeeps(t: Table)
    requires TableInv(t)
    ensures TableInv(Doubled(t)) && forall k {:trigger Find(Doubled(t), k)} :: Find(Doubled(t), k) == Find(t, k)
  {
    var d := Doubled(t);
    assert |d.dir| == Pow2(t.depth + 1);
    assert Shape(d);
    forall i, j | 0 <= i < |d.dir| && 0 <= j < |d.dir|
      ensures d.dir[i] == d.dir[j] <==> Low(i, DepthAt(d, i)) == Low(j, DepthAt(d, i))
    {
      DoubledEntry(t, i);
      DoubledEntry(t, j);
      LowLow(i, DepthAt(d, i), t.depth);
      LowLow(j, DepthAt(d, i), t.depth);
    }
    forall i, b, k | 0 <= i < |d.dir| && 0 <= b < BUCKETS && Get(d.segs[d.dir[i]][b], k).Some?
      ensures Low(k.code, DepthAt(d, i)) == Low(i, DepthAt(d, i))
    {
      DoubledEntry(t, i);
      LowLow(i, DepthAt(d, i), t.depth);
    }
    forall k ensures Find(d, k) == Find(t, k) {
      DoubledEntry(t, Low(k.code, d.depth));
      LowLow(k.code, t.depth, d.depth);
    }
  }

  // Segment split

  function Lefts(s: Segment): (l: Segment)
    requires forall b <- s :: Sized(b)
    ensures |l| == |s| && forall b | 0 <= b < |s| :: l[b] == SplitBucket(s[b]).0
  {
    seq(|s|, b requires 0 <= b < |s| => SplitBucket(s[b]).0)
  }

  function Rights(s: Segment): (r: Segment)
    requires forall b <- s :: Sized(b)
    ensures |r| == |s| && forall b | 0 <= b < |s| :: r[b] == SplitBucket(s[b]).1
  {
    seq(|s|, b requires 0 <= b < |s| => SplitBucket(s[b]).1)
  }

  /** After the split of the segment behind entry i, with the right half named `fresh`. */
  predicate IsSplit(t: Table, i: nat, name: nat, t': Table)
    requires i < |t.dir| && t.dir[i] in t.segs && |t.segs[t.dir[i]]| == BUCKETS
             && forall b <- t.segs[t.dir[i]] :: Sized(b)
  {
    var s := t.segs[t.dir[i]];
    var l := Local(s);
    && t'.depth == t.depth && |t'.dir| == |t.dir|
    && (forall j | 0 <= j < |t.dir| :: t'.dir[j] == if Low(j, l + 1) == Low(i, l) + Pow2(l) then name else t.dir[j])
    && t'.segs == t.segs[t.dir[i] := Lefts(s)][name := Rights(s)]
  }

  lemma SegmentSized(s: Segment)
    requires SegmentInv(s)
    ensures forall b <- s :: Sized(b)
  {
    forall b | 0 <= b < BUCKETS ensures Sized(s[b]) { assert BucketInv(s[b]); }
  }

  lemma SegmentsSplit(s: Segment)
    requires SegmentInv(s)
    ensures forall b <- s :: Sized(b)
    ensures SegmentInv(Lefts(s)) && SegmentInv(Rights(s)) && Local(Lefts(s)) == Local(Rights(s)) == Local(s) + 1
    ensures forall b, k | 0 <= b < BUCKETS ::
              && Get(Lefts(s)[b], k) == (if Bit(k.code, Local(s)) then None else Get(s[b], k))
              && Get(Rights(s)[b], k) == (if Bit(k.code, Local(s)) then Get(s[b], k) else None)
  {
    forall b | 0 <= b < BUCKETS ensures Sized(s[b]) { assert BucketInv(s[b]); }
    forall b | 0 <= b < BUCKETS
      ensures BucketInv(Lefts(s)[b]) && BucketInv(Rights(s)[b]) && Lefts(s)[b].index == Rights(s)[b].index == b
      ensures Lefts(s)[b].depth == Rights(s)[b].depth == Local(s) + 1
      ensures forall k :: Get(Lefts(s)[b], k) == (if Bit(k.code, Local(s)) then None else Get(s[b], k))
                       && Get(Rights(s)[b], k) == (if Bit(k.code, Local(s)) then Get(s[b], k) else None)
    {
      SplitMeaning(s[b]);
    }
  }

  /** What the split does to entry j: only entries of the split segment move, by their next bit. */
  lemma SplitEntry(t: Table, i: nat, name: nat, t': Table, j: nat)
    requires TableInv(t) && i < |t.dir| && name !in t.segs && (forall b <- t.segs[t.dir[i]] :: Sized(b))
    requires IsSplit(t, i, name, t') && j < |t.dir|
    ensures var l := DepthAt(t, i);
            && (t'.dir[j] == name <==> t.dir[j] == t.dir[i] && Bit(j, l))
            && (t'.dir[j] != name ==> t'.dir[j] == t.dir[j])
            && (t.dir[j] == t.dir[i] <==> Low(j, l) == Low(i, l))
  {
    LowStep(j, DepthAt(t, i));
    assert t.dir[j] in t.segs && t.dir[i] in t.segs;
  }

  lemma SplitShape(t: Table, i: nat, name: nat, t': Table)
    requires TableInv(t) && i < |t.dir| && name !in t.segs && (forall b <- t.segs[t.dir[i]] :: Sized(b))
    requires IsSplit(t, i, name, t') && DepthAt(t, i) < t.depth
    ensures Shape(t')
  {
    SegmentsSplit(t.segs[t.dir[i]]);
    forall j | 0 <= j < |t.dir| ensures t'.dir[j] in t'.segs {
      assert t.dir[j] in t.segs;
    }
    forall id | id in t'.segs ensures SegmentInv(t'.segs[id]) && Local(t'.segs[id]) <= t'.depth {
      if id != name && id != t.dir[i] { assert t'.segs[id] == t.segs[id]; }
    }
  }

  lemma SplitDepth(t: Table, i: nat, name: nat, t': Table, j: nat)
    requires TableInv(t) && i < |t.dir| && name !in t.segs && (forall b <- t.segs[t.dir[i]] :: Sized(b))
    requires IsSplit(t, i, name, t') && Shape(t') && j < |t.dir|
    ensures DepthAt(t', j) == if t.dir[j] == t.dir[i] then DepthAt(t, i) + 1 else DepthAt(t, j)
  {
    SplitEntry(t, i, name, t', j);
    assert t.dir[j] in t.segs;
    if t.dir[j] == t.dir[i] {
      SegmentsSplit(t.segs[t.dir[i]]);
    }
  }

  lemma SplitSharingAt(t: Table, i: nat, name: nat, t': Table, a: nat, b: nat)
    requires TableInv(t) && i < |t.dir| && name !in t.segs && (forall b <- t.segs[t.dir[i]] :: Sized(b))
    requires IsSplit(t, i, name, t') && DepthAt(t, i) < t.depth && Shape(t') && a < |t.dir| && b < |t.dir|
    ensures t'.dir[a] == t'.dir[b] <==> Low(a, DepthAt(t', a)) == Low(b, DepthAt(t', a))
  {
    var l := DepthAt(t, a);
    assert DepthAt(t', a) == if t.dir[a] == t.dir[i] then l + 1 else l by { SplitDepth(t, i, name, t', a); }
    SplitEntry(t, i, name, t', a);
    SplitEntry(t, i, name, t', b);
    assert t.dir[a] == t.dir[b] <==> Low(a, l) == Low(b, l);
    assert t.dir[a] in t.segs && t.dir[b] in t.segs;
    if t.dir[a] == t.dir[i] {
      AgreeStep(a, b, l);
    }
  }

  lemma SplitSharing(t: Table, i: nat, name: nat, t': Table)
    requires TableInv(t) && i < |t.dir| && name !in t.segs && (forall b <- t.segs[t.dir[i]] :: Sized(b))
    requires IsSplit(t, i, name, t') && DepthAt(t, i) < t.depth && Shape(t')
    ensures Sharing(t')
  {
    forall a, b | 0 <= a < |t'.dir| && 0 <= b < |t'.dir|
      ensures t'.dir[a] == t'.dir[b] <==> Low(a, DepthAt(t', a)) == Low(b, DepthAt(t', a))
    {
      SplitSharingAt(t, i, name, t', a, b);
    }
  }

  /** An entry on each side: the split segment keeps one, its right half gets one. */
  lemma SplitReached(t: Table, i: nat, name: nat, t': Table)
    requires TableInv(t) && i < |t.dir| && name !in t.segs && (forall b <- t.segs[t.dir[i]] :: Sized(b))
    requires IsSplit(t, i, name, t') && DepthAt(t, i) < t.depth
    ensures Reached(t')
  {
    var l := DepthAt(t, i);
    var low := Low(i, l);
    PowMono(l + 1, t.depth);
    var high := low + Pow2(l);
    SmallLow(low, l);
    SmallLow(low, l + 1);
    SmallLow(high, l + 1);
    LowStep(low, l);
    LowStep(high, l);
    SplitEntry(t, i, name, t', low);
    LowShift(low, l, l);
    SplitEntry(t, i, name, t', high);
    assert t'.dir[high] == name;
    assert t'.dir[low] == t.dir[i];
    forall id <- t'.segs ensures id in t'.dir {
      if id != name && id != t.dir[i] {
        assert id in t.dir;
        var j :| 0 <= j < |t.dir| && t.dir[j] == id;
        SplitEntry(t, i, name, t', j);
        assert t'.dir[j] == id;
      }
    }
  }

  /** What bucket b behind entry j holds for k after the split. */
  lemma SplitContents(t: Table, i: nat, name: nat, t': Table, j: nat, b: nat, k: Key)
    requires TableInv(t) && i < |t.dir| && name !in t.segs && (forall b <- t.segs[t.dir[i]] :: Sized(b))
    requires IsSplit(t, i, name, t') && DepthAt(t, i) < t.depth && Shape(t') && j < |t.dir| && b < BUCKETS
    ensures Get(t'.segs[t'.dir[j]][b], k) ==
            if t.dir[j] == t.dir[i] && Bit(k.code, DepthAt(t, i)) != Bit(j, DepthAt(t, i)) then None
            else Get(t.segs[t.dir[j]][b], k)
  {
    SplitEntry(t, i, name, t', j);
    assert t.dir[j] in t.segs && t.dir[i] in t.segs;
    if t.dir[j] == t.dir[i] {
      SegmentsSplit(t.segs[t.dir[i]]);
    }
  }

  lemma SplitHomeAt(t: Table, i: nat, name: nat, t': Table, j: nat, b: nat, k: Key)
    requires TableInv(t) && i < |t.dir| && name !in t.segs && (forall b <- t.segs[t.dir[i]] :: Sized(b))
    requires IsSplit(t, i, name, t') && DepthAt(t, i) < t.depth && Shape(t') && j < |t.dir| && b < BUCKETS
    requires Get(t'.segs[t'.dir[j]][b], k).Some?
    ensures Low(k.code, DepthAt(t', j)) == Low(j, DepthAt(t', j))
  {
    var l := DepthAt(t, j);
    assert Get(t.segs[t.dir[j]][b], k).Some? && (t.dir[j] == t.dir[i] ==> Bit(k.code, l) == Bit(j, l)) by {
      SplitContents(t, i, name, t', j, b, k);
    }
    assert Low(k.code, l) == Low(j, l);
    AgreeStep(k.code, j, l);
    assert DepthAt(t', j) == if t.dir[j] == t.dir[i] then l + 1 else l by { SplitDepth(t, i, name, t', j); }
  }

  lemma SplitHome(t: Table, i: nat, name: nat, t': Table)
    requires TableInv(t) && i < |t.dir| && name !in t.segs && (forall b <- t.segs[t.dir[i]] :: Sized(b))
    requires IsSplit(t, i, name, t') && DepthAt(t, i) < t.depth && Shape(t')
    ensures Home(t')
  {
    forall j, b, k | 0 <= j < |t'.dir| && 0 <= b < BUCKETS && Get(t'.segs[t'.dir[j]][b], k).Some?
      ensures Low(k.code, DepthAt(t', j)) == Low(j, DepthAt(t', j))
    {
      SplitHomeAt(t, i, name, t', j, b, k);
    }
  }

  lemma SplitFind(t: Table, i: nat, name: nat, t': Table, k: Key)
    requires TableInv(t) && i < |t.dir| && name !in t.segs && (forall b <- t.segs[t.dir[i]] :: Sized(b))
    requires IsSplit(t, i, name, t') && DepthAt(t, i) < t.depth && Shape(t')
    ensures Find(t', k) == Find(t, k)
  {
    IndexBits(k.code, DepthAt(t, i), t.depth);
    SplitContents(t, i, name, t', Low(k.code, t.depth), BucketIndex(k.code), k);
  }

  /** Splitting a segment keeps the directory invariant and changes no lookup. */
  lemma SplitKeeps(t: Table, i: nat, name: nat, t': Table)
    requires TableInv(t) && i < |t.dir| && name !in t.segs && (forall b <- t.segs[t.dir[i]] :: Sized(b))
    requires IsSplit(t, i, name, t') && DepthAt(t, i) < t.depth
    ensures TableInv(t') && DepthAt(t', i) == DepthAt(t, i) + 1
            && forall k {:trigger Find(t', k)} :: Find(t', k) == Find(t, k)
  {
    SplitShape(t, i, name, t');
    SplitDepth(t, i, name, t', i);
    SplitSharing(t, i, name, t');
    SplitReached(t, i, name, t');
    SplitHome(t, i, name, t');
    forall k ensures Find(t', k) == Find(t, k) {
      SplitFind(t, i, name, t', k);
    }
  }
}
