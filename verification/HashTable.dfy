/**
  The concurrent extendible hash table, run by one thread at a time: it refines a finite map across
  inserts, updates, segment splits and directory doublings.  (Module SplitRace adds the races.)
 */
module HashTable {
  import opened Basics
  import opened HashCode
  import opened HashBucket
  import opened HashDirectory

  ghost predicate Refines(t: Table, m: map<Key, Rec>)
    requires Shape(t)
  {
    forall k {:trigger Find(t, k)} :: Find(t, k) == if k in m then Some(m[k]) else None
  }

  /** The answer of an upsert on the map, and the map after it. */
  function UpsertMap(m: map<Key, Rec>, r: Rec): (map<Key, Rec>, Answer) {
    if r.key !in m then (m[r.key := r], NotFound)
    else if m[r.key].version >= r.version then (m, Expired)
    else (m[r.key := r], Old(m[r.key]))
  }

  /** Table t with the bucket of key k replaced. */
  function WithBucket(t: Table, k: Key, b: Bucket): Table
    requires Shape(t)
  {
    var id := t.dir[Low(k.code, t.depth)];
    t.(segs := t.segs[id := t.segs[id][BucketIndex(k.code) := b]])
  }

  lemma WithBucketShape(t: Table, key: Key, b: Bucket)
    requires TableInv(t) && BucketInv(b) && b.index == BucketIndex(key.code) && b.depth == BucketOf(t, key).depth
    ensures var t' := WithBucket(t, key, b);
            && Shape(t') && t'.dir == t.dir && forall i | 0 <= i < |t.dir| :: DepthAt(t', i) == DepthAt(t, i)
  {
    var id := t.dir[Low(key.code, t.depth)];
    var s := t.segs[id];
    var s' := s[BucketIndex(key.code) := b];
    assert SegmentInv(s) && s[BucketIndex(key.code)].depth == s[0].depth;
    assert SegmentInv(s');
    forall i | 0 <= i < |t.dir| ensures Local(WithBucket(t, key, b).segs[t.dir[i]]) == DepthAt(t, i) {
      assert t.dir[i] in t.segs;
    }
  }

  /** Replacing a bucket by one that differs at most in its key's record changes no other lookup. */
  lemma WithBucketKeeps(t: Table, key: Key, b: Bucket)
    requires TableInv(t) && BucketInv(b) && b.index == BucketIndex(key.code) && b.depth == BucketOf(t, key).depth
    requires forall k | k != key :: Get(b, k) == Get(BucketOf(t, key), k)
    ensures var t' := WithBucket(t, key, b);
            && TableInv(t') && Find(t', key) == Get(b, key)
            && forall k {:trigger Find(t', k)} | k != key :: Find(t', k) == Find(t, k)
  {
    var t' := WithBucket(t, key, b);
    WithBucketShape(t, key, b);
    forall j, c, k | 0 <= j < |t'.dir| && 0 <= c < BUCKETS && Get(t'.segs[t'.dir[j]][c], k).Some?
      ensures Low(k.code, DepthAt(t', j)) == Low(j, DepthAt(t', j))
    {
      WithBucketHome(t, key, b, j, c, k);
    }
    forall k ensures Find(t', k) == if k == key then Get(b, key) else Find(t, k) {
      WithBucketFind(t, key, b, k);
    }
  }

  lemma WithBucketFind(t: Table, key: Key, b: Bucket, k: Key)
    requires TableInv(t) && BucketInv(b) && Shape(WithBucket(t, key, b))
    requires forall k | k != key :: Get(b, k) == Get(BucketOf(t, key), k)
    ensures Find(WithBucket(t, key, b), k) == if k == key then Get(b, key) else Find(t, k)
  {
    var i, j := Low(key.code, t.depth), Low(k.code, t.depth);
    assert t.dir[j] in t.segs && t.dir[i] in t.segs;
  }

  lemma WithBucketHome(t: Table, key: Key, b: Bucket, j: nat, c: nat, k: Key)
    requires TableInv(t) && BucketInv(b) && b.index == BucketIndex(key.code)
    requires forall k | k != key :: Get(b, k) == Get(BucketOf(t, key), k)
    requires j < |t.dir| && c < BUCKETS && Get(WithBucket(t, key, b).segs[t.dir[j]][c], k).Some?
    ensures Low(k.code, DepthAt(t, j)) == Low(j, DepthAt(t, j))
  {
    var i := Low(key.code, t.depth);
    assert t.dir[j] in t.segs && t.dir[i] in t.segs;
    if t.dir[j] == t.dir[i] && c == BucketIndex(key.code) && k == key {
      LowLow(key.code, DepthAt(t, j), t.depth);
    } else {
      assert Get(t.segs[t.dir[j]][c], k).Some?;
    }
  }

  // When a bucket is full

  ghost function KeysBelow(b: Bucket, n: nat): set<Key>
    requires BucketInv(b) && n <= NSLOT
  {
    if n == 0 then {} else KeysBelow(b, n - 1) + if b.used[n - 1] then {b.kvs[n - 1].rec.key} else {}
  }

  lemma {:induction false} KeysBelowIs(b: Bucket, n: nat, k: Key)
    requires BucketInv(b) && n <= NSLOT
    ensures k in KeysBelow(b, n) <==> Linear(b, k, 0) < n
  {
    if n > 0 {
      KeysBelowIs(b, n - 1, k);
      assert b.used[n - 1] ==> b.kvs[n - 1].Ptr?;
      if At(b, k, n - 1) {
        AtIsGet(b, k, n - 1);
      } else {
        assert Linear(b, k, 0) != n - 1;
      }
    }
  }

  lemma {:induction false} KeysBelowSize(b: Bucket, n: nat)
    requires BucketInv(b) && n <= NSLOT
    ensures |KeysBelow(b, n)| <= n && (|KeysBelow(b, n)| == n <==> n <= Least(b.used, false, 0))
  {
    if n > 0 {
      KeysBelowSize(b, n - 1);
      LeastGoesOn(b.used, n);
      if b.used[n - 1] { KeyIsNew(b, n); }
    }
  }

  lemma LeastGoesOn(bits: seq<bool>, n: nat)
    requires 0 < n <= |bits|
    ensures n <= Least(bits, false, 0) <==> n - 1 <= Least(bits, false, 0) && bits[n - 1]
  {
  }

  lemma KeyIsNew(b: Bucket, n: nat)
    requires BucketInv(b) && 0 < n <= NSLOT && b.used[n - 1]
    ensures b.kvs[n - 1].Ptr? && b.kvs[n - 1].rec.key !in KeysBelow(b, n - 1)
  {
    var key := b.kvs[n - 1].rec.key;
    AtIsGet(b, key, n - 1);
    KeysBelowIs(b, n - 1, key);
  }

  /** Stored keys other than `key` that share its bucket index and its low d bits. */
  ghost function Crowd(m: map<Key, Rec>, key: Key, d: nat): set<Key> {
    set k | k in m && k != key && BucketIndex(k.code) == BucketIndex(key.code) && Low(k.code, d) == Low(key.code, d)
  }

  lemma CrowdShrinks(m: map<Key, Rec>, key: Key, a: nat, b: nat)
    requires a <= b
    ensures Crowd(m, key, b) <= Crowd(m, key, a)
  {
    forall k <- Crowd(m, key, b) ensures k in Crowd(m, key, a) {
      LowAgree(k.code, key.code, a, b);
    }
  }

  /** The bucket a key is looked up in is well formed and has its index. */
  lemma HomeBucket(t: Table, k: Key)
    requires Shape(t)
    ensures BucketInv(BucketOf(t, k)) && BucketOf(t, k).index == BucketIndex(k.code)
    ensures Find(t, k) == Get(BucketOf(t, k), k)
  {
    assert t.dir[Low(k.code, t.depth)] in t.segs;
  }

  /** Two keys are looked up in one segment exactly when they agree on its depth. */
  lemma SameSegment(t: Table, a: Key, b: Key)
    requires TableInv(t)
    ensures var l := DepthAt(t, Low(a.code, t.depth));
            t.dir[Low(a.code, t.depth)] == t.dir[Low(b.code, t.depth)] <==> Low(a.code, l) == Low(b.code, l)
  {
    var i, j := Low(a.code, t.depth), Low(b.code, t.depth);
    var l := DepthAt(t, i);
    assert t.dir[i] in t.segs;
    LowLow(a.code, l, t.depth);
    LowLow(b.code, l, t.depth);
    assert t.dir[i] == t.dir[j] <==> Low(i, l) == Low(j, l);
  }

  /** Keys that agree with `key` on its segment's depth live in its segment, and no others do. */
  lemma SameBucket(t: Table, m: map<Key, Rec>, key: Key, k: Key)
    requires TableInv(t) && Refines(t, m) && key !in m
    ensures Get(BucketOf(t, key), k).Some? <==> k in Crowd(m, key, DepthAt(t, Low(key.code, t.depth)))
  {
    var i := Low(key.code, t.depth);
    var l := DepthAt(t, i);
    SameSegment(t, key, k);
    HomeBucket(t, key);
    HomeBucket(t, k);
    if Get(BucketOf(t, key), k).Some? {
      assert Low(k.code, l) == Low(key.code, l) by {
        LowLow(key.code, l, t.depth);
        assert Get(t.segs[t.dir[i]][BucketIndex(key.code)], k).Some?;
      }
      assert BucketIndex(k.code) == BucketIndex(key.code);
      assert BucketOf(t, k) == BucketOf(t, key);
    }
  }

  /** A pass of the retry loop finds no space exactly when 48 other keys crowd the segment's depth. */
  lemma NoSpaceIff(t: Table, m: map<Key, Rec>, r: Rec)
    requires TableInv(t) && Refines(t, m)
    ensures UpsertIn(BucketOf(t, r.key), r).1 == NoSpace <==>
            r.key !in m && |Crowd(m, r.key, DepthAt(t, Low(r.key.code, t.depth)))| >= NSLOT
  {
    var b := BucketOf(t, r.key);
    assert t.dir[Low(r.key.code, t.depth)] in t.segs;
    assert BucketInv(b) && b.index == BucketIndex(r.key.code);
    UpsertMeaning(b, r);
    assert Find(t, r.key) == Get(b, r.key);
    if r.key !in m {
      KeysBelowSize(b, NSLOT);
      CrowdIsBucket(t, m, r.key);
    }
  }

  lemma CrowdIsBucket(t: Table, m: map<Key, Rec>, key: Key)
    requires TableInv(t) && Refines(t, m) && key !in m && BucketInv(BucketOf(t, key))
    ensures Crowd(m, key, DepthAt(t, Low(key.code, t.depth))) == KeysBelow(BucketOf(t, key), NSLOT)
  {
    var b := BucketOf(t, key);
    var c := Crowd(m, key, DepthAt(t, Low(key.code, t.depth)));
    forall k ensures k in c <==> k in KeysBelow(b, NSLOT) {
      SameBucket(t, m, key, k);
      KeysBelowIs(b, NSLOT, k);
    }
  }

  /** One successful pass does to the map what an upsert should. */
  lemma PassRefines(t: Table, m: map<Key, Rec>, r: Rec)
    requires TableInv(t) && Refines(t, m)
    ensures var (b, a) := UpsertIn(BucketOf(t, r.key), r);
            a != NoSpace ==>
              && a == UpsertMap(m, r).1
              && TableInv(WithBucket(t, r.key, b)) && Refines(WithBucket(t, r.key, b), UpsertMap(m, r).0)
  {
    var (b, a) := UpsertIn(BucketOf(t, r.key), r);
    HomeBucket(t, r.key);
    UpsertMeaning(BucketOf(t, r.key), r);
    if a != NoSpace {
      assert a == UpsertMap(m, r).1;
      WithBucketKeeps(t, r.key, b);
      var t' := WithBucket(t, r.key, b);
      forall k ensures Find(t', k) == if k in UpsertMap(m, r).0 then Some(UpsertMap(m, r).0[k]) else None {
        PassMap(m, r, k, Find(t, k), Find(t', k));
      }
    }
  }

  lemma PassMap(m: map<Key, Rec>, r: Rec, k: Key, before: Option<Rec>, after: Option<Rec>)
    requires before == if k in m then Some(m[k]) else None
    requires after == if k == r.key then Some(UpsertMap(m, r).0[r.key]) else before
    ensures after == if k in UpsertMap(m, r).0 then Some(UpsertMap(m, r).0[k]) else None
  {
  }

  function EmptyBucket(depth: nat, index: nat): Bucket {
    Bucket(seq(NSLOT, _ => false), depth, index, seq(NSLOT, _ => 0), seq(NSLOT, _ => Null))
  }

  function EmptySegment(depth: nat): (s: Segment)
    ensures SegmentInv(s) && Local(s) == depth && forall b, k | 0 <= b < BUCKETS :: Get(s[b], k) == None
  {
    seq(BUCKETS, b requires 0 <= b < BUCKETS => EmptyBucket(depth, b))
  }

  class HashTable {
    var dir: seq<nat>
    var depth: nat
    var segs: map<nat, Segment>
    var names: nat                      // segment names handed out so far
    ghost var contents: map<Key, Rec>

    ghost function Value(): Table
      reads this
    {
      Table(dir, depth, segs)
    }

    ghost predicate Valid()
      reads this
    {
      TableInv(Value()) && Refines(Value(), contents) && forall id <- segs :: id < names
    }

    /** A new table of 2^global entries over 2^local segments. */
    constructor (global: nat, local: nat)
      requires local <= global
      ensures Valid() && contents == map[] && depth == global
    {
      dir, depth, segs, names, contents := [], global, map[], 0, map[];
      new;
      PowMono(local, global);
      for ind := 0 to Pow2(global)
        invariant depth == global && |dir| == ind && names == (if ind < Pow2(local) then ind else Pow2(local))
        invariant forall i | 0 <= i < ind :: dir[i] == Low(i, local)
        invariant forall id :: id in segs <==> 0 <= id < names
        invariant forall id <- segs :: segs[id] == EmptySegment(local)
        invariant contents == map[]
      {
        if ind < Pow2(local) {
          SmallLow(ind, local);
          segs := segs[names := EmptySegment(local)];
          dir, names := dir + [names], names + 1;
        } else {
          SmallLow(Low(ind, local), local);
          dir := dir + [dir[ind % Pow2(local)]];
        }
      }
      forall id <- segs ensures id in dir {
        SmallLow(id, local);
        assert dir[id] == id;
      }
    }

    method Lookup(key: Key) returns (r: Option<Rec>)
      requires Valid()
      ensures r == if key in contents then Some(contents[key]) else None
    {
      r := Get(segs[dir[Low(key.code, depth)]][BucketIndex(key.code)], key);
      assert r == Find(Value(), key);
    }

    /** Install `right` in every entry that ends in the split segment's bits followed by a one. */
    method Redirect(local: nat, offset: nat, right: nat)
      requires local < depth && |dir| == Pow2(depth) && offset < Pow2(local + 1)
      modifies `dir
      ensures Redirected(old(dir), dir, local, offset, right)
    {
      var size, count := Pow2(local + 1), Parts(depth, local + 1);
      var pid, part := 0, 0;
      while pid < count
        invariant pid <= count && part == pid * size && Upto(old(dir), dir, local + 1, offset, right, 0, part)
      {
        PartFits(size, count, pid, part);
        RedirectOne(old(dir), dir, local + 1, offset, right, 0, part, pid);
        dir := dir[part + offset := right];
        pid, part := pid + 1, part + size;
      }
      assert part == |dir|;
    }

    /** Directory doubling, when the segment has a single entry. */
    method Double(code: nat, local: nat)
      requires Valid() && local == DepthAt(Value(), Low(code, depth))
      modifies `dir, `depth
      ensures Valid() && local < depth && depth >= old(depth)
      ensures dir[Low(code, depth)] == old(dir[Low(code, depth)])
    {
      if local == depth {
        ghost var t := Value();
        DoubledFor(t, contents, code);
        dir, depth := dir + dir, depth + 1;
        assert Value() == Doubled(t);
      } else {
        assert dir[Low(code, depth)] in segs;
      }
    }

    /** Split the segment that holds the code. */
    method SplitFor(code: nat)
      requires Valid()
      modifies `dir, `depth, `segs, `names
      ensures Valid() && depth >= old(depth)
      ensures DepthAt(Value(), Low(code, depth)) == old(DepthAt(Value(), Low(code, depth))) + 1
    {
      var id := dir[Low(code, depth)];
      var local := Local(segs[id]);
      Double(code, local);
      SplitSegment(code, id, local);
    }

    method SplitSegment(code: nat, id: nat, local: nat)
      requires Valid() && local < depth && id == dir[Low(code, depth)] && local == DepthAt(Value(), Low(code, depth))
      modifies `dir, `segs, `names
      ensures Valid()
      ensures DepthAt(Value(), Low(code, depth)) == local + 1
    {
      ghost var t := Value();
      var s := segs[id];
      SegmentSized(s);
      var right := names;
      segs, names := segs[id := Lefts(s)][right := Rights(s)], names + 1;
      assert Pow2(local + 1) == 2 * Pow2(local);
      Redirect(local, Low(code, local) + Pow2(local), right);
      SplitDone(t, contents, code, right, Value());
    }

    /**
      Insert or update.  The retry loop ends because each failed pass deepens the key's segment and
      fewer than 48 stored keys crowd it at some depth.
     */
    method Upsert(r: Rec, ghost bound: nat) returns (a: Answer)
      requires Valid() && (r.key in contents || |Crowd(contents, r.key, bound)| < NSLOT)
      modifies this
      ensures Valid() && (contents, a) == UpsertMap(old(contents), r)
      ensures r.key !in old(contents) ==> a == NotFound && contents == old(contents)[r.key := r]
      ensures r.key in old(contents) && old(contents)[r.key].version >= r.version ==>
                a == Expired && contents == old(contents)
      ensures r.key in old(contents) && old(contents)[r.key].version < r.version ==>
                a == Old(old(contents)[r.key]) && contents == old(contents)[r.key := r]
    {
      while true
        invariant Valid() && contents == old(contents)
        decreases bound - DepthAt(Value(), Low(r.key.code, depth))
      {
        a := Pass(r);
        if a != NoSpace {
          return;
        }
        NotCrowded(contents, r.key, DepthAt(Value(), Low(r.key.code, depth)), bound);
        SplitFor(r.key.code);
      }
    }

    /** One pass of the retry loop: the bucket's answer, and nothing changed when it has no space. */
    method Pass(r: Rec) returns (res: Answer)
      requires Valid()
      modifies `segs, `contents
      ensures Valid()
      ensures if res == NoSpace then Value() == old(Value()) && contents == old(contents)
              else (contents, res) == UpsertMap(old(contents), r)
      ensures res == NoSpace ==>
              r.key !in contents && |Crowd(contents, r.key, DepthAt(Value(), Low(r.key.code, depth)))| >= NSLOT
    {
      var index, bid := Low(r.key.code, depth), BucketIndex(r.key.code);
      var id := dir[index];
      var (b, answer) := UpsertIn(segs[id][bid], r);
      ghost var t := Value();
      PassRefines(t, contents, r);
      NoSpaceIff(t, contents, r);
      res := answer;
      if res != NoSpace {
        segs := segs[id := segs[id][bid := b]];
        contents := UpsertMap(contents, r).0;
        assert Value() == WithBucket(t, r.key, b);
      }
    }

    /** Update an existing key; the bucket is neither split nor filled. */
    method Update(r: Rec) returns (a: Answer)
      requires Valid()
      modifies this
      ensures Valid()
      ensures r.key !in old(contents) ==> a == NotFound && contents == old(contents)
      ensures r.key in old(contents) && old(contents)[r.key].version >= r.version ==>
                a == Expired && contents == old(contents)
      ensures r.key in old(contents) && old(contents)[r.key].version < r.version ==>
                a == Old(old(contents)[r.key]) && contents == old(contents)[r.key := r]
    {
      var id, bid := dir[Low(r.key.code, depth)], BucketIndex(r.key.code);
      HomeBucket(Value(), r.key);
      if Get(segs[id][bid], r.key).None? {
        return NotFound;
      }
      var (b, res) := UpsertIn(segs[id][bid], r);
      ghost var t := Value();
      PassRefines(t, contents, r);
      NoSpaceIff(t, contents, r);
      segs := segs[id := segs[id][bid := b]];
      contents := UpsertMap(contents, r).0;
      assert Value() == WithBucket(t, r.key, b);
      return res;
    }

    /** The destructor: visiting the directory in order, it deletes each segment exactly once. */
    method Destroy() returns (deleted: seq<nat>)
      requires Valid()
      ensures forall a, b | 0 <= a < b < |deleted| :: deleted[a] != deleted[b]
      ensures forall id :: id in deleted <==> id in segs
    {
      ghost var t := Value();
      var dir0 := dir;
      var d := seq(|dir0|, i requires 0 <= i < |dir0| => Some(dir0[i]));
      deleted := [];
      for idx := 0 to |dir|
        invariant Live(t, d, idx) && |d| == |dir| && Deleted(deleted, dir, idx)
      {
        DeleteStep(deleted, dir, idx);
        if d[idx].Some? {
          var local := Local(segs[dir[idx]]);
          FirstEntry(t, d, idx);
          d := Forget(d, idx, local);
          deleted := deleted + [dir[idx]];
        }
        LiveStep(t, d, idx);
      }
      assert dir[..|dir|] == dir;
    }

    /** Null every further entry of the segment first met at idx. */
    method Forget(d: seq<Option<nat>>, idx: nat, local: nat) returns (d': seq<Option<nat>>)
      requires local <= depth && |d| == Pow2(depth) && idx < Pow2(local)
      ensures |d'| == |d|
      ensures forall j | 0 <= j < |d| :: d'[j] == if j != idx && Low(j, local) == idx then None else d[j]
    {
      var size, count := Pow2(local), Parts(depth, local);
      d' := d;
      var pid, part := 1, size;
      while pid < count
        invariant size <= part == pid * size && pid <= count && Upto(d, d', local, idx, None, size, part)
      {
        PartFits(size, count, pid, part);
        RedirectOne(d, d', local, idx, None, size, part, pid);
        d' := d'[part + idx := None];
        pid, part := pid + 1, part + size;
      }
      assert part == |d|;
      forall j | 0 <= j < |d| ensures d'[j] == if j != idx && Low(j, local) == idx then None else d[j] {
        if j < size { SmallLow(j, local); }
      }
    }
  }

  /** From idx on, an entry is null exactly when an earlier one had its segment. */
  ghost predicate Live(t: Table, d: seq<Option<nat>>, idx: nat) {
    && |d| == |t.dir| && idx <= |d|
    && forall j {:trigger d[j]} | idx <= j < |d| :: d[j] == if t.dir[j] in t.dir[..idx] then None else Some(t.dir[j])
  }

  /** The segments of the first idx entries were deleted, each once. */
  ghost predicate Deleted(deleted: seq<nat>, dir: seq<nat>, idx: nat) {
    && idx <= |dir| && (forall id :: id in deleted <==> id in dir[..idx])
    && forall a, b | 0 <= a < b < |deleted| :: deleted[a] != deleted[b]
  }

  lemma DeleteStep(deleted: seq<nat>, dir: seq<nat>, idx: nat)
    requires Deleted(deleted, dir, idx) && idx < |dir|
    ensures if dir[idx] in dir[..idx] then Deleted(deleted, dir, idx + 1)
            else Deleted(deleted + [dir[idx]], dir, idx + 1)
  {
    assert dir[..idx + 1] == dir[..idx] + [dir[idx]];
  }

  /** The first entry of a segment has no bits beyond the local depth. */
  lemma FirstEntry(t: Table, d: seq<Option<nat>>, idx: nat)
    requires TableInv(t) && Live(t, d, idx) && idx < |d| && d[idx].Some?
    ensures idx == Low(idx, DepthAt(t, idx)) && DepthAt(t, idx) <= t.depth
  {
    var l := DepthAt(t, idx);
    assert t.dir[idx] in t.segs;
    var low := Low(idx, l);
    LowBelow(idx, l);
    assert Low(low, l) == low by { SmallLow(low, l); }
    assert t.dir[idx] == t.dir[low];
    assert forall j | 0 <= j < idx :: t.dir[j] in t.dir[..idx];
  }

  lemma LiveStep(t: Table, d: seq<Option<nat>>, idx: nat)
    requires TableInv(t) && |d| == |t.dir| && idx < |d|
    requires forall j {:trigger d[j]} | idx < j < |d| ::
               d[j] == if t.dir[j] in t.dir[..idx] || t.dir[j] == t.dir[idx] then None else Some(t.dir[j])
    ensures Live(t, d, idx + 1)
  {
    assert t.dir[..idx + 1] == t.dir[..idx] + [t.dir[idx]];
  }

  /** A segment too crowded at depth l is not yet as deep as the bound. */
  lemma NotCrowded(m: map<Key, Rec>, key: Key, l: nat, bound: nat)
    requires |Crowd(m, key, l)| >= NSLOT && |Crowd(m, key, bound)| < NSLOT
    ensures l < bound
  {
    if bound <= l {
      CrowdShrinks(m, key, bound, l);
      SubsetSize(Crowd(m, key, l), Crowd(m, key, bound));
    }
  }

  /**
    The bound is needed: a missing key that 48 stored keys crowd at every depth is refused by every
    table with these contents, so no number of splits ends the retry loop.
   */
  lemma RetryNeverEnds(t: Table, m: map<Key, Rec>, r: Rec)
    requires TableInv(t) && Refines(t, m) && r.key !in m && forall d: nat :: |Crowd(m, r.key, d)| >= NSLOT
    ensures UpsertIn(BucketOf(t, r.key), r).1 == NoSpace
  {
    NoSpaceIff(t, m, r);
  }

  lemma DoubledFor(t: Table, m: map<Key, Rec>, code: nat)
    requires TableInv(t) && Refines(t, m)
    ensures TableInv(Doubled(t)) && Refines(Doubled(t), m)
    ensures Doubled(t).dir[Low(code, t.depth + 1)] == t.dir[Low(code, t.depth)]
  {
    DoubledKeeps(t);
    DoubledEntry(t, Low(code, t.depth + 1));
    LowLow(code, t.depth, t.depth + 1);
    StillRefines(t, Doubled(t), m);
  }

  /** Every entry that agrees with offset on local + 1 bits leads to the right segment. */
  ghost predicate Redirected(dir: seq<nat>, dir': seq<nat>, local: nat, offset: nat, right: nat) {
    |dir'| == |dir| && forall j | 0 <= j < |dir'| :: dir'[j] == if Low(j, local + 1) == offset then right else dir[j]
  }

  lemma SplitDone(t: Table, m: map<Key, Rec>, code: nat, right: nat, t': Table)
    requires TableInv(t) && Refines(t, m) && right !in t.segs
    requires (forall b <- t.segs[t.dir[Low(code, t.depth)]] :: Sized(b)) && DepthAt(t, Low(code, t.depth)) < t.depth
    requires var id := t.dir[Low(code, t.depth)];
             var l := Local(t.segs[id]);
             && t'.depth == t.depth && Redirected(t.dir, t'.dir, l, Low(code, l) + Pow2(l), right)
             && t'.segs == t.segs[id := Lefts(t.segs[id])][right := Rights(t.segs[id])]
    ensures TableInv(t') && Refines(t', m) && DepthAt(t', Low(code, t.depth)) == DepthAt(t, Low(code, t.depth)) + 1
  {
    var index := Low(code, t.depth);
    LowLow(code, DepthAt(t, index), t.depth);
    assert IsSplit(t, index, right, t');
    SplitKeeps(t, index, right, t');
    StillRefines(t, t', m);
  }

  lemma StillRefines(t: Table, t': Table, m: map<Key, Rec>)
    requires Shape(t) && Shape(t') && Refines(t, m) && forall k {:trigger Find(t', k)} :: Find(t', k) == Find(t, k)
    ensures Refines(t', m)
  {
  }

  /** 2^(g - l), computed as the code does. */
  function Parts(g: nat, l: nat): (n: nat)
    requires l <= g
    ensures Pow2(g) == Pow2(l) * n
  {
    PowDivides(l, g);
    var c: nat :| Pow2(g) == Pow2(l) * c;
    ModUnique(Pow2(g), Pow2(l), c, 0);
    Pow2(g) / Pow2(l)
  }

  /** In positions from `start` to `end`, those whose low d bits are `offset` became v. */
  predicate Upto<T(==)>(was: seq<T>, now: seq<T>, d: nat, offset: nat, v: T, start: nat, end: nat) {
    && |now| == |was|
    && forall j {:trigger now[j]} | 0 <= j < |now| ::
       now[j] == if start <= j < end && Low(j, d) == offset then v else was[j]
  }

  lemma PartFits(size: nat, count: nat, pid: nat, part: nat)
    requires pid < count && part == pid * size
    ensures part + size == (pid + 1) * size <= size * count
  {
    assert (pid + 1) * size <= count * size;
  }

  lemma RedirectOne<T>(was: seq<T>, now: seq<T>, d: nat, offset: nat, v: T, start: nat, part: nat, pid: nat)
    requires part == pid * Pow2(d) && start <= part && part + Pow2(d) <= |now| && offset < Pow2(d)
    requires Upto(was, now, d, offset, v, start, part)
    ensures Upto(was, now[part + offset := v], d, offset, v, start, part + Pow2(d))
  {
    var now' := now[part + offset := v];
    forall j | 0 <= j < |now'|
      ensures now'[j] == if start <= j < part + Pow2(d) && Low(j, d) == offset then v else was[j]
    {
      assert now[j] == if start <= j < part && Low(j, d) == offset then v else was[j];
      if part <= j < part + Pow2(d) {
        LowInPart(d, pid, part, j - part);
      }
    }
  }
}
