/**
  A hash bucket: 48 slots, a bitmap of those in use, an 8-bit tag per slot and a pointer with a
  16-bit tag per slot.  Values and their meaning first, then the bucket that is updated in place.
 */
module HashBucket {
  import opened Basics
  import opened HashCode
  import RecordMemory

  type Key = RecordMemory.Key

  /** A record as the index sees it. */
  datatype Rec = Rec(addr: nat, key: Key, version: nat, tomb: bool)

  /** DensePointer: a record and its slot tag, or null. */
  datatype Entry = Null | Ptr(rec: Rec, tag: nat)

  datatype Bucket = Bucket(used: seq<bool>, depth: nat, index: nat, tags: seq<nat>, kvs: seq<Entry>)

  datatype Answer = NotFound | NoSpace | Expired | Old(rec: Rec)

  predicate Sized(b: Bucket) {
    |b.used| == NSLOT && |b.tags| == NSLOT && |b.kvs| == NSLOT
  }

  /** Slot i is in use for key k. */
  predicate At(b: Bucket, k: Key, i: nat)
    requires Sized(b)
  {
    i < NSLOT && b.used[i] && b.kvs[i].Ptr? && b.kvs[i].rec.key == k
  }

  /** Tags match the key's hash, the key belongs to this bucket, and no key has two slots. */
  ghost predicate BucketInv(b: Bucket) {
    && Sized(b)
    && (forall i | 0 <= i < NSLOT && b.used[i] ::
          && b.kvs[i].Ptr?
          && b.tags[i] == BucketTag(b.kvs[i].rec.key.code) && b.kvs[i].tag == SlotTag(b.kvs[i].rec.key.code)
          && BucketIndex(b.kvs[i].rec.key.code) == b.index)
    && (forall i, j | 0 <= i < j < NSLOT && b.used[i] && b.used[j] :: b.kvs[i].rec.key != b.kvs[j].rec.key)
  }

  /** A scan of the occupied slots from i on. */
  function Linear(b: Bucket, k: Key, i: nat): (n: nat)
    requires Sized(b) && i <= NSLOT
    ensures i <= n <= NSLOT && (n < NSLOT ==> At(b, k, n)) && forall j | i <= j < n :: !At(b, k, j)
    decreases NSLOT - i
  {
    if i == NSLOT then NSLOT else if At(b, k, i) then i else Linear(b, k, i + 1)
  }

  /** What the bucket holds for k. */
  function Get(b: Bucket, k: Key): Option<Rec>
    requires Sized(b)
  {
    var i := Linear(b, k, 0);
    if i < NSLOT then Some(b.kvs[i].rec) else None
  }

  lemma AtIsGet(b: Bucket, k: Key, i: nat)
    requires BucketInv(b) && At(b, k, i)
    ensures Linear(b, k, 0) == i && Get(b, k) == Some(b.kvs[i].rec)
  {
  }

  /** The first index from i on whose value is v, or the length. */
  function Least(bits: seq<bool>, v: bool, i: nat): (n: nat)
    requires i <= |bits|
    ensures i <= n <= |bits| && (n < |bits| ==> bits[n] == v) && forall j | i <= j < n :: bits[j] != v
    decreases |bits| - i
  {
    if i == |bits| || bits[i] == v then i else Least(bits, v, i + 1)
  }

  function EntryFor(r: Rec): Entry {
    Ptr(r, SlotTag(r.key.code))
  }

  /** Insert or update, as a function. */
  function UpsertIn(b: Bucket, r: Rec): (Bucket, Answer)
    requires Sized(b)
  {
    var i := Linear(b, r.key, 0);
    if i < NSLOT then
      if b.kvs[i].rec.version >= r.version then (b, Expired)
      else (b.(kvs := b.kvs[i := EntryFor(r)]), Old(b.kvs[i].rec))
    else
      var f := Least(b.used, false, 0);
      if f == NSLOT then (b, NoSpace)
      else (b.(kvs := b.kvs[f := EntryFor(r)], tags := b.tags[f := BucketTag(r.key.code)], used := b.used[f := true]),
        NotFound)
  }

  predicate Full(b: Bucket)
    requires Sized(b)
  {
    forall i | 0 <= i < NSLOT :: b.used[i]
  }

  /** Writing r into a slot that is free or already its key's keeps the bucket well formed. */
  lemma PutInv(b: Bucket, b': Bucket, r: Rec, i: nat)
    requires BucketInv(b) && BucketIndex(r.key.code) == b.index && i < NSLOT
    requires forall j | 0 <= j < NSLOT && j != i :: !At(b, r.key, j)
    requires b' == b.(kvs := b.kvs[i := EntryFor(r)], tags := b.tags[i := BucketTag(r.key.code)],
             used := b.used[i := true])
    ensures BucketInv(b') && At(b', r.key, i)
  {
    forall j, k | 0 <= j < k < NSLOT && b'.used[j] && b'.used[k] ensures b'.kvs[j].rec.key != b'.kvs[k].rec.key {
      assert j != i ==> !At(b, r.key, j);
      assert k != i ==> !At(b, r.key, k);
    }
  }

  /** After such a write r's key finds r and every other key what it found before. */
  lemma PutMeaning(b: Bucket, b': Bucket, r: Rec, i: nat)
    requires BucketInv(b) && BucketIndex(r.key.code) == b.index && i < NSLOT && (b.used[i] ==> At(b, r.key, i))
    requires forall j | 0 <= j < NSLOT && j != i :: !At(b, r.key, j)
    requires b' == b.(kvs := b.kvs[i := EntryFor(r)], tags := b.tags[i := BucketTag(r.key.code)],
             used := b.used[i := true])
    ensures BucketInv(b') && Get(b', r.key) == Some(r) && forall k | k != r.key :: Get(b', k) == Get(b, k)
  {
    PutInv(b, b', r, i);
    AtIsGet(b', r.key, i);
    forall k | k != r.key ensures Get(b', k) == Get(b, k) {
      UpsertOthers(b, b', k, i);
    }
  }

  /** The map an upsert works on, and when it cannot. */
  lemma UpsertMeaning(b: Bucket, r: Rec)
    requires BucketInv(b) && BucketIndex(r.key.code) == b.index
    ensures var (b', a) := UpsertIn(b, r);
            && BucketInv(b') && b'.depth == b.depth && b'.index == b.index
            && (a == NoSpace <==> Get(b, r.key) == None && Full(b)) && (a == NoSpace ==> b' == b)
            && (a == Expired <==> Get(b, r.key).Some? && Get(b, r.key).value.version >= r.version)
            && (a == Expired ==> b' == b)
            && (a.Old? ==> Get(b, r.key) == Some(a.rec)) && (a == NotFound ==> Get(b, r.key) == None)
            && (a.Old? || a == NotFound ==> Get(b', r.key) == Some(r))
            && forall k | k != r.key :: Get(b', k) == Get(b, k)
  {
    var a := UpsertIn(b, r).1;
    if a.Old? {
      ReplaceMeaning(b, r);
    } else if a == NotFound {
      PutMeaning(b, UpsertIn(b, r).0, r, Least(b.used, false, 0));
    }
  }

  lemma ReplaceMeaning(b: Bucket, r: Rec)
    requires BucketInv(b) && BucketIndex(r.key.code) == b.index && UpsertIn(b, r).1.Old?
    ensures var (b', a) := UpsertIn(b, r);
            && BucketInv(b') && b'.depth == b.depth && b'.index == b.index
            && Get(b, r.key) == Some(a.rec) && a.rec.version < r.version && Get(b', r.key) == Some(r)
            && forall k | k != r.key :: Get(b', k) == Get(b, k)
  {
    var i := Linear(b, r.key, 0);
    AtIsGet(b, r.key, i);
    assert b.tags == b.tags[i := BucketTag(r.key.code)] && b.used == b.used[i := true];
    OnlySlot(b, r.key, i);
    PutMeaning(b, UpsertIn(b, r).0, r, i);
  }

  lemma OnlySlot(b: Bucket, k: Key, i: nat)
    requires BucketInv(b) && At(b, k, i)
    ensures forall j | 0 <= j < NSLOT && j != i :: !At(b, k, j)
  {
  }

  /** Changing a slot that does not hold k does not change what k finds. */
  lemma UpsertOthers(b: Bucket, b': Bucket, k: Key, i: nat)
    requires BucketInv(b) && BucketInv(b') && i < NSLOT && !At(b, k, i) && !At(b', k, i)
    requires forall j | 0 <= j < NSLOT && j != i :: b'.used[j] == b.used[j] && b'.kvs[j] == b.kvs[j]
    ensures Get(b', k) == Get(b, k)
  {
    var n, n' := Linear(b, k, 0), Linear(b', k, 0);
    if n < NSLOT { assert At(b', k, n); AtIsGet(b', k, n); }
    if n' < NSLOT { assert At(b, k, n'); AtIsGet(b, k, n'); }
  }

  // Split

  /** Slot i moves to the right bucket. */
  predicate Moves(b: Bucket, i: nat)
    requires Sized(b) && i < NSLOT
  {
    b.used[i] && b.kvs[i].Ptr? && Bit(b.kvs[i].rec.key.code, b.depth)
  }

  /** What the split constructor leaves on the left and on the right. */
  function SplitBucket(b: Bucket): (Bucket, Bucket)
    requires Sized(b)
  {
    (Bucket(seq(NSLOT, i requires 0 <= i < NSLOT => b.used[i] && !Moves(b, i)), b.depth + 1, b.index, b.tags,
            seq(NSLOT, i requires 0 <= i < NSLOT => if Moves(b, i) then Null else b.kvs[i])),
     Bucket(seq(NSLOT, i requires 0 <= i < NSLOT => Moves(b, i)), b.depth + 1, b.index, b.tags, b.kvs))
  }

  /** A split deals the keys out by their bit and changes nothing else. */
  lemma SplitMeaning(b: Bucket)
    requires BucketInv(b)
    ensures var (l, r) := SplitBucket(b);
            && BucketInv(l) && BucketInv(r) && l.index == r.index == b.index && l.depth == r.depth == b.depth + 1
            && forall k :: Get(l, k) == (if Bit(k.code, b.depth) then None else Get(b, k))
                        && Get(r, k) == (if Bit(k.code, b.depth) then Get(b, k) else None)
  {
    var (l, r) := SplitBucket(b);
    forall k
      ensures Get(l, k) == (if Bit(k.code, b.depth) then None else Get(b, k))
      ensures Get(r, k) == (if Bit(k.code, b.depth) then Get(b, k) else None)
    {
      var n := Linear(b, k, 0);
      if n < NSLOT {
        if Bit(k.code, b.depth) { AtIsGet(r, k, n); } else { AtIsGet(l, k, n); }
      }
      var nl, nr := Linear(l, k, 0), Linear(r, k, 0);
      if nl < NSLOT { AtIsGet(b, k, nl); }
      if nr < NSLOT { AtIsGet(b, k, nr); }
    }
  }

  lemma SplitIs(b: Bucket, l: Bucket, r: Bucket)
    requires BucketInv(b) && Sized(l) && Sized(r)
    requires l.depth == r.depth == b.depth + 1 && l.index == r.index == b.index && l.tags == r.tags == b.tags
             && r.kvs == b.kvs
    requires forall j | 0 <= j < NSLOT ::
               && r.used[j] == Moves(b, j) && l.used[j] == (b.used[j] && !r.used[j])
               && l.kvs[j] == if r.used[j] then Null else b.kvs[j]
    ensures (l, r) == SplitBucket(b) && BucketInv(l) && BucketInv(r)
  {
    var (l', r') := SplitBucket(b);
    assert l.used == l'.used && l.kvs == l'.kvs && r.used == r'.used;
    SplitMeaning(b);
  }

  /** The bucket itself. */
  class HashBucket {
    var used: seq<bool>        // bitmap_
    var depth: nat
    var index: nat
    const tags: array<nat>
    const kvs: array<Entry>

    ghost function Repr(): set<object> {
      {this, tags, kvs}
    }

    ghost predicate Valid()
      reads Repr()
    {
      tags.Length == NSLOT && kvs.Length == NSLOT && BucketInv(Value())
    }

    ghost function Value(): Bucket
      reads Repr()
    {
      Bucket(used, depth, index, tags[..], kvs[..])
    }

    /** An empty bucket of a new segment. */
    constructor (depth: nat, index: nat)
      ensures Valid() && fresh(tags) && fresh(kvs)
      ensures used == seq(NSLOT, _ => false) && this.depth == depth && this.index == index
    {
      this.used, this.depth, this.index := seq(NSLOT, _ => false), depth, index;
      tags := new nat[NSLOT](_ => 0);
      kvs := new Entry[NSLOT](_ => Null);
    }

    /** The split constructor: copy everything, then take over the slots whose key has the bit set. */
    constructor Split(left: HashBucket)
      requires left.Valid()
      modifies left.Repr()
      ensures Valid() && left.Valid() && fresh(tags) && fresh(kvs)
      ensures (left.Value(), Value()) == old(SplitBucket(left.Value()))
    {
      used, depth, index := seq(NSLOT, _ => false), left.depth, left.index;
      tags := new nat[NSLOT](
        i requires 0 <= i < NSLOT && left.tags.Length == NSLOT reads left, left.tags => left.tags[i]);
      kvs := new Entry[NSLOT](
        i requires 0 <= i < NSLOT && left.kvs.Length == NSLOT reads left, left.kvs => left.kvs[i]);
      new;
      ghost var was := left.Value();
      assert kvs[..] == was.kvs && tags[..] == was.tags;
      var moved := TakeOver(left);
      var stay := left.used;
      used, depth := moved, depth + 1;
      left.used, left.depth := seq(NSLOT, j requires 0 <= j < NSLOT => stay[j] && !moved[j]), left.depth + 1;
      SplitIs(was, left.Value(), Value());
    }

    /** Empty the moving slots on the left, keeping their latest pointers here, whatever was copied before. */
    method TakeOver(left: HashBucket) returns (moved: seq<bool>)
      requires left.Valid() && left != this && kvs != left.kvs && kvs.Length == NSLOT
      modifies left.kvs, kvs
      ensures |moved| == NSLOT
      ensures forall j | 0 <= j < NSLOT ::
                && moved[j] == Moves(old(left.Value()), j)
                && left.kvs[j] == (if moved[j] then Null else old(left.kvs[j]))
                && kvs[j] == if moved[j] then old(left.kvs[j]) else old(kvs[j])
    {
      ghost var was, copy := left.Value(), kvs[..];
      var mask := left.used;
      moved := seq(NSLOT, _ => false);
      ghost var lo: nat := 0;
      var i := Least(mask, true, 0);
      while i < NSLOT
        invariant |mask| == NSLOT && |moved| == NSLOT && lo <= i <= NSLOT && i == Least(mask, true, 0)
        invariant forall j | 0 <= j < lo :: !mask[j] && moved[j] == Moves(was, j)
        invariant forall j | lo <= j < NSLOT :: mask[j] == was.used[j] && !moved[j]
        invariant forall j | 0 <= j < NSLOT :: left.kvs[j] == if moved[j] then Null else was.kvs[j]
        invariant forall j | 0 <= j < NSLOT :: kvs[j] == if moved[j] then was.kvs[j] else copy[j]
        decreases NSLOT - lo
      {
        if Bit(left.kvs[i].rec.key.code, left.depth) {
          moved := moved[i := true];
          var latest := left.kvs[i];
          left.kvs[i] := Null;
          if kvs[i] != latest {
            kvs[i] := latest;
          }
        }
        mask := mask[i := false];
        lo := i + 1;
        i := Least(mask, true, 0);
      }
    }

    /** Slots in use whose tag byte equals t. */
    method Matching(t: nat) returns (mask: seq<bool>)
      requires Valid()
      ensures |mask| == NSLOT && forall i | 0 <= i < NSLOT :: mask[i] == (used[i] && tags[i] == t)
    {
      mask := [];
      for i := 0 to NSLOT
        invariant |mask| == i && forall j | 0 <= j < i :: mask[j] == (used[j] && tags[j] == t)
      {
        mask := mask + [used[i] && tags[i] == t];
      }
    }

    /** The tag-mask search finds exactly what a scan of all occupied slots finds. */
    method Search(key: Key) returns (i: nat)
      requires Valid() && BucketIndex(key.code) == index
      ensures i == Linear(Value(), key, 0)
    {
      var mask := Matching(BucketTag(key.code));
      ghost var lo: nat := 0;
      i := Least(mask, true, 0);
      while i < NSLOT
        invariant |mask| == NSLOT && lo <= i <= NSLOT && i == Least(mask, true, 0)
        invariant forall j | 0 <= j < lo :: !mask[j] && !At(Value(), key, j)
        invariant forall j | lo <= j < NSLOT :: mask[j] == (used[j] && tags[j] == BucketTag(key.code))
        decreases NSLOT - lo
      {
        var e := kvs[i];
        if e.Ptr? && e.tag == SlotTag(key.code) && e.rec.key == key {
          assert At(Value(), key, i);
          AtIsGet(Value(), key, i);
          return;
        }
        mask := mask[i := false];
        lo := i + 1;
        i := Least(mask, true, 0);
      }
      forall j | 0 <= j < NSLOT ensures !At(Value(), key, j) {
        assert !mask[j];
      }
    }

    method Lookup(key: Key) returns (r: Option<Rec>)
      requires Valid() && BucketIndex(key.code) == index
      ensures r == Get(Value(), key)
    {
      var i := Search(key);
      r := if i < NSLOT then Some(kvs[i].rec) else None;
    }

    /** upsert with the bucket's lock held */
    method Insert(r: Rec) returns (a: Answer)
      requires Valid() && BucketIndex(r.key.code) == index
      modifies Repr()
      ensures Valid() && (Value(), a) == old(UpsertIn(Value(), r))
    {
      UpsertMeaning(Value(), r);
      var i := Search(r.key);
      if i < NSLOT {
        var prev := kvs[i].rec;
        if prev.version >= r.version {
          return Expired;
        }
        kvs[i] := EntryFor(r);
        return Old(prev);
      }
      var f := Least(used, false, 0);
      if f == NSLOT {
        return NoSpace;
      }
      kvs[f] := EntryFor(r);
      tags[f] := BucketTag(r.key.code);
      used := used[f := true];
      return NotFound;
    }
  }
}
