/**
  Fast reboot: the store unloads its hash table to persistent buckets when it is closed and reloads
  it, with any number of threads, when it is opened.

  Persistent and reloaded segments are freshly allocated; here each is named by the first directory
  entry that owns it.
 */
module FastReboot {
  import opened Basics
  import opened HashCode
  import opened HashBucket
  import opened HashDirectory

  /** PersistBucket: pointers and their slot tags are kept apart. */
  datatype PBucket = PBucket(used: seq<bool>, depth: nat, index: nat, tags: seq<nat>, slotTags: seq<nat>,
    ptrs: seq<Option<Rec>>)

  type PSegment = seq<PBucket>

  function Remain(e: Entry): nat {
    if e.Ptr? then e.tag else 0
  }

  function Pointer(e: Entry): Option<Rec> {
    if e.Ptr? then Some(e.rec) else None
  }

  function Dense(p: Option<Rec>, tag: nat): Entry {
    if p.Some? then Ptr(p.value, tag) else Null
  }

  /** A tombstone that is reclaimed while unloading. */
  predicate Reclaimed(b: Bucket, i: nat, reclaim: bool)
    requires Sized(b) && i < NSLOT
  {
    reclaim && b.used[i] && b.kvs[i].Ptr? && b.kvs[i].rec.tomb
  }

  ghost predicate Packed(b: Bucket, reclaim: bool, p: PBucket) {
    && Sized(b) && |p.used| == NSLOT && |p.tags| == NSLOT && |p.slotTags| == NSLOT && |p.ptrs| == NSLOT
    && p.depth == b.depth && p.index == b.index && p.tags == b.tags
    && forall i | 0 <= i < NSLOT ::
         && p.used[i] == (b.used[i] && !Reclaimed(b, i, reclaim))
         && p.slotTags[i] == Remain(b.kvs[i]) && p.ptrs[i] == Pointer(b.kvs[i])
  }

  method PackBucket(b: Bucket, reclaim: bool) returns (p: PBucket)
    requires Sized(b)
    ensures Packed(b, reclaim, p)
  {
    var used, slotTags, ptrs := b.used, [], [];
    for i := 0 to NSLOT
      invariant |slotTags| == i && |ptrs| == i && |used| == NSLOT
      invariant forall j | 0 <= j < i ::
                  && used[j] == (b.used[j] && !Reclaimed(b, j, reclaim))
                  && slotTags[j] == Remain(b.kvs[j]) && ptrs[j] == Pointer(b.kvs[j])
      invariant forall j | i <= j < NSLOT :: used[j] == b.used[j]
    {
      slotTags, ptrs := slotTags + [Remain(b.kvs[i])], ptrs + [Pointer(b.kvs[i])];
      if reclaim && b.used[i] && b.kvs[i].Ptr? && b.kvs[i].rec.tomb {
        used := used[i := false];
      }
    }
    p := PBucket(used, b.depth, b.index, b.tags, slotTags, ptrs);
  }

  ghost predicate LoadedFrom(b: Bucket, reclaim: bool, v: Bucket) {
    && Sized(b) && Sized(v) && v.depth == b.depth && v.index == b.index && v.tags == b.tags && v.kvs == b.kvs
    && forall i | 0 <= i < NSLOT :: v.used[i] == (b.used[i] && !Reclaimed(b, i, reclaim))
  }

  /** The pointers are put together again, null included. */
  method UnpackBucket(p: PBucket, ghost b: Bucket, ghost reclaim: bool) returns (v: Bucket)
    requires Packed(b, reclaim, p)
    ensures LoadedFrom(b, reclaim, v)
  {
    var kvs := [];
    for i := 0 to NSLOT
      invariant |kvs| == i && forall j | 0 <= j < i :: kvs[j] == b.kvs[j]
    {
      kvs := kvs + [Dense(p.ptrs[i], p.slotTags[i])];
    }
    v := Bucket(p.used, p.depth, p.index, p.tags, kvs);
  }

  /** What a key finds after the round trip. */
  function Survivor(r: Option<Rec>, reclaim: bool): Option<Rec> {
    if reclaim && r.Some? && r.value.tomb then None else r
  }

  /**
    What a key found and what it finds: live records stay, tombstones go exactly when they are reclaimed,
    nothing appears.
   */
  predicate Returns(before: Option<Rec>, after: Option<Rec>, reclaim: bool) {
    && (before.None? ==> after.None?)
    && (before.Some? && !before.value.tomb ==> after == before)
    && (before.Some? && before.value.tomb ==> (after.None? <==> reclaim) && (after.Some? ==> after == before))
  }

  lemma LoadedMeaning(b: Bucket, reclaim: bool, v: Bucket)
    requires BucketInv(b) && LoadedFrom(b, reclaim, v)
    ensures BucketInv(v) && forall k :: Get(v, k) == Survivor(Get(b, k), reclaim)
  {
    forall k ensures Get(v, k) == Survivor(Get(b, k), reclaim) {
      var n, m := Linear(b, k, 0), Linear(v, k, 0);
      if m < NSLOT { AtIsGet(b, k, m); }
      if n < NSLOT && !Reclaimed(b, n, reclaim) { AtIsGet(v, k, n); }
    }
  }

  ghost predicate SegmentPacked(s: Segment, reclaim: bool, p: PSegment) {
    |p| == |s| == BUCKETS && forall b | 0 <= b < BUCKETS :: Packed(s[b], reclaim, p[b])
  }

  ghost predicate SegmentLoaded(s: Segment, reclaim: bool, v: Segment) {
    |v| == |s| == BUCKETS && forall b | 0 <= b < BUCKETS :: LoadedFrom(s[b], reclaim, v[b])
  }

  method PackSegment(s: Segment, reclaim: bool) returns (p: PSegment)
    requires SegmentInv(s)
    ensures SegmentPacked(s, reclaim, p)
  {
    p := [];
    for b := 0 to BUCKETS
      invariant |p| == b && forall c | 0 <= c < b :: Packed(s[c], reclaim, p[c])
    {
      assert BucketInv(s[b]);
      var pb := PackBucket(s[b], reclaim);
      p := p + [pb];
    }
  }

  method UnpackSegment(p: PSegment, ghost s: Segment, ghost reclaim: bool) returns (v: Segment)
    requires SegmentPacked(s, reclaim, p)
    ensures SegmentLoaded(s, reclaim, v)
  {
    v := [];
    for b := 0 to BUCKETS
      invariant |v| == b && forall c | 0 <= c < b :: LoadedFrom(s[c], reclaim, v[c])
    {
      var vb := UnpackBucket(p[b], s[b], reclaim);
      v := v + [vb];
    }
  }

  /** The first directory entry of the segment behind entry i. */
  ghost function Owner(t: Table, i: nat): nat
    requires Shape(t) && i < |t.dir|
  {
    Low(i, DepthAt(t, i))
  }

  lemma OwnerShares(t: Table, i: nat)
    requires TableInv(t) && i < |t.dir|
    ensures var m := Owner(t, i);
            m <= i && t.dir[m] == t.dir[i] && Owner(t, m) == m && DepthAt(t, m) == DepthAt(t, i)
            && (i < Pow2(DepthAt(t, i)) <==> m == i)
  {
    var l := DepthAt(t, i);
    LowBelow(i, l);
    SmallLow(Low(i, l), l);
    if i < Pow2(l) { SmallLow(i, l); }
    assert t.dir[i] == t.dir[Low(i, l)];
  }

  /** The persistent image: entry i points to the packed segment of its owner. */
  ghost predicate Unloaded(t: Table, reclaim: bool, pdir: seq<nat>, psegs: map<nat, PSegment>)
    requires Shape(t)
  {
    && |pdir| == |t.dir|
    && forall i {:trigger pdir[i]} | 0 <= i < |t.dir| ::
         pdir[i] == Owner(t, i) && pdir[i] in psegs && SegmentPacked(t.segs[t.dir[i]], reclaim, psegs[pdir[i]])
  }

  /** The unload of the destructor. */
  method Unload(t: Table, reclaim: bool) returns (pdir: seq<nat>, psegs: map<nat, PSegment>)
    requires TableInv(t)
    ensures Unloaded(t, reclaim, pdir, psegs)
  {
    pdir, psegs := [], map[];
    for sid := 0 to |t.dir|
      invariant |pdir| == sid && (forall id <- psegs :: id < sid)
      invariant forall i {:trigger pdir[i]} | 0 <= i < sid ::
                  pdir[i] == Owner(t, i) && pdir[i] in psegs && SegmentPacked(t.segs[t.dir[i]], reclaim, psegs[pdir[i]])
    {
      assert t.dir[sid] in t.segs;
      var s := t.segs[t.dir[sid]];
      var depth := Local(s);
      OwnerShares(t, sid);
      if sid < Pow2(depth) {
        var p := PackSegment(s, reclaim);
        psegs := psegs[sid := p];
        pdir := pdir + [sid];
      } else {
        assert pdir[sid % Pow2(depth)] == Owner(t, Owner(t, sid));
        pdir := pdir + [pdir[sid % Pow2(depth)]];
      }
    }
  }

  /** order lists every directory index below n. */
  ghost predicate Covers(order: seq<nat>, n: nat) {
    (forall i <- order :: i < n) && forall i | 0 <= i < n :: i in order
  }

  /** The owner of every entry, as a list: an owner owns itself. */
  ghost predicate Owners(t: Table, own: seq<nat>)
    requires Shape(t)
  {
    && |own| == |t.dir| && (forall i {:trigger own[i]} | 0 <= i < |own| :: own[i] == Owner(t, i))
    && OwnersClosed(own)
  }

  ghost predicate OwnersClosed(own: seq<nat>) {
    forall i {:trigger own[i]} | 0 <= i < |own| :: own[i] <= i && own[own[i]] == own[i]
  }

  lemma OwnersOf(t: Table) returns (own: seq<nat>)
    requires TableInv(t)
    ensures Owners(t, own)
  {
    own := seq(|t.dir|, i requires 0 <= i < |t.dir| => Owner(t, i));
    forall i | 0 <= i < |own| ensures own[i] <= i && own[own[i]] == own[i] {
      OwnerShares(t, i);
    }
  }

  /** Entry i is loaded: an owner has its segment, another entry is queued for sharing. */
  ghost predicate Loaded(t: Table, own: seq<nat>, reclaim: bool, vdir: seq<Option<nat>>, segs: map<nat, Segment>,
      sharing: set<(nat, nat)>, i: nat) {
    && i < |own| == |vdir| == |t.dir|
    && if own[i] == i
       then vdir[i] == Some(i) && i in segs && t.dir[i] in t.segs && SegmentLoaded(t.segs[t.dir[i]], reclaim, segs[i])
       else (i, own[i]) in sharing
  }

  /** Shared entries and segments named so far are right. */
  ghost predicate Queued(own: seq<nat>, segs: map<nat, Segment>, sharing: set<(nat, nat)>) {
    && (forall p <- sharing :: p.0 < |own| && p.1 == own[p.0] && p.1 != p.0)
    && (forall id <- segs :: id < |own| && own[id] == id)
  }

  /** The reload: segments in any order, then, past the barrier, the shared entries. */
  method Reload(depth: nat, pdir: seq<nat>, psegs: map<nat, PSegment>, order: seq<nat>, ghost t: Table,
      ghost reclaim: bool)
    returns (t': Table)
    requires TableInv(t) && depth == t.depth && Unloaded(t, reclaim, pdir, psegs) && Covers(order, |pdir|)
    ensures TableInv(t') && SameSharing(t, t') && forall k {:trigger Find(t', k)} ::
            Returns(Find(t, k), Find(t', k), reclaim)
  {
    ghost var own := OwnersOf(t);
    var vdir, segs, sharing := LoadSegments(pdir, psegs, order, t, own, reclaim);
    var dir := ShareEntries(vdir, sharing, own, segs) by {
      forall i | 0 <= i < |own| ensures if own[i] == i then vdir[i] == Some(i) else (i, own[i]) in sharing {
        assert Loaded(t, own, reclaim, vdir, segs, sharing, i);
      }
    }
    t' := Table(dir, depth, segs);
    ReloadDone(t, own, reclaim, vdir, segs, sharing, t');
    RebootRoundTrip(t, reclaim, t');
  }

  lemma ReloadDone(t: Table, own: seq<nat>, reclaim: bool, vdir: seq<Option<nat>>, segs: map<nat, Segment>,
      sharing: set<(nat, nat)>, t': Table)
    requires TableInv(t) && Owners(t, own) && t' == Table(own, t.depth, segs) && Queued(own, segs, sharing)
    requires forall i: nat {:trigger Loaded(t, own, reclaim, vdir, segs, sharing, i)} | i < |own| ::
             Loaded(t, own, reclaim, vdir, segs, sharing, i)
    ensures Reloaded(t, reclaim, t')
  {
    forall i | 0 <= i < |t.dir|
      ensures t'.dir[i] in t'.segs && SegmentLoaded(t.segs[t.dir[i]], reclaim, t'.segs[t'.dir[i]])
    {
      OwnerShares(t, i);
      assert Loaded(t, own, reclaim, vdir, segs, sharing, own[i]);
    }
  }

  lemma EntryPacked(t: Table, reclaim: bool, pdir: seq<nat>, psegs: map<nat, PSegment>, own: seq<nat>, sid: nat)
    requires TableInv(t) && Owners(t, own) && Unloaded(t, reclaim, pdir, psegs) && sid < |pdir|
    ensures t.dir[sid] in t.segs && pdir[sid] in psegs
    ensures SegmentPacked(t.segs[t.dir[sid]], reclaim, psegs[pdir[sid]])
    ensures var local := psegs[pdir[sid]][0].depth;
            sid % Pow2(local) == own[sid] && (sid < Pow2(local) <==> own[sid] == sid)
  {
    assert t.dir[sid] in t.segs && pdir[sid] == own[sid];
    OwnerShares(t, sid);
  }

  lemma OneMoreLoaded(t: Table, own: seq<nat>, reclaim: bool, vdir: seq<Option<nat>>, segs: map<nat, Segment>,
      sharing: set<(nat, nat)>, vdir': seq<Option<nat>>, segs': map<nat, Segment>, sharing': set<(nat, nat)>,
      order: seq<nat>, n: nat)
    requires n < |order| && |vdir'| == |vdir| && sharing <= sharing'
    requires forall m {:trigger order[m]} | 0 <= m < n :: Loaded(t, own, reclaim, vdir, segs, sharing, order[m])
    requires forall i | 0 <= i < |vdir| && i != order[n] ::
             vdir'[i] == vdir[i] && (i in segs ==> i in segs' && segs'[i] == segs[i])
    requires Loaded(t, own, reclaim, vdir', segs', sharing', order[n])
    ensures forall m {:trigger order[m]} | 0 <= m <= n :: Loaded(t, own, reclaim, vdir', segs', sharing', order[m])
  {
    forall m | 0 <= m <= n ensures Loaded(t, own, reclaim, vdir', segs', sharing', order[m]) {
      if order[m] != order[n] {
        StillLoaded(t, own, reclaim, vdir, segs, sharing, vdir', segs', sharing', order[m]);
      }
    }
  }

  lemma StillLoaded(t: Table, own: seq<nat>, reclaim: bool, vdir: seq<Option<nat>>, segs: map<nat, Segment>,
      sharing: set<(nat, nat)>, vdir': seq<Option<nat>>, segs': map<nat, Segment>, sharing': set<(nat, nat)>, i: nat)
    requires Loaded(t, own, reclaim, vdir, segs, sharing, i) && |vdir'| == |vdir| && vdir'[i] == vdir[i]
    requires (i in segs ==> i in segs' && segs'[i] == segs[i]) && sharing <= sharing'
    ensures Loaded(t, own, reclaim, vdir', segs', sharing', i)
  {
  }

  method LoadSegments(pdir: seq<nat>, psegs: map<nat, PSegment>, order: seq<nat>, ghost t: Table, ghost own: seq<nat>,
      ghost reclaim: bool)
    returns (vdir: seq<Option<nat>>, segs: map<nat, Segment>, sharing: set<(nat, nat)>)
    requires TableInv(t) && Owners(t, own) && Unloaded(t, reclaim, pdir, psegs) && Covers(order, |pdir|)
    ensures |vdir| == |own| && Queued(own, segs, sharing)
    ensures forall i: nat {:trigger Loaded(t, own, reclaim, vdir, segs, sharing, i)} | i < |own| ::
            Loaded(t, own, reclaim, vdir, segs, sharing, i)
  {
    vdir, segs, sharing := seq(|pdir|, _ => None), map[], {};
    for n := 0 to |order|
      invariant |vdir| == |own| && Queued(own, segs, sharing)
      invariant forall m {:trigger order[m]} | 0 <= m < n :: Loaded(t, own, reclaim, vdir, segs, sharing, order[m])
    {
      var sid := order[n];
      assert sid in order;
      EntryPacked(t, reclaim, pdir, psegs, own, sid);
      var p := psegs[pdir[sid]];
      var local := p[0].depth;
      ghost var vdir0, segs0, sharing0 := vdir, segs, sharing;
      if sid < Pow2(local) {
        var v := UnpackSegment(p, t.segs[t.dir[sid]], reclaim);
        segs := segs[sid := v];
        vdir := vdir[sid := Some(sid)];
      } else {
        sharing := sharing + {(sid, sid % Pow2(local))};
      }
      assert Loaded(t, own, reclaim, vdir, segs, sharing, sid);
      OneMoreLoaded(t, own, reclaim, vdir0, segs0, sharing0, vdir, segs, sharing, order, n);
    }
    forall i: nat | i < |own| ensures Loaded(t, own, reclaim, vdir, segs, sharing, i) {
      assert i in order;
      var m :| 0 <= m < |order| && order[m] == i;
    }
  }

  /** *pair.first = *pair.second, in any order */
  method ShareEntries(vdir: seq<Option<nat>>, sharing: set<(nat, nat)>, ghost own: seq<nat>,
      ghost segs: map<nat, Segment>) returns (dir: seq<nat>)
    requires OwnersClosed(own) && |vdir| == |own| && Queued(own, segs, sharing)
    requires forall i {:trigger own[i]} | 0 <= i < |own| ::
             if own[i] == i then vdir[i] == Some(i) else (i, own[i]) in sharing
    ensures dir == own
  {
    var v, rest := vdir, sharing;
    while rest != {}
      invariant rest <= sharing && |v| == |own|
      invariant forall i {:trigger own[i]} | 0 <= i < |own| ::
                v[i] == Some(own[i]) || (own[i] != i && (i, own[i]) in rest)
      decreases rest
    {
      var p :| p in rest;
      assert own[own[p.0]] == own[p.0];
      v := v[p.0 := v[p.1]];
      rest := rest - {p};
    }
    dir := [];
    for i := 0 to |v|
      invariant |dir| == i && forall j {:trigger dir[j]} | 0 <= j < i :: dir[j] == own[j]
    {
      assert v[i] == Some(own[i]);
      dir := dir + [v[i].value];
    }
  }

  ghost predicate SameSharing(t: Table, t': Table) {
    |t'.dir| == |t.dir|
    && forall i, j | 0 <= i < |t.dir| && 0 <= j < |t.dir| :: t'.dir[i] == t'.dir[j] <==> t.dir[i] == t.dir[j]
  }

  ghost predicate Reloaded(t: Table, reclaim: bool, t': Table)
    requires TableInv(t)
  {
    && t'.depth == t.depth && |t'.dir| == |t.dir| && (forall i | 0 <= i < |t.dir| :: t'.dir[i] == Owner(t, i))
    && (forall i | 0 <= i < |t.dir| ::
       t'.dir[i] in t'.segs && SegmentLoaded(t.segs[t.dir[i]], reclaim, t'.segs[t'.dir[i]]))
    && (forall id <- t'.segs :: id < |t.dir| && Owner(t, id) == id)
  }

  lemma SegmentMeaning(s: Segment, reclaim: bool, v: Segment)
    requires SegmentInv(s) && SegmentLoaded(s, reclaim, v)
    ensures SegmentInv(v) && Local(v) == Local(s)
    ensures forall b, k | 0 <= b < BUCKETS :: Get(v[b], k) == Survivor(Get(s[b], k), reclaim)
  {
    forall b | 0 <= b < BUCKETS
      ensures BucketInv(v[b]) && v[b].index == b && v[b].depth == s[0].depth
              && forall k :: Get(v[b], k) == Survivor(Get(s[b], k), reclaim)
    {
      LoadedMeaning(s[b], reclaim, v[b]);
    }
  }

  lemma ReloadedShape(t: Table, reclaim: bool, t': Table)
    requires TableInv(t) && Reloaded(t, reclaim, t')
    ensures Shape(t') && SameSharing(t, t') && forall i | 0 <= i < |t.dir| :: DepthAt(t', i) == DepthAt(t, i)
  {
    forall id | id in t'.segs ensures SegmentInv(t'.segs[id]) && Local(t'.segs[id]) <= t'.depth {
      assert t'.dir[id] == id && t.dir[id] in t.segs;
      SegmentMeaning(t.segs[t.dir[id]], reclaim, t'.segs[id]);
    }
    forall i | 0 <= i < |t.dir| ensures Local(t'.segs[t'.dir[i]]) == DepthAt(t, i) {
      assert t.dir[i] in t.segs;
      SegmentMeaning(t.segs[t.dir[i]], reclaim, t'.segs[t'.dir[i]]);
    }
    forall i, j | 0 <= i < |t.dir| && 0 <= j < |t.dir| ensures t'.dir[i] == t'.dir[j] <==> t.dir[i] == t.dir[j] {
      OwnerShares(t, i);
      OwnerShares(t, j);
      assert t.dir[i] == t.dir[j] <==> Low(i, DepthAt(t, i)) == Low(j, DepthAt(t, i));
    }
  }

  /**
    The round trip: the reloaded table satisfies the directory invariant, shares segments between
    the same entries, and finds for every key what the old one found, less reclaimed tombstones.
   */
  lemma RebootRoundTrip(t: Table, reclaim: bool, t': Table)
    requires TableInv(t) && Reloaded(t, reclaim, t')
    ensures TableInv(t') && SameSharing(t, t')
    ensures forall k {:trigger Find(t', k)} ::
              && (Find(t, k).None? ==> Find(t', k).None?)
              && (Find(t, k).Some? && !Find(t, k).value.tomb ==> Find(t', k) == Find(t, k))
              && (Find(t, k).Some? && Find(t, k).value.tomb ==> Find(t', k) == if reclaim then None else Find(t, k))
  {
    ReloadedInv(t, reclaim, t');
    forall k ensures Find(t', k) == Survivor(Find(t, k), reclaim) { ReloadedFinds(t, reclaim, t', k); }
  }

  lemma ReloadedInv(t: Table, reclaim: bool, t': Table)
    requires TableInv(t) && Reloaded(t, reclaim, t')
    ensures TableInv(t') && SameSharing(t, t')
  {
    ReloadedShape(t, reclaim, t');
    forall i, j | 0 <= i < |t'.dir| && 0 <= j < |t'.dir|
      ensures t'.dir[i] == t'.dir[j] <==> Low(i, DepthAt(t', i)) == Low(j, DepthAt(t', i))
    {
      assert t'.dir[i] == t'.dir[j] <==> t.dir[i] == t.dir[j];
    }
    forall id <- t'.segs ensures id in t'.dir {
      assert t'.dir[id] == id;
    }
    ReloadedHome(t, reclaim, t');
  }

  /** No key moved to another entry or bucket. */
  lemma ReloadedHome(t: Table, reclaim: bool, t': Table)
    requires TableInv(t) && Reloaded(t, reclaim, t') && Shape(t')
    ensures Home(t')
  {
    forall i, b, k | 0 <= i < |t'.dir| && 0 <= b < BUCKETS
      ensures Get(t'.segs[t'.dir[i]][b], k) == Survivor(Get(t.segs[t.dir[i]][b], k), reclaim)
    {
      assert t.dir[i] in t.segs;
      SegmentMeaning(t.segs[t.dir[i]], reclaim, t'.segs[t'.dir[i]]);
    }
    assert forall i | 0 <= i < |t.dir| :: DepthAt(t', i) == DepthAt(t, i) by { ReloadedShape(t, reclaim, t'); }
  }

  lemma ReloadedFinds(t: Table, reclaim: bool, t': Table, k: Key)
    requires TableInv(t) && Reloaded(t, reclaim, t') && Shape(t')
    ensures Find(t', k) == Survivor(Find(t, k), reclaim)
  {
    forall i, b | 0 <= i < |t'.dir| && 0 <= b < BUCKETS
      ensures Get(t'.segs[t'.dir[i]][b], k) == Survivor(Get(t.segs[t.dir[i]][b], k), reclaim)
    {
      assert t.dir[i] in t.segs;
      SegmentMeaning(t.segs[t.dir[i]], reclaim, t'.segs[t'.dir[i]]);
    }
  }
}
