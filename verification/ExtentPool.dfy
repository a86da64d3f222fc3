/**
  The persistent metadata of the extent allocator as a value, the cache lines it is made of, what a
  crash may leave of it, and the state it stands for.
 */
module ExtentPool {
  import opened Basics

  const RUNS_PER_EXTENT: nat := 32          // kNBaseExtent

  datatype RegionType = Small | Medium | Large | Invalid

  /** ExtentDesc; `used` is the union of bitmap, byte map and tokens. */
  datatype Desc = Desc(kind: RegionType, rcase: nat, size: nat, count: nat, next: Option<nat>, runs: Option<nat>,
    used: set<nat>)

  datatype DescMeta = DescMeta(extUsed: nat, extFree: Option<nat>, medUsed: nat, medFree: Option<nat>)

  datatype Head = Head(mind: nat, occupied: Option<nat>)

  /** meds[i] is the `next` field of medium meta i. */
  datatype Pool = Pool(head: Head, meta: seq<DescMeta>, descs: seq<Desc>, meds: seq<Option<nat>>)

  /** A store, given as the new contents of the one cache line it changes. */
  datatype Write =
    | WHead(head: Head)
    | WMeta(buf: nat, meta: DescMeta)
    | WDesc(ext: nat, desc: Desc)
    | WMed(med: nat, next: Option<nat>)

  datatype Line = LHead | LMeta(buf: nat) | LDesc(ext: nat) | LMed(med: nat)

  function LineOf(w: Write): Line {
    match w
    case WHead(_) => LHead
    case WMeta(b, _) => LMeta(b)
    case WDesc(i, _) => LDesc(i)
    case WMed(i, _) => LMed(i)
  }

  predicate InPool(p: Pool, w: Write) {
    match w
    case WHead(_) => true
    case WMeta(b, _) => b < |p.meta|
    case WDesc(i, _) => i < |p.descs|
    case WMed(i, _) => i < |p.meds|
  }

  function Apply(p: Pool, w: Write): Pool
    requires InPool(p, w)
  {
    match w
    case WHead(h) => p.(head := h)
    case WMeta(b, m) => p.(meta := p.meta[b := m])
    case WDesc(i, d) => p.(descs := p.descs[i := d])
    case WMed(i, n) => p.(meds := p.meds[i := n])
  }

  predicate SameShape(p: Pool, q: Pool) {
    |p.meta| == |q.meta| && |p.descs| == |q.descs| && |p.meds| == |q.meds|
  }

  /** Every line keeps some prefix of its pending stores: its durable contents or one of the stored ones. */
  ghost predicate CrashImage(base: Pool, log: seq<Write>, im: Pool) {
    && SameShape(base, im)
    && (im.head == base.head || WHead(im.head) in log)
    && (forall b | 0 <= b < |im.meta| :: im.meta[b] == base.meta[b] || WMeta(b, im.meta[b]) in log)
    && (forall i | 0 <= i < |im.descs| :: im.descs[i] == base.descs[i] || WDesc(i, im.descs[i]) in log)
    && (forall i | 0 <= i < |im.meds| :: im.meds[i] == base.meds[i] || WMed(i, im.meds[i]) in log)
  }

  // The allocator's state

  /** What an allocated descriptor means: everything but its link. */
  datatype Extent = Extent(kind: RegionType, rcase: nat, size: nat, count: nat, runs: Option<nat>, used: set<nat>)

  function Meaning(d: Desc): Extent {
    Extent(d.kind, d.rcase, d.size, d.count, d.runs, d.used)
  }

  /** Extents ever used, the two free lists in order, and the allocated extents. */
  datatype View = View(extUsed: nat, freeExts: seq<nat>, medUsed: nat, freeMeds: seq<nat>, alloc: map<nat, Extent>)

  ghost function Mediums(v: View): set<nat> {
    set i | i in v.alloc && v.alloc[i].kind == Medium
  }

  /** Free and allocated extents partition the used ones. */
  ghost predicate ExtInv(v: View, total: nat) {
    && v.extUsed <= total && Distinct(v.freeExts)
    && (forall i :: i in v.alloc || i in v.freeExts <==> 0 <= i < v.extUsed)
    && (forall i <- v.freeExts :: i !in v.alloc)
    && (forall i <- v.alloc :: v.alloc[i].kind != Invalid && (v.alloc[i].kind == Medium <==> v.alloc[i].runs.Some?))
  }

  /** Arrays of medium metas are conserved, never shared, and as many as there are used extents at most. */
  ghost predicate MedInv(v: View) {
    && Distinct(v.freeMeds) && (forall m <- v.freeMeds :: MedArray(v, m))
    && (forall i <- Mediums(v) ::
       v.alloc[i].runs.Some? && MedArray(v, v.alloc[i].runs.value) && v.alloc[i].runs.value !in v.freeMeds)
    && (forall i, j | i in Mediums(v) && j in Mediums(v) && i != j :: v.alloc[i].runs != v.alloc[j].runs)
    && v.medUsed == RUNS_PER_EXTENT * (|Mediums(v)| + |v.freeMeds|)
    && v.medUsed <= RUNS_PER_EXTENT * v.extUsed
  }

  ghost predicate ViewInv(v: View, total: nat) {
    ExtInv(v, total) && MedInv(v)
  }

  /** m starts a whole array of medium metas among those handed out. */
  predicate MedArray(v: View, m: nat) {
    m % RUNS_PER_EXTENT == 0 && m + RUNS_PER_EXTENT <= v.medUsed
  }

  function HeadOf(s: seq<nat>): Option<nat> {
    if s == [] then None else Some(s[0])
  }

  /** list is the chain of descriptors reached from its first element. */
  ghost predicate ExtChain(p: Pool, list: seq<nat>) {
    forall k | 0 <= k < |list| :: list[k] < |p.descs| && p.descs[list[k]].next == HeadOf(list[k + 1..])
  }

  ghost predicate MedChain(p: Pool, list: seq<nat>) {
    forall k | 0 <= k < |list| :: list[k] < |p.meds| && p.meds[list[k]] == HeadOf(list[k + 1..])
  }

  predicate Shaped(p: Pool) {
    |p.meta| == 2 && p.head.mind < 2 && |p.meds| == RUNS_PER_EXTENT * |p.descs|
  }

  /** The pool stands for v, except that the first free extent may carry any type. */
  ghost predicate AlmostStandsFor(p: Pool, v: View) {
    && Shaped(p) && ViewInv(v, |p.descs|)
    && var m := p.meta[p.head.mind];
    && m == DescMeta(v.extUsed, HeadOf(v.freeExts), v.medUsed, HeadOf(v.freeMeds))
    && ExtChain(p, v.freeExts) && MedChain(p, v.freeMeds)
    && (forall k | 1 <= k < |v.freeExts| :: p.descs[v.freeExts[k]].kind == Invalid)
    && (forall i <- v.alloc :: Meaning(p.descs[i]) == v.alloc[i])
  }

  /** The pool stands for v: a descriptor below extUsed is on the free list exactly when its type is invalid. */
  ghost predicate StandsFor(p: Pool, v: View) {
    AlmostStandsFor(p, v) && p.head.occupied == None && (v.freeExts != [] ==> p.descs[v.freeExts[0]].kind == Invalid)
  }

  /** The repair of `resume` when no list of half-used extents is recorded. */
  function Resume(p: Pool): Pool
    requires Shaped(p)
  {
    match p.meta[p.head.mind].extFree
    case None => p
    case Some(i) => if i < |p.descs| then p.(descs := p.descs[i := p.descs[i].(kind := Invalid)]) else p
  }

  /** Only the head of the free list ever needs repair. */
  lemma ResumeRepairs(p: Pool, v: View)
    requires AlmostStandsFor(p, v) && p.head.occupied == None
    ensures StandsFor(Resume(p), v)
  {
    if v.freeExts != [] {
      var q := Resume(p);
      assert v.freeExts[0] in v.freeExts;
      assert forall k | 0 <= k < |v.freeExts| :: q.descs[v.freeExts[k]].next == p.descs[v.freeExts[k]].next;
    }
  }

  /** Free exactly when invalid, below extUsed. */
  lemma FreeIffInvalid(p: Pool, v: View, i: nat)
    requires StandsFor(p, v) && i < v.extUsed
    ensures i < |p.descs| && (i in v.freeExts <==> p.descs[i].kind == Invalid)
  {
    if i in v.freeExts {
      var k :| 0 <= k < |v.freeExts| && v.freeExts[k] == i;
    }
  }

  /** Links and heads determine a list of extents. */
  lemma {:induction false} ChainUnique(p: Pool, a: seq<nat>, b: seq<nat>)
    requires ExtChain(p, a) && ExtChain(p, b) && HeadOf(a) == HeadOf(b)
    ensures a == b
  {
    if a != [] {
      assert a[0] == b[0] && HeadOf(a[1..]) == HeadOf(b[1..]);
      forall k | 0 <= k < |a| - 1 ensures p.descs[a[1..][k]].next == HeadOf(a[1..][k + 1..]) {
        assert a[1..][k + 1..] == a[k + 2..];
      }
      forall k | 0 <= k < |b| - 1 ensures p.descs[b[1..][k]].next == HeadOf(b[1..][k + 1..]) {
        assert b[1..][k + 1..] == b[k + 2..];
      }
      ChainUnique(p, a[1..], b[1..]);
    }
  }

  lemma {:induction false} MedChainUnique(p: Pool, a: seq<nat>, b: seq<nat>)
    requires MedChain(p, a) && MedChain(p, b) && HeadOf(a) == HeadOf(b)
    ensures a == b
  {
    if a != [] {
      assert a[0] == b[0] && HeadOf(a[1..]) == HeadOf(b[1..]);
      forall k | 0 <= k < |a| - 1 ensures p.meds[a[1..][k]] == HeadOf(a[1..][k + 1..]) {
        assert a[1..][k + 1..] == a[k + 2..];
      }
      forall k | 0 <= k < |b| - 1 ensures p.meds[b[1..][k]] == HeadOf(b[1..][k + 1..]) {
        assert b[1..][k + 1..] == b[k + 2..];
      }
      MedChainUnique(p, a[1..], b[1..]);
    }
  }

  /** A pool stands for at most one state, also before its resume. */
  lemma StateUnique(p: Pool, v: View, w: View)
    requires AlmostStandsFor(p, v) && AlmostStandsFor(p, w)
    ensures v == w
  {
    ChainUnique(p, v.freeExts, w.freeExts);
    MedChainUnique(p, v.freeMeds, w.freeMeds);
    assert v.alloc.Keys == w.alloc.Keys;
    assert v.alloc == w.alloc;
  }
}
