/**
  Upserts, updates, lookups and segment splits of any number of threads, racing at the granularity of
  single atomic loads, stores, compare-and-swaps and exchanges.

  The machine follows the buckets number `index` of all segments; a key only ever touches buckets of
  its own number.  Segments are split again and again, several at a time, and the directory doubles, by
  threads that found one of these buckets full and by threads that found a bucket of another number full.

  - A version lock is taken exclusively, or read: a reader waits until it is free, remembers its
    version, and validates later that it is free with the same version.
  - Updates and lookups hold no lock: they validate the directory once, search the bucket by tag, and
    retry a miss when the bucket's version has changed.
  - An upsert works under its bucket's lock, but updates go on swapping pointers beside it.
  - A split works under the locks of all the segment's buckets, and takes the directory's lock only to
    publish the right half.
 */
module SplitRace {
  import opened Basics
  import opened HashCode
  import opened HashBucket

  type Thread = nat
  type Id = nat   // a segment

  datatype Op = Write(rec: Rec) | Read(key: Key) | Put(rec: Rec) {
    function Target(): Key {
      if Read? then key else rec.key
    }
  }

  /** How far the search of a bucket is; an upsert that finds nothing chooses a slot and fills it by three stores. */
  datatype Stage =
    | NeedMask
    | Scan(mask: set<nat>)
    | Loaded(mask: set<nat>, at: nat, seen: Entry)
    | Chosen(slot: nat)
    | Stored(slot: nat)
    | Tagged(slot: nat)

  /** The pointer taken out of a left slot and not yet stored on the right. */
  datatype Hand = Empty | Holding(slot: nat, entry: Entry)

  datatype Phase =
    | Moving(todo: set<nat>, moved: set<nat>, hand: Hand)
    | Marked      // bitmaps and depths are set
    | InDir       // holding the directory's lock
    | Published   // the directory leads to both halves
    | Unlisted    // the directory's lock is released

  datatype Next = Done | Again(op: Op) | Crowded(op: Op, local: nat)

  datatype Pc =
    | Idle
    | Ask(op: Op)
    | Routed(op: Op, dver: nat)
    | Entry(op: Op, dver: nat, at: Id)
    | Versioned(op: Op, dver: nat, at: Id, ver: nat)
    | Pass(op: Op, at: Id, ver: nat, stage: Stage)
    | Guarded(op: Op, dver: nat, at: Id)
    | Insert(op: Op, at: Id, stage: Stage)
    | Release(at: Id, next: Next)
    | Grow(op: Op, at: Id, local: nat)
    | Grown(op: Op, at: Id, local: nat)
    | Split(op: Op, at: Id, to: Id, phase: Phase)

  /**
    A bucket with its lock.  The last four fields are history: the slots that were ever in use, the low
    hash bits the directory sends here and their number, and the segment that a half not yet published
    is split from.
   */
  datatype Cell = Cell(b: Bucket, ver: nat, lock: Option<Thread>, ever: set<nat>, low: nat, span: nat, via: Option<Id>)

  /** Where the one valid pointer of a key is. */
  datatype Place = Slot(id: Id, i: nat) | InHand(t: Thread)

  /** `m` and `place` are history: the contents as the replies so far make them, and where each record is. */
  datatype State = State(
    index: nat, cells: map<Id, Cell>, dir: seq<Id>, depth: nat, dver: nat, dlock: Option<Thread>,
    pc: map<Thread, Pc>, m: map<Key, Rec>, place: map<Key, Place>)

  datatype Reply = Silent | Reply(op: Op, answer: Answer)

  // Reading the state

  /** Where the directory sends a key. */
  function Route(s: State, k: Key): Id {
    var j := Low(k.code, s.depth);
    if j < |s.dir| then s.dir[j] else 0
  }

  function Kv(s: State, id: Id, i: nat): Entry {
    if id in s.cells && i < |s.cells[id].b.kvs| then s.cells[id].b.kvs[i] else Null
  }

  predicate Used(s: State, id: Id, i: nat) {
    id in s.cells && i < |s.cells[id].b.used| && s.cells[id].b.used[i]
  }

  function Tag(s: State, id: Id, i: nat): nat {
    if id in s.cells && i < |s.cells[id].b.tags| then s.cells[id].b.tags[i] else 0
  }

  predicate Free(s: State, id: Id) {
    id in s.cells && s.cells[id].lock.None?
  }

  predicate LockedBy(s: State, id: Id, t: Thread) {
    id in s.cells && s.cells[id].lock == Some(t)
  }

  predicate DirFree(s: State, dver: nat) {
    s.dlock.None? && s.dver == dver
  }

  /** The bucket is free with the version that was remembered. */
  predicate Unchanged(s: State, id: Id, ver: nat) {
    Free(s, id) && s.cells[id].ver == ver
  }

  ghost function Matches(s: State, id: Id, k: Key): set<nat> {
    set i: nat | i < NSLOT && Used(s, id, i) && Tag(s, id, i) == BucketTag(k.code)
  }

  /** The entry is k's record. */
  predicate IsFor(e: Entry, k: Key) {
    e.Ptr? && e.tag == SlotTag(k.code) && e.rec.key == k
  }

  // Changing it

  function WithPc(s: State, t: Thread, p: Pc): State {
    s.(pc := s.pc[t := p])
  }

  function WithCell(s: State, id: Id, c: Cell): State {
    s.(cells := s.cells[id := c])
  }

  function WithKv(s: State, id: Id, i: nat, e: Entry): State
    requires id in s.cells && i < |s.cells[id].b.kvs|
  {
    var c := s.cells[id];
    WithCell(s, id, c.(b := c.b.(kvs := c.b.kvs[i := e])))
  }

  function WithLock(s: State, id: Id, t: Thread): State
    requires id in s.cells
  {
    WithCell(s, id, s.cells[id].(lock := Some(t)))
  }

  /** Releasing a lock changes the version. */
  function Unlocked(s: State, id: Id): State
    requires id in s.cells
  {
    WithCell(s, id, s.cells[id].(lock := None, ver := s.cells[id].ver + 1))
  }

  datatype Step =
    | Invoke(t: Thread, op: Op)
    | ReadVersion(t: Thread)
    | ReadEntry(t: Thread, at: Id)
    | TakeVersion(t: Thread)
    | Validate(t: Thread)
    | LockBucket(t: Thread)
    | ValidateLocked(t: Thread)
    | ReadMask(t: Thread, mask: set<nat>)
    | LoadSlot(t: Thread, i: nat)
    | Swap(t: Thread)
    | EndPass(t: Thread)
    | ChooseSlot(t: Thread)
    | StorePointer(t: Thread)
    | StoreTag(t: Thread)
    | StoreBit(t: Thread)
    | Unlock(t: Thread)
    | Elsewhere(t: Thread, op: Op)
    | LockSegment(t: Thread, at: Id)
    | BeginSplit(t: Thread, to: Id, copy: seq<Entry>)
    | KeepSlot(t: Thread, i: nat)
    | TakeSlot(t: Thread, i: nat)
    | MoveSlot(t: Thread)
    | Mark(t: Thread)
    | LockDir(t: Thread)
    | Double(t: Thread)
    | Publish(t: Thread)
    | UnlockDir(t: Thread)
    | UnlockSegment(t: Thread)

  /** The operation is on a key of these buckets. */
  predicate Here(s: State, op: Op) {
    BucketIndex(op.Target().code) == s.index
  }

  ghost predicate InvokeStep(s: State, s': State, t: Thread, op: Op) {
    t in s.pc && s.pc[t] == Idle && Here(s, op) && s' == WithPc(s, t, Ask(op))
  }

  ghost predicate ReadVersionStep(s: State, s': State, t: Thread) {
    t in s.pc && s.pc[t].Ask? && s.dlock.None? && s' == WithPc(s, t, Routed(s.pc[t].op, s.dver))
  }

  /** The entry is read without a check: if the directory has changed since, it may be any it has ever held. */
  ghost predicate ReadEntryStep(s: State, s': State, t: Thread, at: Id) {
    && t in s.pc && s.pc[t].Routed? && at in s.cells && s.cells[at].via.None?
    && (DirFree(s, s.pc[t].dver) ==> at == Route(s, s.pc[t].op.Target()))
    && s' == WithPc(s, t, Entry(s.pc[t].op, s.pc[t].dver, at))
  }

  ghost predicate TakeVersionStep(s: State, s': State, t: Thread) {
    && t in s.pc && s.pc[t].Entry? && !s.pc[t].op.Put? && Free(s, s.pc[t].at)
    && var p := s.pc[t];
    s' == WithPc(s, t, Versioned(p.op, p.dver, p.at, s.cells[p.at].ver))
  }

  ghost predicate ValidateStep(s: State, s': State, t: Thread) {
    && t in s.pc && s.pc[t].Versioned?
    && var p := s.pc[t];
    s' == WithPc(s, t, if DirFree(s, p.dver) then Pass(p.op, p.at, p.ver, NeedMask) else Ask(p.op))
  }

  ghost predicate LockBucketStep(s: State, s': State, t: Thread) {
    && t in s.pc && s.pc[t].Entry? && s.pc[t].op.Put? && Free(s, s.pc[t].at)
    && var p := s.pc[t];
    s' == WithPc(WithLock(s, p.at, t), t, Guarded(p.op, p.dver, p.at))
  }

  ghost predicate ValidateLockedStep(s: State, s': State, t: Thread) {
    && t in s.pc && s.pc[t].Guarded?
    && var p := s.pc[t];
    s' == WithPc(s, t, if DirFree(s, p.dver) then Insert(p.op, p.at, NeedMask) else Release(p.at, Again(p.op)))
  }

  predicate Searching(p: Pc) {
    p.Pass? || p.Insert?
  }

  /**
    Bitmap and tags are read one after the other.  While the bucket is free and unchanged, or locked by
    the reader itself, that is as good as one read; otherwise any slots that were in use may come out.
   */
  ghost predicate ReadMaskStep(s: State, s': State, t: Thread, mask: set<nat>) {
    && t in s.pc && Searching(s.pc[t]) && s.pc[t].stage.NeedMask?
    && var p := s.pc[t];
    && p.at in s.cells && mask <= s.cells[p.at].ever
    && (p.Insert? || Unchanged(s, p.at, p.ver) ==> mask == Matches(s, p.at, p.op.Target()))
    && s' == WithPc(s, t, p.(stage := Scan(mask)))
  }

  /** The operation has its answer: a pass is over, an upsert still has to release its bucket. */
  function Finished(p: Pc): Pc
    requires Searching(p)
  {
    if p.Insert? then Release(p.at, Done) else Idle
  }

  /** Load one slot of the mask, or reload the one a failed swap left; compare tags, key and version. */
  ghost predicate LoadSlotStep(s: State, s': State, t: Thread, i: nat, reply: Reply) {
    && t in s.pc && Searching(s.pc[t]) && s.pc[t].stage.Scan? && i in s.pc[t].stage.mask
    && var p := s.pc[t];
    && var e := Kv(s, p.at, i);
    if IsFor(e, p.op.Target()) then
      if p.op.Read? then
        reply == Reply(p.op, Old(e.rec)) && s' == WithPc(s, t, Finished(p))
      else if e.rec.version >= p.op.rec.version then
        reply == Reply(p.op, Expired) && s' == WithPc(s, t, Finished(p))
      else
        reply == Silent && s' == WithPc(s, t, p.(stage := Loaded(p.stage.mask, i, e)))
    else
      reply == Silent && s' == WithPc(s, t, p.(stage := Scan(p.stage.mask - {i})))
  }

  ghost predicate SwapStep(s: State, s': State, t: Thread, reply: Reply) {
    && t in s.pc && Searching(s.pc[t]) && s.pc[t].stage.Loaded? && !s.pc[t].op.Read?
    && var p := s.pc[t];
    && p.at in s.cells && p.stage.at < |s.cells[p.at].b.kvs| && p.stage.seen.Ptr?
    && if Kv(s, p.at, p.stage.at) == p.stage.seen then
         && reply == Reply(p.op, Old(p.stage.seen.rec))
         && s' == WithPc(WithKv(s, p.at, p.stage.at, EntryFor(p.op.rec)), t,
            Finished(p)).(m := s.m[p.op.rec.key := p.op.rec])
       else
         reply == Silent && s' == WithPc(s, t, p.(stage := Scan(p.stage.mask)))
  }

  /** The mask is exhausted: the key does not exist if the bucket is unchanged, otherwise the pass is repeated. */
  ghost predicate EndPassStep(s: State, s': State, t: Thread, reply: Reply) {
    && t in s.pc && s.pc[t].Pass? && s.pc[t].stage == Scan({})
    && var p := s.pc[t];
    if Unchanged(s, p.at, p.ver) then reply == Reply(p.op, NotFound) && s' == WithPc(s, t, Idle)
    else reply == Silent && s' == WithPc(s, t, Ask(p.op))
  }

  /** The lowest slot not in use; a full bucket is released to be split. */
  ghost predicate ChooseSlotStep(s: State, s': State, t: Thread) {
    && t in s.pc && s.pc[t].Insert? && s.pc[t].stage == Scan({}) && s.pc[t].at in s.cells
    && var p := s.pc[t];
    && var b := s.cells[p.at].b;
    && var n := Least(b.used, false, 0);
    s' == WithPc(s, t, if n < NSLOT then p.(stage := Chosen(n)) else Release(p.at, Crowded(p.op, b.depth)))
  }

  /** The pointer first: from here on a search that holds the slot from earlier finds the record. */
  ghost predicate StorePointerStep(s: State, s': State, t: Thread, reply: Reply) {
    && t in s.pc && s.pc[t].Insert? && s.pc[t].stage.Chosen? && s.pc[t].op.Put? && s.pc[t].at in s.cells
    && var p := s.pc[t];
    && p.stage.slot < |s.cells[p.at].b.kvs| && reply == Reply(p.op, NotFound)
    && s' == WithPc(WithKv(s, p.at, p.stage.slot, EntryFor(p.op.rec)), t, p.(stage := Stored(p.stage.slot))).(
               m := s.m[p.op.rec.key := p.op.rec], place := s.place[p.op.rec.key := Slot(p.at, p.stage.slot)])
  }

  ghost predicate StoreTagStep(s: State, s': State, t: Thread) {
    && t in s.pc && s.pc[t].Insert? && s.pc[t].stage.Stored? && s.pc[t].at in s.cells
    && var p := s.pc[t];
    && var c := s.cells[p.at];
    && p.stage.slot < |c.b.tags|
    && s' == WithPc(WithCell(s, p.at, c.(b := c.b.(tags := c.b.tags[p.stage.slot := BucketTag(p.op.Target().code)]))),
                    t, p.(stage := Tagged(p.stage.slot)))
  }

  ghost predicate StoreBitStep(s: State, s': State, t: Thread) {
    && t in s.pc && s.pc[t].Insert? && s.pc[t].stage.Tagged? && s.pc[t].at in s.cells
    && var p := s.pc[t];
    && var c := s.cells[p.at];
    && p.stage.slot < |c.b.used|
    && s' == WithPc(WithCell(s, p.at, c.(b := c.b.(used := c.b.used[p.stage.slot := true]),
       ever := c.ever + {p.stage.slot})),
                    t, Release(p.at, Done))
  }

  ghost predicate UnlockStep(s: State, s': State, t: Thread) {
    && t in s.pc && s.pc[t].Release? && s.pc[t].at in s.cells
    && var p := s.pc[t];
    s' == WithPc(Unlocked(s, p.at), t,
                 match p.next
                 case Done => Idle
                 case Again(op) => Ask(op)
                 case Crowded(op, local) => Grow(op, p.at, local))
  }

  /** An upsert of a key of another number has found its bucket of the segment full: these buckets are split with it. */
  ghost predicate ElsewhereStep(s: State, s': State, t: Thread, op: Op) {
    && t in s.pc && s.pc[t] == Idle && op.Put? && !Here(s, op) && Route(s, op.Target()) in s.cells
    && var at := Route(s, op.Target());
    s' == WithPc(s, t, Grow(op, at, s.cells[at].span))
  }

  /**
    The segment is read from the directory again.  It may have been split in the meantime, and then the
    entry may lead to a deeper one; only a segment of the old depth is split.
   */
  ghost predicate LockSegmentStep(s: State, s': State, t: Thread, at: Id) {
    && t in s.pc && s.pc[t].Grow? && Free(s, at) && s.cells[at].via.None?
    && var p := s.pc[t];
    && (at == p.at || s.cells[at].b.depth > p.local)
    && s' == WithPc(WithLock(s, at, t), t,
                    if s.cells[at].b.depth == p.local then Grown(p.op, at, p.local)
                    else Release(at, if Here(s, p.op) then Again(p.op) else Done))
  }

  /** The right half starts as a copy; updates race the copying, so the copied pointers may be anything. */
  ghost predicate BeginSplitStep(s: State, s': State, t: Thread, to: Id, copy: seq<Entry>) {
    && t in s.pc && s.pc[t].Grown? && s.pc[t].at in s.cells && to !in s.cells && |copy| == NSLOT
    && var p := s.pc[t];
    && var c := s.cells[p.at];
    && var right := Bucket(seq(NSLOT, _ => false), c.b.depth, c.b.index, c.b.tags, copy);
    s' == WithPc(WithCell(s, to, Cell(right, 0, None, {}, 0, 0, Some(p.at))), t,
                 Split(p.op, p.at, to, Moving(set i: nat | i < NSLOT && Used(s, p.at, i), {}, Empty)))
  }

  ghost predicate InMoving(s: State, t: Thread) {
    t in s.pc && s.pc[t].Split? && s.pc[t].phase.Moving? && s.pc[t].at in s.cells && s.pc[t].to in s.cells
  }

  ghost predicate KeepSlotStep(s: State, s': State, t: Thread, i: nat) {
    && InMoving(s, t) && i in s.pc[t].phase.todo && s.pc[t].phase.hand.Empty?
    && var p, e := s.pc[t], Kv(s, s.pc[t].at, i);
    && e.Ptr? && !Bit(e.rec.key.code, s.cells[p.at].b.depth)
    && s' == WithPc(s, t, p.(phase := p.phase.(todo := p.phase.todo - {i})))
  }

  /** left.kvs_[i].exchange(null): it takes the latest pointer; the load before it only serves to read the key. */
  ghost predicate TakeSlotStep(s: State, s': State, t: Thread, i: nat) {
    && InMoving(s, t) && i in s.pc[t].phase.todo && s.pc[t].phase.hand.Empty?
    && var p, e := s.pc[t], Kv(s, s.pc[t].at, i);
    && e.Ptr? && Bit(e.rec.key.code, s.cells[p.at].b.depth) && i < |s.cells[p.at].b.kvs|
    && s' == WithPc(WithKv(s, p.at, i, Null), t,
                    p.(phase := Moving(p.phase.todo - {i}, p.phase.moved + {i}, Holding(i, e)))).(
               place := s.place[e.rec.key := InHand(t)])
  }

  ghost predicate MoveSlotStep(s: State, s': State, t: Thread) {
    && InMoving(s, t) && s.pc[t].phase.hand.Holding? && s.pc[t].phase.hand.entry.Ptr?
    && var p, h := s.pc[t], s.pc[t].phase.hand;
    && h.slot < |s.cells[p.to].b.kvs|
    && s' == WithPc(WithKv(s, p.to, h.slot, h.entry), t, p.(phase := p.phase.(hand := Empty))).(
               place := s.place[h.entry.rec.key := Slot(p.to, h.slot)])
  }

  /** Set both bitmaps and depths. */
  ghost predicate MarkStep(s: State, s': State, t: Thread) {
    && InMoving(s, t) && s.pc[t].phase.todo == {} && s.pc[t].phase.hand.Empty?
    && var p := s.pc[t];
    && var c, d, moved := s.cells[p.at], s.cells[p.to], p.phase.moved;
    && |c.b.used| == NSLOT
    && var used := seq(NSLOT, i requires 0 <= i < NSLOT => c.b.used[i] && i !in moved);
    && var c' := c.(b := c.b.(used := used, depth := c.b.depth + 1));
    && var d' := d.(b := d.b.(used := seq(NSLOT, i => i in moved), depth := d.b.depth + 1), ever := moved);
    s' == WithPc(WithCell(WithCell(s, p.at, c'), p.to, d'), t, p.(phase := Marked))
  }

  ghost predicate LockDirStep(s: State, s': State, t: Thread) {
    && t in s.pc && s.pc[t].Split? && s.pc[t].phase.Marked? && s.dlock.None?
    && s' == WithPc(s, t, s.pc[t].(phase := InDir)).(dlock := Some(t))
  }

  /** The directory doubles when the segment has a single entry. */
  ghost predicate DoubleStep(s: State, s': State, t: Thread) {
    && t in s.pc && s.pc[t].Split? && s.pc[t].phase.InDir? && s.pc[t].at in s.cells
    && s.cells[s.pc[t].at].span == s.depth
    && s' == s.(dir := s.dir + s.dir, depth := s.depth + 1)
  }

  /** Redirect every entry that agrees with the right half on one bit more. */
  ghost predicate PublishStep(s: State, s': State, t: Thread) {
    && t in s.pc && s.pc[t].Split? && s.pc[t].phase.InDir? && s.pc[t].at in s.cells && s.pc[t].to in s.cells
    && var p := s.pc[t];
    && var c, d := s.cells[p.at], s.cells[p.to];
    && var local := c.span;
    && local < s.depth
    && var offset := Low(p.op.Target().code, local) + Pow2(local);
    && var dir := seq(|s.dir|, j requires 0 <= j < |s.dir| => if Low(j, local + 1) == offset then p.to else s.dir[j]);
    s' == WithPc(WithCell(WithCell(s, p.at, c.(span := local + 1)), p.to,
      d.(low := offset, span := local + 1, via := None)), t,
                 p.(phase := Published)).(dir := dir)
  }

  ghost predicate UnlockDirStep(s: State, s': State, t: Thread) {
    && t in s.pc && s.pc[t].Split? && s.pc[t].phase.Published?
    && s' == WithPc(s, t, s.pc[t].(phase := Unlisted)).(dlock := None, dver := s.dver + 1)
  }

  /** The upsert that split the segment tries again; one of another number does so elsewhere. */
  ghost predicate UnlockSegmentStep(s: State, s': State, t: Thread) {
    && t in s.pc && s.pc[t].Split? && s.pc[t].phase.Unlisted? && s.pc[t].at in s.cells
    && s' == WithPc(Unlocked(s, s.pc[t].at), t, if Here(s, s.pc[t].op) then Ask(s.pc[t].op) else Idle)
  }

  ghost predicate SplitStep(s: State, s': State, a: Step) {
    match a
    case BeginSplit(t, to, copy) => BeginSplitStep(s, s', t, to, copy)
    case KeepSlot(t, i) => KeepSlotStep(s, s', t, i)
    case TakeSlot(t, i) => TakeSlotStep(s, s', t, i)
    case MoveSlot(t) => MoveSlotStep(s, s', t)
    case Mark(t) => MarkStep(s, s', t)
    case LockDir(t) => LockDirStep(s, s', t)
    case Double(t) => DoubleStep(s, s', t)
    case Publish(t) => PublishStep(s, s', t)
    case UnlockDir(t) => UnlockDirStep(s, s', t)
    case UnlockSegment(t) => UnlockSegmentStep(s, s', t)
    case _ => false
  }

  ghost predicate UpsertStep(s: State, s': State, a: Step, reply: Reply) {
    match a
    case LockBucket(t) => LockBucketStep(s, s', t) && reply == Silent
    case ValidateLocked(t) => ValidateLockedStep(s, s', t) && reply == Silent
    case ChooseSlot(t) => ChooseSlotStep(s, s', t) && reply == Silent
    case StorePointer(t) => StorePointerStep(s, s', t, reply)
    case StoreTag(t) => StoreTagStep(s, s', t) && reply == Silent
    case StoreBit(t) => StoreBitStep(s, s', t) && reply == Silent
    case Unlock(t) => UnlockStep(s, s', t) && reply == Silent
    case Elsewhere(t, op) => ElsewhereStep(s, s', t, op) && reply == Silent
    case LockSegment(t, at) => LockSegmentStep(s, s', t, at) && reply == Silent
    case _ => false
  }

  ghost predicate SearchStep(s: State, s': State, a: Step, reply: Reply) {
    match a
    case Invoke(t, op) => InvokeStep(s, s', t, op) && reply == Silent
    case ReadVersion(t) => ReadVersionStep(s, s', t) && reply == Silent
    case ReadEntry(t, at) => ReadEntryStep(s, s', t, at) && reply == Silent
    case TakeVersion(t) => TakeVersionStep(s, s', t) && reply == Silent
    case Validate(t) => ValidateStep(s, s', t) && reply == Silent
    case ReadMask(t, mask) => ReadMaskStep(s, s', t, mask) && reply == Silent
    case LoadSlot(t, i) => LoadSlotStep(s, s', t, i, reply)
    case Swap(t) => SwapStep(s, s', t, reply)
    case EndPass(t) => EndPassStep(s, s', t, reply)
    case _ => false
  }

  ghost predicate NextStep(s: State, s': State, a: Step, reply: Reply) {
    SearchStep(s, s', a, reply) || UpsertStep(s, s', a, reply) || (SplitStep(s, s', a) && reply == Silent)
  }
}
