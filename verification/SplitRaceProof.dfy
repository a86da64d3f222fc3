/**
  Every run of module SplitRace is linearizable: each reply is the answer of an atomic map operation at
  that step, and no other step, splits and doublings included, changes what any key finds.
 */
module SplitRaceProof {
  import opened Basics
  import opened HashCode
  import opened HashBucket
  import opened SplitRace

  // The invariant

  /** The pc that holds a bucket's lock. */
  predicate Holds(p: Pc, id: Id) {
    (p.Guarded? || p.Insert? || p.Release? || p.Grown? || p.Split?) && p.at == id
  }

  /** The split of a segment that is not yet published. */
  predicate Splits(p: Pc, id: Id) {
    p.Split? && p.at == id && (p.phase.Moving? || p.phase.Marked? || p.phase.InDir?)
  }

  /** Thread t is splitting segment id. */
  ghost predicate SplitBy(s: State, id: Id, t: Thread) {
    LockedBy(s, id, t) && t in s.pc && Splits(s.pc[t], id)
  }

  /** The slot holds the one valid pointer of its key. */
  predicate HomeAt(s: State, id: Id, i: nat) {
    var e := Kv(s, id, i);
    e.Ptr? && e.rec.key in s.place && s.place[e.rec.key] == Slot(id, i)
  }

  /** Where the directory leads a bucket's keys: to the left half as long as the right one is not published. */
  function Reach(s: State, id: Id): Id {
    if id in s.cells && s.cells[id].via.Some? then s.cells[id].via.value else id
  }

  /** The slot is visible to a search, or its owner is about to make it so. */
  ghost predicate Visible(s: State, id: Id, i: nat, k: Key) {
    || (Used(s, id, i) && Tag(s, id, i) == BucketTag(k.code))
    || (id in s.cells && s.cells[id].lock.Some? && Filling(s, id, i, s.cells[id].lock.value, k))
    || (id in s.cells && s.cells[id].via.Some? && Arrived(s, id, i, s.cells[id].via.value)
       && Tag(s, id, i) == BucketTag(k.code))
  }

  /** Thread t has stored the pointer of a new record and not yet its bit. */
  ghost predicate Filling(s: State, id: Id, i: nat, t: Thread, k: Key) {
    && t in s.pc && s.pc[t].Insert? && s.pc[t].at == id && s.pc[t].op.Target() == k
    && (s.pc[t].stage == Stored(i) || (s.pc[t].stage == Tagged(i) && Tag(s, id, i) == BucketTag(k.code)))
  }

  /** The slot was moved to a right half whose bitmap is not yet set. */
  ghost predicate Arrived(s: State, id: Id, i: nat, from: Id) {
    && from in s.cells && s.cells[from].lock.Some?
    && var t := s.cells[from].lock.value;
    && t in s.pc && s.pc[t].Split? && s.pc[t].to == id && s.pc[t].phase.Moving? && i in s.pc[t].phase.moved
    && !(s.pc[t].phase.hand.Holding? && s.pc[t].phase.hand.slot == i)
  }

  /** The slot's pointer was taken by the split in progress. */
  ghost predicate MovedOut(s: State, id: Id, i: nat) {
    && id in s.cells && s.cells[id].lock.Some?
    && var t := s.cells[id].lock.value;
    t in s.pc && s.pc[t].Split? && s.pc[t].at == id && s.pc[t].phase.Moving? && i in s.pc[t].phase.moved
  }

  /** A key that a split has dealt out is on its side. */
  ghost predicate SideOk(s: State, k: Key, id: Id, i: nat) {
    && (id in s.cells && s.cells[id].via.Some? && s.cells[id].via.value in s.cells ==>
          Bit(k.code, s.cells[s.cells[id].via.value].span))
    && (id in s.cells && s.cells[id].lock.Some? && SplitBy(s, id, s.cells[id].lock.value) ==>
          var p := s.pc[s.cells[id].lock.value];
          (p.phase.Moving? && i in p.phase.todo) || !Bit(k.code, s.cells[id].span))
  }

  ghost predicate PlaceOk(s: State, k: Key)
    requires k in s.m && k in s.place
  {
    match s.place[k]
    case Slot(id, i) =>
      && id in s.cells && i < NSLOT && Kv(s, id, i) == EntryFor(s.m[k])
      && Reach(s, id) == Route(s, k) && SideOk(s, k, id, i) && Visible(s, id, i, k)
    case InHand(t) =>
      && t in s.pc && s.pc[t].Split? && s.pc[t].phase.Moving? && s.pc[t].phase.hand.Holding?
      && s.pc[t].phase.hand.entry == EntryFor(s.m[k]) && s.pc[t].at == Route(s, k)
      && s.pc[t].at in s.cells && Bit(k.code, s.cells[s.pc[t].at].span)
  }

  ghost predicate KeyOk(s: State, k: Key) {
    && (k in s.m <==> k in s.place)
    && (k in s.m && k in s.place ==> s.m[k].key == k && BucketIndex(k.code) == s.index && PlaceOk(s, k))
  }

  /**
    A slot that was ever in use holds a valid pointer or null; one in use holds a pointer, unless it was
    just moved out.
   */
  ghost predicate SlotOk(s: State, id: Id, i: nat) {
    id in s.cells && i < NSLOT ==>
      && (i in s.cells[id].ever && Kv(s, id, i).Ptr? ==> HomeAt(s, id, i))
      && (Used(s, id, i) ==> i in s.cells[id].ever && (HomeAt(s, id, i) || MovedOut(s, id, i)))
  }

  ghost predicate CellOk(s: State, id: Id) {
    id in s.cells ==>
      var c := s.cells[id];
      && Sized(c.b) && (forall i <- c.ever :: i < NSLOT)
      && (c.lock.Some? ==> c.lock.value in s.pc && Holds(s.pc[c.lock.value], id))
      && (c.via.None? ==> c.span <= s.depth && c.low < Pow2(c.span))
      && (c.via.None? && !(c.lock.Some? && Ahead(s, c.lock.value)) ==> c.b.depth == c.span)
      && (c.via.Some? ==>
            && c.lock.None? && c.via.value in s.cells && s.cells[c.via.value].via.None?
            && s.cells[c.via.value].lock.Some?
            && var t := s.cells[c.via.value].lock.value;
            t in s.pc && Splits(s.pc[t], c.via.value) && s.pc[t].to == id)
  }

  /** The depth in the bucket is ahead of the directory. */
  ghost predicate Ahead(s: State, t: Thread) {
    t in s.pc && s.pc[t].Split? && (s.pc[t].phase.Marked? || s.pc[t].phase.InDir?)
  }

  /** An entry leads to a segment exactly when it agrees with it on the segment's low bits. */
  ghost predicate DirOk(s: State, id: Id, j: nat) {
    j < |s.dir| && id in s.cells && s.cells[id].via.None? ==>
      (s.dir[j] == id <==> Low(j, s.cells[id].span) == s.cells[id].low)
  }

  ghost predicate EntryOk(s: State, j: nat) {
    j < |s.dir| ==> s.dir[j] in s.cells && s.cells[s.dir[j]].via.None?
  }

  ghost predicate DirInv(s: State) {
    && |s.dir| == Pow2(s.depth)
    && (s.dlock.Some? ==> s.dlock.value in s.pc && InDirectory(s.pc[s.dlock.value]))
    && (forall j {:trigger EntryOk(s, j)} :: EntryOk(s, j))
    && (forall id, j {:trigger DirOk(s, id, j)} :: DirOk(s, id, j))
  }

  predicate InDirectory(p: Pc) {
    p.Split? && (p.phase.InDir? || p.phase.Published?)
  }

  /** The slot is still to be looked at. */
  predicate ToCome(st: Stage, i: nat) {
    st.NeedMask? || ((st.Scan? || st.Loaded?) && i in st.mask)
  }

  /** The bucket is the key's, and a search at this stage will find the key if it exists. */
  ghost predicate Complete(s: State, at: Id, k: Key, st: Stage) {
    && Route(s, k) == at
    && (k in s.place ==> s.place[k].Slot? && s.place[k].id == at && ToCome(st, s.place[k].i))
  }

  ghost predicate SearchOk(s: State, p: Pc)
    requires Searching(p)
  {
    && p.at in s.cells && s.cells[p.at].via.None? && BucketIndex(p.op.Target().code) == s.index
    && (p.stage.Scan? || p.stage.Loaded? ==> p.stage.mask <= s.cells[p.at].ever)
    && (p.stage.Loaded? ==>
          && !p.op.Read? && p.stage.at in p.stage.mask && IsFor(p.stage.seen, p.op.Target())
          && p.stage.seen == EntryFor(p.stage.seen.rec) && p.stage.seen.rec.version < p.op.rec.version)
  }

  /** What was read of the directory is right as long as the directory is free and unchanged. */
  ghost predicate RouteOk(s: State, dver: nat, at: Id, k: Key) {
    at in s.cells && s.cells[at].via.None? && dver <= s.dver && (DirFree(s, dver) ==> Route(s, k) == at)
  }

  ghost predicate InsertOk(s: State, p: Pc)
    requires p.Insert?
  {
    var k := p.op.Target();
    && SearchOk(s, p) && p.op.Put? && Route(s, k) == p.at
    && (p.stage.Scan? || p.stage.Loaded? ==> forall i <- p.stage.mask :: Used(s, p.at, i))
    && match p.stage
       case Chosen(i) => k !in s.place && i < NSLOT && !Used(s, p.at, i)
       case Stored(i) => i < NSLOT && k in s.place && s.place[k] == Slot(p.at, i)
       case Tagged(i) => i < NSLOT && k in s.place && s.place[k] == Slot(p.at, i)
       case _ => Complete(s, p.at, k, p.stage)
  }

  ghost predicate MovingOk(s: State, t: Thread, p: Pc)
    requires p.Split? && p.phase.Moving?
  {
    && p.at in s.cells && p.to in s.cells && Sized(s.cells[p.to].b)
    && s.cells[p.to].ever == {} && true !in s.cells[p.to].b.used && s.cells[p.to].b.tags == s.cells[p.at].b.tags
    && s.cells[p.to].b.depth == s.cells[p.at].span
    && (forall i <- p.phase.todo :: i < NSLOT && i !in p.phase.moved && Used(s, p.at, i) && HomeAt(s, p.at, i))
    && (forall i <- p.phase.moved ::
       i < NSLOT && Kv(s, p.at, i) == Null && (p.phase.hand == Empty || p.phase.hand.slot != i ==> HomeAt(s, p.to, i)))
    && (p.phase.hand.Holding? ==>
          && p.phase.hand.slot in p.phase.moved && p.phase.hand.entry.Ptr?
          && p.phase.hand.entry.rec.key in s.place && s.place[p.phase.hand.entry.rec.key] == InHand(t)
          && Tag(s, p.to, p.phase.hand.slot) == BucketTag(p.phase.hand.entry.rec.key.code))
  }

  ghost predicate SplitOk(s: State, t: Thread, p: Pc)
    requires p.Split?
  {
    && p.at in s.cells && s.cells[p.at].via.None? && p.to in s.cells && p.at != p.to
    && s.cells[p.to].via == (if Splits(p, p.at) then Some(p.at) else None)
    && (p.phase.Moving? ==> MovingOk(s, t, p))
    && (p.phase.Marked? || p.phase.InDir? ==> s.cells[p.at].b.depth == s.cells[p.to].b.depth == s.cells[p.at].span + 1)
    && (InDirectory(p) <==> s.dlock == Some(t))
  }

  /** Releasing a bucket, or on the way to a split. */
  predicate Late(p: Pc) {
    p.Release? || p.Grow? || p.Grown? || p.Split?
  }

  ghost predicate PcOk(s: State, t: Thread) {
    t in s.pc ==>
      && (forall id {:trigger Holds(s.pc[t], id)} :: Holds(s.pc[t], id) ==> LockedBy(s, id, t))
      && if Late(s.pc[t]) then LateOk(s, t, s.pc[t]) else EarlyOk(s, s.pc[t])
  }

  ghost predicate EarlyOk(s: State, p: Pc)
    requires !Late(p)
  {
    match p
    case Idle => true
    case Ask(op) => Here(s, op)
    case Routed(op, dver) => Here(s, op) && dver <= s.dver
    case Entry(op, dver, at) => Here(s, op) && RouteOk(s, dver, at, op.Target())
    case Versioned(op, dver, at, ver) =>
      Here(s, op) && !op.Put? && RouteOk(s, dver, at, op.Target()) && ver <= s.cells[at].ver
    case Pass(op, at, ver, stage) =>
      && SearchOk(s, p) && !op.Put? && (stage.NeedMask? || stage.Scan? || stage.Loaded?) && ver <= s.cells[at].ver
      && (Unchanged(s, at, ver) ==> Complete(s, at, op.Target(), stage))
    case Guarded(op, dver, at) => op.Put? && Here(s, op) && RouteOk(s, dver, at, op.Target())
    case Insert(op, at, stage) => InsertOk(s, p)
  }

  ghost predicate LateOk(s: State, t: Thread, p: Pc)
    requires Late(p)
  {
    && p.at in s.cells && s.cells[p.at].via.None?
    && match p
       case Release(at, next) => NextOk(s, at, next)
       case Grow(op, at, local) => op.Put? && Named(s, at, op, local)
       case Grown(op, at, local) => op.Put? && Named(s, at, op, s.cells[at].span)
       case Split(op, at, to, phase) =>
         op.Put? && SplitOk(s, t, p) && (Splits(p, at) ==> Named(s, at, op, s.cells[at].span))
  }

  /** The segment was the key's when it had this depth. */
  ghost predicate Named(s: State, at: Id, op: Op, local: nat)
    requires at in s.cells
  {
    local <= s.cells[at].span && (local == s.cells[at].span ==> Low(op.Target().code, local) == s.cells[at].low)
  }

  ghost predicate NextOk(s: State, at: Id, next: Next)
    requires at in s.cells
  {
    && (!next.Done? ==> next.op.Put? && Here(s, next.op))
    && (next.Crowded? ==> Named(s, at, next.op, next.local))
  }

  ghost predicate Inv(s: State) {
    && DirInv(s)
    && (forall id {:trigger CellOk(s, id)} :: CellOk(s, id))
    && (forall id, i {:trigger SlotOk(s, id, i)} :: SlotOk(s, id, i))
    && (forall k {:trigger KeyOk(s, k)} :: KeyOk(s, k))
    && (forall t {:trigger PcOk(s, t)} :: PcOk(s, t))
  }

  /** The map operation that a reply reports. */
  ghost predicate Effect(m: map<Key, Rec>, m': map<Key, Rec>, reply: Reply) {
    match reply
    case Silent => m' == m
    case Reply(op, a) =>
      var k := op.Target();
      if op.Read? then m' == m && a == (if k in m then Old(m[k]) else NotFound)
      else if k !in m then a == NotFound && m' == (if op.Put? then m[k := op.rec] else m)
      else if m[k].version >= op.rec.version then a == Expired && m' == m
      else a == Old(m[k]) && m' == m[k := op.rec]
  }

  // Where a key is

  /** A bucket that no split holds has its keys' records in its own slots. */
  lemma RoutedHome(s: State, k: Key, at: Id)
    requires Inv(s) && k in s.place && Route(s, k) == at && at in s.cells
    requires s.cells[at].lock.None? || (s.cells[at].lock.value in s.pc && !s.pc[s.cells[at].lock.value].Split?)
    ensures k in s.m && s.place[k].Slot? && s.place[k].id == at
  {
    assert KeyOk(s, k);
    match s.place[k]
    case Slot(id, i) => assert CellOk(s, id);
    case InHand(t) => assert PcOk(s, t) && Holds(s.pc[t], at);
  }

  /** A pointer found in a slot that was ever in use is its key's record. */
  lemma FoundIsCurrent(s: State, id: Id, i: nat)
    requires Inv(s) && id in s.cells && i in s.cells[id].ever && Kv(s, id, i).Ptr?
    ensures var r := Kv(s, id, i).rec;
            r.key in s.m && s.m[r.key] == r && r.key in s.place && s.place[r.key] == Slot(id, i)
  {
    assert CellOk(s, id) && SlotOk(s, id, i);
    assert KeyOk(s, Kv(s, id, i).rec.key);
  }

  // Steps that only move their thread

  /** The thread neither splits nor is between the stores of an insertion. */
  predicate Plain(p: Pc) {
    !p.Split? && !(p.Insert? && (p.stage.Stored? || p.stage.Tagged?))
  }

  lemma FrameKey(s: State, t: Thread, p: Pc, k: Key)
    requires Inv(s) && t in s.pc && Plain(s.pc[t]) && Plain(p)
    ensures KeyOk(WithPc(s, t, p), k)
  {
    assert KeyOk(s, k);
    if k in s.place && s.place[k].Slot? { assert CellOk(s, s.place[k].id); }
  }

  lemma FrameCell(s: State, t: Thread, p: Pc, id: Id)
    requires Inv(s) && t in s.pc && Plain(s.pc[t]) && Plain(p) && forall x :: Holds(s.pc[t], x) <==> Holds(p, x)
    ensures CellOk(WithPc(s, t, p), id)
  {
    assert CellOk(s, id);
  }

  lemma FramePc(s: State, t: Thread, p: Pc, u: Thread)
    requires Inv(s) && t in s.pc && Plain(s.pc[t]) && Plain(p) && u != t
    ensures PcOk(WithPc(s, t, p), u)
  {
    assert PcOk(s, u);
  }

  lemma PcOnly(s: State, t: Thread, p: Pc)
    requires Inv(s) && t in s.pc && Plain(s.pc[t]) && Plain(p) && forall x :: Holds(s.pc[t], x) <==> Holds(p, x)
    requires PcOk(WithPc(s, t, p), t)
    ensures Inv(WithPc(s, t, p))
  {
    var s' := WithPc(s, t, p);
    forall j ensures EntryOk(s', j) { assert EntryOk(s, j); }
    forall id, j ensures DirOk(s', id, j) { assert DirOk(s, id, j); }
    forall id ensures CellOk(s', id) { FrameCell(s, t, p, id); }
    forall id, i ensures SlotOk(s', id, i) { assert SlotOk(s, id, i); }
    forall k ensures KeyOk(s', k) { FrameKey(s, t, p, k); }
    forall u ensures PcOk(s', u) { if u != t { FramePc(s, t, p, u); } }
  }

  lemma InvokeInv(s: State, s': State, t: Thread, op: Op)
    requires Inv(s) && InvokeStep(s, s', t, op)
    ensures Inv(s')
  {
    PcOnly(s, t, Ask(op));
  }

  lemma ReadVersionInv(s: State, s': State, t: Thread)
    requires Inv(s) && ReadVersionStep(s, s', t)
    ensures Inv(s')
  {
    assert PcOk(s, t);
    PcOnly(s, t, s'.pc[t]);
  }

  lemma ReadEntryInv(s: State, s': State, t: Thread, at: Id)
    requires Inv(s) && ReadEntryStep(s, s', t, at)
    ensures Inv(s')
  {
    assert PcOk(s, t);
    PcOnly(s, t, s'.pc[t]);
  }

  lemma TakeVersionInv(s: State, s': State, t: Thread)
    requires Inv(s) && TakeVersionStep(s, s', t)
    ensures Inv(s')
  {
    assert PcOk(s, t);
    PcOnly(s, t, s'.pc[t]);
  }

  lemma ValidateInv(s: State, s': State, t: Thread)
    requires Inv(s) && ValidateStep(s, s', t)
    ensures Inv(s')
  {
    assert PcOk(s, t);
    var p := s.pc[t];
    var k := p.op.Target();
    if DirFree(s, p.dver) && Free(s, p.at) && k in s.place { RoutedHome(s, k, p.at); }
    PcOnly(s, t, s'.pc[t]);
  }

  lemma ValidateLockedInv(s: State, s': State, t: Thread)
    requires Inv(s) && ValidateLockedStep(s, s', t)
    ensures Inv(s')
  {
    assert PcOk(s, t);
    var p := s.pc[t];
    var k := p.op.Target();
    assert Holds(p, p.at);
    if DirFree(s, p.dver) && k in s.place { RoutedHome(s, k, p.at); }
    assert forall x :: Holds(s.pc[t], x) <==> Holds(s'.pc[t], x);
    assert forall x {:trigger Holds(s'.pc[t], x)} :: Holds(s'.pc[t], x) ==> LockedBy(s', x, t);
    PcOnly(s, t, s'.pc[t]);
  }

  /** A key in a bucket that is free, or locked by a thread that is not filling a slot, is in the mask. */
  lemma InMask(s: State, at: Id, k: Key)
    requires Inv(s) && k in s.place && s.place[k].Slot? && s.place[k].id == at && at in s.cells && s.cells[at].via.None?
    requires s.cells[at].lock.None? || (s.cells[at].lock.value in s.pc && Plain(s.pc[s.cells[at].lock.value]))
    ensures s.place[k].i in Matches(s, at, k)
  {
    assert KeyOk(s, k);
  }

  lemma ReadMaskInv(s: State, s': State, t: Thread, mask: set<nat>)
    requires Inv(s) && ReadMaskStep(s, s', t, mask)
    ensures Inv(s')
  {
    assert PcOk(s, t);
    var p := s.pc[t];
    var k := p.op.Target();
    assert p.Insert? ==> Holds(p, p.at);
    if k in s.place && (p.Insert? || Unchanged(s, p.at, p.ver)) { InMask(s, p.at, k); }
    forall x | Holds(s'.pc[t], x) ensures LockedBy(s, x, t) { assert Holds(p, x); }
    PcOnly(s, t, s'.pc[t]);
  }

  lemma LoadSlotInv(s: State, s': State, t: Thread, i: nat, reply: Reply)
    requires Inv(s) && LoadSlotStep(s, s', t, i, reply)
    ensures Inv(s') && Effect(s.m, s'.m, reply)
  {
    assert PcOk(s, t);
    var p := s.pc[t];
    var k := p.op.Target();
    if IsFor(Kv(s, p.at, i), k) {
      LoadHitInv(s, s', t, i, reply);
    } else {
      MissedIsElsewhere(s, p.at, i, k);
      forall x | Holds(s'.pc[t], x) ensures LockedBy(s, x, t) { assert Holds(p, x); }
      PcOnly(s, t, s'.pc[t]);
    }
  }

  lemma LoadHitInv(s: State, s': State, t: Thread, i: nat, reply: Reply)
    requires Inv(s) && LoadSlotStep(s, s', t, i, reply) && IsFor(Kv(s, s.pc[t].at, i), s.pc[t].op.Target())
    ensures Inv(s') && Effect(s.m, s'.m, reply)
  {
    assert PcOk(s, t);
    var p := s.pc[t];
    FoundIsCurrent(s, p.at, i);
    assert KeyOk(s, p.op.Target());
    forall x | Holds(s'.pc[t], x) ensures LockedBy(s, x, t) { assert Holds(p, x); }
    PcOnly(s, t, s'.pc[t]);
  }

  /** A slot that does not hold the key's record is not its place. */
  lemma MissedIsElsewhere(s: State, id: Id, i: nat, k: Key)
    requires Inv(s) && !IsFor(Kv(s, id, i), k)
    ensures k in s.place ==> s.place[k] != Slot(id, i)
  {
    assert KeyOk(s, k);
  }

  lemma EndPassInv(s: State, s': State, t: Thread, reply: Reply)
    requires Inv(s) && EndPassStep(s, s', t, reply)
    ensures Inv(s') && Effect(s.m, s'.m, reply)
  {
    assert PcOk(s, t) && KeyOk(s, s.pc[t].op.Target());
    PcOnly(s, t, s'.pc[t]);
  }

  lemma ChooseSlotInv(s: State, s': State, t: Thread)
    requires Inv(s) && ChooseSlotStep(s, s', t)
    ensures Inv(s')
  {
    var p := s.pc[t];
    assert PcOk(s, t) && KeyOk(s, p.op.Target()) && CellOk(s, p.at);
    assert Holds(p, p.at);
    forall x | Holds(s'.pc[t], x) ensures LockedBy(s, x, t) { assert Holds(p, x); }
    RouteNames(s, p.op.Target());
    PcOnly(s, t, s'.pc[t]);
  }

  /** The segment that the directory sends a key to has the key's low bits. */
  lemma RouteNames(s: State, k: Key)
    requires Inv(s)
    ensures var at := Route(s, k);
            at in s.cells && s.cells[at].via.None? && Low(k.code, s.cells[at].span) == s.cells[at].low
  {
    var j, at := Low(k.code, s.depth), Route(s, k);
    assert EntryOk(s, j) && DirOk(s, at, j) && CellOk(s, at);
    LowLow(k.code, s.cells[at].span, s.depth);
  }

  lemma ElsewhereInv(s: State, s': State, t: Thread, op: Op)
    requires Inv(s) && ElsewhereStep(s, s', t, op)
    ensures Inv(s')
  {
    RouteNames(s, op.Target());
    PcOnly(s, t, s'.pc[t]);
  }

  // Locks

  ghost predicate Locks(s: State, s': State, t: Thread, id: Id, p: Pc) {
    && t in s.pc && Free(s, id) && s.cells[id].via.None? && (forall x :: !Holds(s.pc[t], x))
    && (forall x :: Holds(p, x) <==> x == id)
    && Plain(s.pc[t]) && Plain(p) && s' == WithPc(WithLock(s, id, t), t, p)
  }

  lemma LocksCell(s: State, s': State, t: Thread, id: Id, p: Pc, x: Id)
    requires Inv(s) && Locks(s, s', t, id, p)
    ensures CellOk(s', x)
  {
    assert CellOk(s, x) && CellOk(s, id);
    assert Holds(p, id);
    if x in s.cells && s.cells[x].lock.Some? { assert !Holds(s.pc[t], x); }
  }

  lemma LocksKey(s: State, s': State, t: Thread, id: Id, p: Pc, k: Key)
    requires Inv(s) && Locks(s, s', t, id, p)
    ensures KeyOk(s', k)
  {
    assert KeyOk(s, k);
    if k in s.place && s.place[k].Slot? { assert CellOk(s, s.place[k].id); }
  }

  lemma LocksSlot(s: State, s': State, t: Thread, id: Id, p: Pc, x: Id, i: nat)
    requires Inv(s) && Locks(s, s', t, id, p)
    ensures SlotOk(s', x, i)
  {
    assert SlotOk(s, x, i);
  }

  lemma LocksPc(s: State, s': State, t: Thread, id: Id, p: Pc, u: Thread)
    requires Inv(s) && Locks(s, s', t, id, p) && u != t
    ensures PcOk(s', u)
  {
    assert PcOk(s, u);
  }

  lemma LocksInv(s: State, s': State, t: Thread, id: Id, p: Pc)
    requires Inv(s) && Locks(s, s', t, id, p) && PcOk(s', t)
    ensures Inv(s')
  {
    forall j ensures EntryOk(s', j) { assert EntryOk(s, j); }
    forall x, j ensures DirOk(s', x, j) { assert DirOk(s, x, j); }
    forall x ensures CellOk(s', x) { LocksCell(s, s', t, id, p, x); }
    forall x, i ensures SlotOk(s', x, i) { LocksSlot(s, s', t, id, p, x, i); }
    forall k ensures KeyOk(s', k) { LocksKey(s, s', t, id, p, k); }
    forall u ensures PcOk(s', u) { if u != t { LocksPc(s, s', t, id, p, u); } }
  }

  lemma LockBucketInv(s: State, s': State, t: Thread)
    requires Inv(s) && LockBucketStep(s, s', t)
    ensures Inv(s')
  {
    assert PcOk(s, t);
    LocksInv(s, s', t, s.pc[t].at, s'.pc[t]);
  }

  lemma LockSegmentInv(s: State, s': State, t: Thread, at: Id)
    requires Inv(s) && LockSegmentStep(s, s', t, at)
    ensures Inv(s')
  {
    assert PcOk(s, t) && CellOk(s, at);
    LocksInv(s, s', t, at, s'.pc[t]);
  }

  /** Releasing a bucket in which nothing is half done. */
  ghost predicate Unlocks(s: State, s': State, t: Thread, id: Id, p: Pc) {
    && t in s.pc && LockedBy(s, id, t) && (forall x :: Holds(s.pc[t], x) <==> x == id) && (forall x :: !Holds(p, x))
    && (s.pc[t].Release? || (s.pc[t].Split? && s.pc[t].phase.Unlisted?)) && Plain(p) && !p.Insert?
    && s' == WithPc(Unlocked(s, id), t, p)
  }

  lemma UnlocksCell(s: State, s': State, t: Thread, id: Id, p: Pc, x: Id)
    requires Inv(s) && Unlocks(s, s', t, id, p)
    ensures CellOk(s', x)
  {
    assert CellOk(s, x) && CellOk(s, id);
    if x in s.cells && s.cells[x].lock == Some(t) { assert Holds(s.pc[t], x); }
    if x in s.cells && s.cells[x].via.Some? { assert CellOk(s, s.cells[x].via.value); }
  }

  lemma UnlocksKey(s: State, s': State, t: Thread, id: Id, p: Pc, k: Key)
    requires Inv(s) && Unlocks(s, s', t, id, p)
    ensures KeyOk(s', k)
  {
    assert KeyOk(s, k);
    if k in s.place && s.place[k].Slot? { assert CellOk(s, s.place[k].id); }
  }

  lemma UnlocksSlot(s: State, s': State, t: Thread, id: Id, p: Pc, x: Id, i: nat)
    requires Inv(s) && Unlocks(s, s', t, id, p)
    ensures SlotOk(s', x, i)
  {
    assert SlotOk(s, x, i);
  }

  lemma UnlocksPc(s: State, s': State, t: Thread, id: Id, p: Pc, u: Thread)
    requires Inv(s) && Unlocks(s, s', t, id, p) && u != t
    ensures PcOk(s', u)
  {
    assert PcOk(s, u);
  }

  lemma UnlocksInv(s: State, s': State, t: Thread, id: Id, p: Pc)
    requires Inv(s) && Unlocks(s, s', t, id, p) && PcOk(s', t)
    ensures Inv(s')
  {
    forall j ensures EntryOk(s', j) { assert EntryOk(s, j); }
    forall x, j ensures DirOk(s', x, j) { assert DirOk(s, x, j); }
    forall x ensures CellOk(s', x) { UnlocksCell(s, s', t, id, p, x); }
    forall x, i ensures SlotOk(s', x, i) { UnlocksSlot(s, s', t, id, p, x, i); }
    forall k ensures KeyOk(s', k) { UnlocksKey(s, s', t, id, p, k); }
    forall u ensures PcOk(s', u) { if u != t { UnlocksPc(s, s', t, id, p, u); } }
  }

  lemma UnlockInv(s: State, s': State, t: Thread)
    requires Inv(s) && UnlockStep(s, s', t)
    ensures Inv(s')
  {
    assert PcOk(s, t);
    assert Holds(s.pc[t], s.pc[t].at);
    UnlocksInv(s, s', t, s.pc[t].at, s'.pc[t]);
  }

  lemma UnlockSegmentInv(s: State, s': State, t: Thread)
    requires Inv(s) && UnlockSegmentStep(s, s', t)
    ensures Inv(s')
  {
    assert PcOk(s, t);
    assert Holds(s.pc[t], s.pc[t].at);
    UnlocksInv(s, s', t, s.pc[t].at, s'.pc[t]);
  }

  // Swapping a pointer

  /** A newer record of the same key takes the slot. */
  ghost predicate Swaps(s: State, s': State, t: Thread, id: Id, i: nat, r: Rec, p: Pc) {
    && t in s.pc && id in s.cells && i in s.cells[id].ever && i < |s.cells[id].b.kvs|
    && Kv(s, id, i).Ptr? && Kv(s, id, i).rec.key == r.key
    && Plain(s.pc[t]) && Plain(p) && (forall x :: Holds(s.pc[t], x) <==> Holds(p, x))
    && s' == WithPc(WithKv(s, id, i, EntryFor(r)), t, p).(m := s.m[r.key := r])
  }

  lemma SwapsHome(s: State, s': State, t: Thread, id: Id, i: nat, r: Rec, p: Pc, x: Id, j: nat)
    requires Inv(s) && Swaps(s, s', t, id, i, r, p)
    ensures HomeAt(s', x, j) <==> HomeAt(s, x, j)
    ensures Used(s', x, j) == Used(s, x, j) && Tag(s', x, j) == Tag(s, x, j)
    ensures Kv(s', x, j) == if (x, j) == (id, i) then EntryFor(r) else Kv(s, x, j)
  {
  }

  lemma SwapsKey(s: State, s': State, t: Thread, id: Id, i: nat, r: Rec, p: Pc, k: Key)
    requires Inv(s) && Swaps(s, s', t, id, i, r, p)
    ensures KeyOk(s', k)
  {
    FoundIsCurrent(s, id, i);
    assert KeyOk(s, k) && KeyOk(s, r.key);
    if k in s.place && s.place[k].Slot? {
      SwapsHome(s, s', t, id, i, r, p, s.place[k].id, s.place[k].i);
      assert CellOk(s, s.place[k].id);
    }
  }

  lemma SwapsCell(s: State, s': State, t: Thread, id: Id, i: nat, r: Rec, p: Pc, x: Id)
    requires Inv(s) && Swaps(s, s', t, id, i, r, p)
    ensures CellOk(s', x)
  {
    assert CellOk(s, x);
  }

  lemma SwapsMoving(s: State, s': State, t: Thread, id: Id, i: nat, r: Rec, p: Pc, u: Thread, q: Pc)
    requires Inv(s) && Swaps(s, s', t, id, i, r, p) && q.Split? && q.phase.Moving? && MovingOk(s, u, q)
    ensures MovingOk(s', u, q)
  {
    forall j | j in q.phase.todo ensures Used(s', q.at, j) && HomeAt(s', q.at, j) {
      SwapsHome(s, s', t, id, i, r, p, q.at, j);
    }
    forall j | j in q.phase.moved
      ensures Kv(s', q.at, j) == Null && (q.phase.hand == Empty || q.phase.hand.slot != j ==> HomeAt(s', q.to, j))
    {
      SwapsHome(s, s', t, id, i, r, p, q.at, j);
      SwapsHome(s, s', t, id, i, r, p, q.to, j);
    }
  }

  lemma SwapsPc(s: State, s': State, t: Thread, id: Id, i: nat, r: Rec, p: Pc, u: Thread)
    requires Inv(s) && Swaps(s, s', t, id, i, r, p) && u != t
    ensures PcOk(s', u)
  {
    assert PcOk(s, u);
    if u in s.pc && s.pc[u].Split? && s.pc[u].phase.Moving? { SwapsMoving(s, s', t, id, i, r, p, u, s.pc[u]); }
  }

  lemma SwapsSlot(s: State, s': State, t: Thread, id: Id, i: nat, r: Rec, p: Pc, x: Id, j: nat)
    requires Inv(s) && Swaps(s, s', t, id, i, r, p)
    ensures SlotOk(s', x, j)
  {
    FoundIsCurrent(s, id, i);
    assert SlotOk(s, x, j);
    SwapsHome(s, s', t, id, i, r, p, x, j);
  }

  lemma SwapsInv(s: State, s': State, t: Thread, id: Id, i: nat, r: Rec, p: Pc)
    requires Inv(s) && Swaps(s, s', t, id, i, r, p) && PcOk(s', t)
    ensures Inv(s')
  {
    forall j ensures EntryOk(s', j) { assert EntryOk(s, j); }
    forall x, j ensures DirOk(s', x, j) { assert DirOk(s, x, j); }
    forall x ensures CellOk(s', x) { SwapsCell(s, s', t, id, i, r, p, x); }
    forall x, j ensures SlotOk(s', x, j) { SwapsSlot(s, s', t, id, i, r, p, x, j); }
    forall k ensures KeyOk(s', k) { SwapsKey(s, s', t, id, i, r, p, k); }
    forall u ensures PcOk(s', u) { if u != t { SwapsPc(s, s', t, id, i, r, p, u); } }
  }

  lemma SwapInv(s: State, s': State, t: Thread, reply: Reply)
    requires Inv(s) && SwapStep(s, s', t, reply)
    ensures Inv(s') && Effect(s.m, s'.m, reply)
  {
    assert PcOk(s, t);
    var p := s.pc[t];
    forall x | Holds(s'.pc[t], x) ensures LockedBy(s, x, t) { assert Holds(p, x); }
    if Kv(s, p.at, p.stage.at) == p.stage.seen {
      FoundIsCurrent(s, p.at, p.stage.at);
      SwapsInv(s, s', t, p.at, p.stage.at, p.op.rec, s'.pc[t]);
    } else {
      PcOnly(s, t, s'.pc[t]);
    }
  }

  // The three stores of an insertion

  ghost predicate Inserting(s: State, t: Thread) {
    t in s.pc && s.pc[t].Insert? && InsertOk(s, s.pc[t]) && LockedBy(s, s.pc[t].at, t)
  }

  /** Nobody else is at work on the key. */
  lemma OnlyInserter(s: State, t: Thread, u: Thread)
    requires Inv(s) && Inserting(s, t) && u in s.pc && u != t
    ensures forall id :: Holds(s.pc[u], id) ==> id != s.pc[t].at
    ensures s.pc[u].Insert? ==> s.pc[u].op.Target() != s.pc[t].op.Target()
    ensures s.pc[u].Pass? && Unchanged(s, s.pc[u].at, s.pc[u].ver) ==>
            s.pc[u].op.Target() != s.pc[t].op.Target() && s.pc[u].at != s.pc[t].at
    ensures s.pc[u].Split? ==> s.pc[u].at != s.pc[t].at && (Splits(s.pc[u], s.pc[u].at) ==> s.pc[u].to != s.pc[t].at)
  {
    assert PcOk(s, u);
    assert s.pc[u].Insert? || s.pc[u].Split? ==> Holds(s.pc[u], s.pc[u].at);
  }

  lemma StorePointerKey(s: State, s': State, t: Thread, reply: Reply, k: Key)
    requires Inv(s) && Inserting(s, t) && StorePointerStep(s, s', t, reply)
    ensures KeyOk(s', k)
  {
    var p := s.pc[t];
    assert KeyOk(s, k) && CellOk(s, p.at);
    if k in s.place && s.place[k].Slot? { assert CellOk(s, s.place[k].id); }
  }

  lemma StorePointerSlot(s: State, s': State, t: Thread, reply: Reply, x: Id, j: nat)
    requires Inv(s) && Inserting(s, t) && StorePointerStep(s, s', t, reply)
    ensures SlotOk(s', x, j) && (HomeAt(s, x, j) ==> HomeAt(s', x, j))
    ensures (x, j) != (s.pc[t].at, s.pc[t].stage.slot) ==> Kv(s', x, j) == Kv(s, x, j)
    ensures Used(s', x, j) == Used(s, x, j) && Tag(s', x, j) == Tag(s, x, j)
  {
    assert SlotOk(s, x, j);
    if HomeAt(s, x, j) {
      assert KeyOk(s, Kv(s, x, j).rec.key);
    }
  }

  lemma StorePointerPc(s: State, s': State, t: Thread, reply: Reply, u: Thread)
    requires Inv(s) && Inserting(s, t) && StorePointerStep(s, s', t, reply) && u != t
    ensures PcOk(s', u)
  {
    assert PcOk(s, u);
    if u in s.pc {
      OnlyInserter(s, t, u);
      if s.pc[u].Split? && s.pc[u].phase.Moving? { StorePointerMoving(s, s', t, reply, u); }
    }
  }

  lemma StorePointerMoving(s: State, s': State, t: Thread, reply: Reply, u: Thread)
    requires Inv(s) && Inserting(s, t) && StorePointerStep(s, s', t, reply) && u != t
    requires u in s.pc && s.pc[u].Split? && s.pc[u].phase.Moving? && MovingOk(s, u, s.pc[u])
    ensures MovingOk(s', u, s.pc[u])
  {
    OnlyInserter(s, t, u);
    var q := s.pc[u];
    forall j | j in q.phase.todo ensures Used(s', q.at, j) && HomeAt(s', q.at, j) {
      StorePointerSlot(s, s', t, reply, q.at, j);
    }
    forall j | j in q.phase.moved
      ensures Kv(s', q.at, j) == Null && (q.phase.hand == Empty || q.phase.hand.slot != j ==> HomeAt(s', q.to, j))
    {
      StorePointerSlot(s, s', t, reply, q.at, j);
      StorePointerSlot(s, s', t, reply, q.to, j);
    }
  }

  lemma StorePointerInv(s: State, s': State, t: Thread, reply: Reply)
    requires Inv(s) && StorePointerStep(s, s', t, reply)
    ensures Inv(s') && Effect(s.m, s'.m, reply)
  {
    var p := s.pc[t];
    assert PcOk(s, t) && Holds(p, p.at) && KeyOk(s, p.op.rec.key);
    forall j ensures EntryOk(s', j) { assert EntryOk(s, j); }
    forall x, j ensures DirOk(s', x, j) { assert DirOk(s, x, j); }
    forall x ensures CellOk(s', x) { assert CellOk(s, x); }
    forall x, j ensures SlotOk(s', x, j) { StorePointerSlot(s, s', t, reply, x, j); }
    forall k ensures KeyOk(s', k) { StorePointerKey(s, s', t, reply, k); }
    forall u ensures PcOk(s', u) { if u != t { StorePointerPc(s, s', t, reply, u); } }
  }

  /** Tag and bit of the slot that is being filled change nothing that a search or a split relies on. */
  ghost predicate Completes(s: State, s': State, t: Thread, c: Cell, p: Pc) {
    && Inserting(s, t) && (s.pc[t].stage.Stored? || s.pc[t].stage.Tagged?)
    && var q := s.pc[t];
    && var c0, i := s.cells[q.at], q.stage.slot;
    && c == c0.(b := c.b, ever := c.ever) && Sized(c.b) && Sized(c0.b) && c.b.kvs == c0.b.kvs && c.b.depth == c0.b.depth
    && (forall j | 0 <= j < NSLOT && j != i :: c.b.used[j] == c0.b.used[j] && c.b.tags[j] == c0.b.tags[j])
    && c0.ever <= c.ever <= c0.ever + {i} && (c.b.used[i] ==> i in c.ever)
    && (forall x :: Holds(q, x) <==> Holds(p, x)) && !p.Split? && s' == WithPc(WithCell(s, q.at, c), t, p)
  }

  lemma CompletesSlot(s: State, s': State, t: Thread, c: Cell, p: Pc, x: Id, j: nat)
    requires Inv(s) && Completes(s, s', t, c, p)
    ensures SlotOk(s', x, j) && (HomeAt(s', x, j) <==> HomeAt(s, x, j)) && Kv(s', x, j) == Kv(s, x, j)
    ensures (x, j) != (s.pc[t].at, s.pc[t].stage.slot) ==>
            Used(s', x, j) == Used(s, x, j) && Tag(s', x, j) == Tag(s, x, j)
  {
    var q := s.pc[t];
    assert SlotOk(s, x, j) && CellOk(s, q.at) && KeyOk(s, q.op.Target());
  }

  lemma CompletesKey(s: State, s': State, t: Thread, c: Cell, p: Pc, k: Key)
    requires Inv(s) && Completes(s, s', t, c, p) && (k == s.pc[t].op.Target() ==>
             Visible(s', s.pc[t].at, s.pc[t].stage.slot, k))
    ensures KeyOk(s', k)
  {
    var q := s.pc[t];
    assert KeyOk(s, k) && KeyOk(s, q.op.Target());
    if k in s.place && s.place[k].Slot? {
      CompletesSlot(s, s', t, c, p, s.place[k].id, s.place[k].i);
      assert CellOk(s, s.place[k].id);
    }
  }

  lemma CompletesPc(s: State, s': State, t: Thread, c: Cell, p: Pc, u: Thread)
    requires Inv(s) && Completes(s, s', t, c, p) && u != t
    ensures PcOk(s', u)
  {
    assert PcOk(s, u);
    if u in s.pc {
      OnlyInserter(s, t, u);
      var q := s.pc[u];
      if q.Insert? {
        assert Holds(q, q.at);
        if q.stage.Chosen? { CompletesSlot(s, s', t, c, p, q.at, q.stage.slot); }
        if q.stage.Scan? || q.stage.Loaded? {
          forall j | j in q.stage.mask ensures Used(s', q.at, j) { CompletesSlot(s, s', t, c, p, q.at, j); }
        }
      }
      if q.Split? && q.phase.Moving? {
        forall j | j in q.phase.todo ensures Used(s', q.at, j) && HomeAt(s', q.at, j) {
          CompletesSlot(s, s', t, c, p, q.at, j);
        }
        forall j | j in q.phase.moved
          ensures Kv(s', q.at, j) == Null && (q.phase.hand == Empty || q.phase.hand.slot != j ==> HomeAt(s', q.to, j))
        {
          CompletesSlot(s, s', t, c, p, q.at, j);
          CompletesSlot(s, s', t, c, p, q.to, j);
        }
      }
    }
  }

  lemma CompletesInv(s: State, s': State, t: Thread, c: Cell, p: Pc)
    requires Inv(s) && Completes(s, s', t, c, p) && PcOk(s', t)
    requires Visible(s', s.pc[t].at, s.pc[t].stage.slot, s.pc[t].op.Target())
    ensures Inv(s')
  {
    forall j ensures EntryOk(s', j) { assert EntryOk(s, j); }
    forall x, j ensures DirOk(s', x, j) { assert DirOk(s, x, j); }
    forall x ensures CellOk(s', x) { assert CellOk(s, x); }
    forall x, j ensures SlotOk(s', x, j) { CompletesSlot(s, s', t, c, p, x, j); }
    forall k ensures KeyOk(s', k) { CompletesKey(s, s', t, c, p, k); }
    forall u ensures PcOk(s', u) { if u != t { CompletesPc(s, s', t, c, p, u); } }
  }

  lemma StoreTagInv(s: State, s': State, t: Thread)
    requires Inv(s) && StoreTagStep(s, s', t)
    ensures Inv(s')
  {
    var p := s.pc[t];
    assert PcOk(s, t) && Holds(p, p.at) && CellOk(s, p.at) && SlotOk(s, p.at, p.stage.slot);
    CompletesInv(s, s', t, s'.cells[p.at], s'.pc[t]);
  }

  lemma StoreBitInv(s: State, s': State, t: Thread)
    requires Inv(s) && StoreBitStep(s, s', t)
    ensures Inv(s')
  {
    var p := s.pc[t];
    assert PcOk(s, t) && Holds(p, p.at) && CellOk(s, p.at) && KeyOk(s, p.op.Target()) && SlotOk(s, p.at, p.stage.slot);
    CompletesInv(s, s', t, s'.cells[p.at], s'.pc[t]);
  }

  // Splitting

  ghost predicate Owning(s: State, t: Thread) {
    && t in s.pc && (s.pc[t].Grown? || s.pc[t].Split?) && LockedBy(s, s.pc[t].at, t) && s.cells[s.pc[t].at].via.None?
    && (s.pc[t].Split? ==> SplitOk(s, t, s.pc[t]))
  }

  lemma Owns(s: State, t: Thread)
    requires Inv(s) && t in s.pc && (s.pc[t].Grown? || s.pc[t].Split?)
    ensures Owning(s, t)
  {
    assert PcOk(s, t) && Holds(s.pc[t], s.pc[t].at);
  }

  /** Other threads are at other buckets, or their passes there will have to be repeated. */
  lemma OnlySplitter(s: State, t: Thread, u: Thread)
    requires Inv(s) && Owning(s, t) && u in s.pc && u != t
    ensures forall id :: Holds(s.pc[u], id) ==> id != s.pc[t].at
    ensures s.pc[u].Pass? && Unchanged(s, s.pc[u].at, s.pc[u].ver) ==> s.pc[u].at != s.pc[t].at
    ensures s.pc[u].Split? ==> s.pc[u].at != s.pc[t].at && s.pc[u].at in s.cells
    ensures s.pc[u].Insert? ==> s.pc[u].at != s.pc[t].at
    ensures s.pc[u].Split? && Splits(s.pc[u], s.pc[u].at) ==> s.pc[u].to != s.pc[t].at
    ensures s.pc[u].Split? && s.pc[t].Split? && Splits(s.pc[u], s.pc[u].at) ==> s.pc[u].to != s.pc[t].to
    ensures s.pc[t].Split? && Splits(s.pc[t], s.pc[t].at) && Searching(s.pc[u]) ==> s.pc[u].at != s.pc[t].to
    ensures s.pc[t].Split? && Splits(s.pc[t], s.pc[t].at) && s.pc[u].Split? ==> s.pc[u].at != s.pc[t].to
  {
    assert PcOk(s, u);
    assert s.pc[u].Insert? || s.pc[u].Split? ==> Holds(s.pc[u], s.pc[u].at);
    if s.pc[u].Split? && s.pc[t].Split? && Splits(s.pc[u], s.pc[u].at) { assert CellOk(s, s.pc[u].to); }
  }

  lemma BeginSplitKey(s: State, s': State, t: Thread, to: Id, copy: seq<Entry>, k: Key)
    requires Inv(s) && Owning(s, t) && BeginSplitStep(s, s', t, to, copy)
    ensures KeyOk(s', k)
  {
    assert KeyOk(s, k) && CellOk(s, s.pc[t].at);
    if k in s.place && s.place[k].Slot? { assert CellOk(s, s.place[k].id); }
  }

  lemma BeginSplitCell(s: State, s': State, t: Thread, to: Id, copy: seq<Entry>, x: Id)
    requires Inv(s) && Owning(s, t) && BeginSplitStep(s, s', t, to, copy)
    ensures CellOk(s', x)
  {
    assert CellOk(s, x) && CellOk(s, s.pc[t].at);
  }

  lemma BeginSplitPc(s: State, s': State, t: Thread, to: Id, copy: seq<Entry>, u: Thread)
    requires Inv(s) && Owning(s, t) && BeginSplitStep(s, s', t, to, copy) && u != t
    ensures PcOk(s', u)
  {
    assert PcOk(s, u);
    if u in s.pc { OnlySplitter(s, t, u); }
  }

  lemma BeginSplitOwn(s: State, s': State, t: Thread, to: Id, copy: seq<Entry>)
    requires Inv(s) && Owning(s, t) && BeginSplitStep(s, s', t, to, copy)
    ensures PcOk(s', t)
  {
    var p := s.pc[t];
    assert PcOk(s, t) && CellOk(s, p.at);
    forall i | i in s'.pc[t].phase.todo ensures HomeAt(s', p.at, i) { assert SlotOk(s, p.at, i); }
    assert s.dlock != Some(t);
  }

  lemma BeginSplitInv(s: State, s': State, t: Thread, to: Id, copy: seq<Entry>)
    requires Inv(s) && BeginSplitStep(s, s', t, to, copy)
    ensures Inv(s')
  {
    Owns(s, t);
    forall j ensures EntryOk(s', j) { assert EntryOk(s, j); }
    forall x, j ensures DirOk(s', x, j) { assert DirOk(s, x, j); }
    forall x ensures CellOk(s', x) { BeginSplitCell(s, s', t, to, copy, x); }
    forall x, j ensures SlotOk(s', x, j) { assert SlotOk(s, x, j); }
    forall k ensures KeyOk(s', k) { BeginSplitKey(s, s', t, to, copy, k); }
    forall u ensures PcOk(s', u) {
      if u != t { BeginSplitPc(s, s', t, to, copy, u); } else { BeginSplitOwn(s, s', t, to, copy); }
    }
  }

  /** Nothing but the splitting thread's own pc changes. */
  lemma PhaseOnly(s: State, s': State, t: Thread, ph: Phase)
    requires Inv(s) && Owning(s, t) && s.pc[t].Split?
             && s'.(dlock := s.dlock, dver := s.dver) == WithPc(s, t, s.pc[t].(phase := ph))
    requires (s'.dlock == s.dlock && s'.dver == s.dver) || (s.dlock.None? && s'.dlock == Some(t) && s'.dver == s.dver)
          || (s.dlock == Some(t) && s'.dlock.None? && s'.dver == s.dver + 1)
    requires s'.dlock.Some? ==> s'.dlock.value in s'.pc && InDirectory(s'.pc[s'.dlock.value])
    requires PcOk(s', t) && (forall k :: KeyOk(s', k)) && (forall x, i :: SlotOk(s', x, i))
             && (forall x :: CellOk(s', x))
    ensures Inv(s')
  {
    forall j ensures EntryOk(s', j) { assert EntryOk(s, j); }
    forall x, j ensures DirOk(s', x, j) { assert DirOk(s, x, j); }
    forall u ensures PcOk(s', u) {
      if u != t { if s'.dlock == s.dlock { PhasePc(s, s', t, ph, u); } else { DirLockPc(s, s', t, ph, u); } }
    }
  }

  lemma DirLockPc(s: State, s': State, t: Thread, ph: Phase, u: Thread)
    requires Inv(s) && Owning(s, t) && s.pc[t].Split?
             && s'.(dlock := s.dlock, dver := s.dver) == WithPc(s, t, s.pc[t].(phase := ph))
    requires (s.dlock.None? && s'.dlock == Some(t) && s'.dver == s.dver)
             || (s.dlock == Some(t) && s'.dlock.None? && s'.dver == s.dver + 1)
    requires u != t
    ensures PcOk(s', u)
  {
    assert PcOk(s, u);
  }

  lemma PhasePc(s: State, s': State, t: Thread, ph: Phase, u: Thread)
    requires Inv(s) && Owning(s, t) && s.pc[t].Split?
             && s'.(dlock := s.dlock, dver := s.dver) == WithPc(s, t, s.pc[t].(phase := ph))
    requires s'.dlock == s.dlock && s'.dver == s.dver && u != t
    ensures PcOk(s', u)
  {
    assert PcOk(s, u);
  }

  lemma KeepSlotInv(s: State, s': State, t: Thread, i: nat)
    requires Inv(s) && KeepSlotStep(s, s', t, i)
    ensures Inv(s')
  {
    Owns(s, t);
    var p := s.pc[t];
    assert PcOk(s, t) && CellOk(s, p.at);
    forall k ensures KeyOk(s', k) { KeepSlotKey(s, s', t, i, k); }
    forall x, j ensures SlotOk(s', x, j) { assert SlotOk(s, x, j); }
    forall x ensures CellOk(s', x) { assert CellOk(s, x); }
    PhaseOnly(s, s', t, s'.pc[t].phase);
  }

  lemma KeepSlotKey(s: State, s': State, t: Thread, i: nat, k: Key)
    requires Inv(s) && Owning(s, t) && KeepSlotStep(s, s', t, i)
    ensures KeyOk(s', k)
  {
    assert KeyOk(s, k) && CellOk(s, s.pc[t].at);
    if k in s.place && s.place[k].Slot? { assert CellOk(s, s.place[k].id); }
  }

  lemma TakeSlotHome(s: State, s': State, t: Thread, i: nat, x: Id, j: nat)
    requires Inv(s) && Owning(s, t) && TakeSlotStep(s, s', t, i)
    ensures (x, j) != (s.pc[t].at, i) ==> Kv(s', x, j) == Kv(s, x, j) && (HomeAt(s', x, j) <==> HomeAt(s, x, j))
    ensures Kv(s', s.pc[t].at, i) == Null && Used(s', x, j) == Used(s, x, j) && Tag(s', x, j) == Tag(s, x, j)
    ensures SlotOk(s', x, j)
  {
    var p := s.pc[t];
    assert SlotOk(s, x, j) && HomeAt(s, p.at, i);
  }

  lemma TakeSlotKey(s: State, s': State, t: Thread, i: nat, k: Key)
    requires Inv(s) && Owning(s, t) && TakeSlotStep(s, s', t, i)
    ensures KeyOk(s', k)
  {
    var p := s.pc[t];
    var e := Kv(s, p.at, i);
    assert KeyOk(s, k) && KeyOk(s, e.rec.key) && CellOk(s, p.at) && HomeAt(s, p.at, i);
    if k in s.place && s.place[k].Slot? {
      TakeSlotHome(s, s', t, i, s.place[k].id, s.place[k].i);
      assert CellOk(s, s.place[k].id);
    }
  }

  lemma TakeSlotPc(s: State, s': State, t: Thread, i: nat, u: Thread)
    requires Inv(s) && Owning(s, t) && TakeSlotStep(s, s', t, i) && u != t
    ensures PcOk(s', u)
  {
    assert PcOk(s, u);
    if u in s.pc {
      OnlySplitter(s, t, u);
      var q, p := s.pc[u], s.pc[t];
      assert HomeAt(s, p.at, i) && KeyOk(s, Kv(s, p.at, i).rec.key);
      if q.Split? && q.phase.Moving? {
        forall j | j in q.phase.todo ensures Used(s', q.at, j) && HomeAt(s', q.at, j) {
          TakeSlotHome(s, s', t, i, q.at, j);
        }
        forall j | j in q.phase.moved
          ensures Kv(s', q.at, j) == Null && (q.phase.hand == Empty || q.phase.hand.slot != j ==> HomeAt(s', q.to, j))
        {
          TakeSlotHome(s, s', t, i, q.at, j);
          TakeSlotHome(s, s', t, i, q.to, j);
        }
      }
    }
  }

  lemma TakeSlotOwn(s: State, s': State, t: Thread, i: nat)
    requires Inv(s) && Owning(s, t) && TakeSlotStep(s, s', t, i)
    ensures PcOk(s', t)
  {
    var p, p' := s.pc[t], s'.pc[t];
    assert PcOk(s, t) && HomeAt(s, p.at, i) && KeyOk(s, Kv(s, p.at, i).rec.key) && CellOk(s, p.at);
    forall j | j in p'.phase.todo ensures Used(s', p.at, j) && HomeAt(s', p.at, j) {
      TakeSlotHome(s, s', t, i, p.at, j);
    }
    forall j | j in p'.phase.moved ensures Kv(s', p.at, j) == Null && (j != i ==> HomeAt(s', p.to, j)) {
      TakeSlotHome(s, s', t, i, p.at, j);
      TakeSlotHome(s, s', t, i, p.to, j);
    }
  }

  lemma TakeSlotInv(s: State, s': State, t: Thread, i: nat)
    requires Inv(s) && TakeSlotStep(s, s', t, i)
    ensures Inv(s')
  {
    Owns(s, t);
    forall j ensures EntryOk(s', j) { assert EntryOk(s, j); }
    forall x, j ensures DirOk(s', x, j) { assert DirOk(s, x, j); }
    forall x ensures CellOk(s', x) { assert CellOk(s, x); }
    forall x, j ensures SlotOk(s', x, j) { TakeSlotHome(s, s', t, i, x, j); }
    forall k ensures KeyOk(s', k) { TakeSlotKey(s, s', t, i, k); }
    forall u ensures PcOk(s', u) { if u != t { TakeSlotPc(s, s', t, i, u); } else { TakeSlotOwn(s, s', t, i); } }
  }

  lemma MoveSlotHome(s: State, s': State, t: Thread, x: Id, j: nat)
    requires Inv(s) && Owning(s, t) && MoveSlotStep(s, s', t)
    ensures (x, j) != (s.pc[t].to, s.pc[t].phase.hand.slot) ==>
            Kv(s', x, j) == Kv(s, x, j) && (HomeAt(s', x, j) <==> HomeAt(s, x, j))
    ensures HomeAt(s', s.pc[t].to, s.pc[t].phase.hand.slot) && Used(s', x, j) == Used(s, x, j)
            && Tag(s', x, j) == Tag(s, x, j)
    ensures SlotOk(s', x, j)
  {
    assert SlotOk(s, x, j) && CellOk(s, s.pc[t].to);
  }

  lemma MoveSlotKey(s: State, s': State, t: Thread, k: Key)
    requires Inv(s) && Owning(s, t) && MoveSlotStep(s, s', t)
    ensures KeyOk(s', k)
  {
    var p := s.pc[t];
    assert KeyOk(s, k) && KeyOk(s, p.phase.hand.entry.rec.key) && CellOk(s, p.at) && CellOk(s, p.to);
    if k in s.place && s.place[k].Slot? {
      MoveSlotHome(s, s', t, s.place[k].id, s.place[k].i);
      assert CellOk(s, s.place[k].id);
    }
  }

  lemma MoveSlotPc(s: State, s': State, t: Thread, u: Thread)
    requires Inv(s) && Owning(s, t) && MoveSlotStep(s, s', t) && u != t
    ensures PcOk(s', u)
  {
    assert PcOk(s, u);
    if u in s.pc {
      OnlySplitter(s, t, u);
      var q, p := s.pc[u], s.pc[t];
      assert KeyOk(s, p.phase.hand.entry.rec.key);
      if q.Split? && q.phase.Moving? {
        forall j | j in q.phase.todo ensures Used(s', q.at, j) && HomeAt(s', q.at, j) {
          MoveSlotHome(s, s', t, q.at, j);
        }
        forall j | j in q.phase.moved
          ensures Kv(s', q.at, j) == Null && (q.phase.hand == Empty || q.phase.hand.slot != j ==> HomeAt(s', q.to, j))
        {
          MoveSlotHome(s, s', t, q.at, j);
          MoveSlotHome(s, s', t, q.to, j);
        }
      }
    }
  }

  lemma MoveSlotOwn(s: State, s': State, t: Thread)
    requires Inv(s) && Owning(s, t) && MoveSlotStep(s, s', t)
    ensures PcOk(s', t)
  {
    var p, p' := s.pc[t], s'.pc[t];
    assert PcOk(s, t) && CellOk(s, p.at) && CellOk(s, p.to);
    forall j | j in p'.phase.todo ensures Used(s', p.at, j) && HomeAt(s', p.at, j) { MoveSlotHome(s, s', t, p.at, j); }
    forall j | j in p'.phase.moved ensures Kv(s', p.at, j) == Null && HomeAt(s', p.to, j) {
      MoveSlotHome(s, s', t, p.at, j);
      MoveSlotHome(s, s', t, p.to, j);
    }
  }

  lemma MoveSlotInv(s: State, s': State, t: Thread)
    requires Inv(s) && MoveSlotStep(s, s', t)
    ensures Inv(s')
  {
    Owns(s, t);
    forall j ensures EntryOk(s', j) { assert EntryOk(s, j); }
    forall x, j ensures DirOk(s', x, j) { assert DirOk(s, x, j); }
    forall x ensures CellOk(s', x) { assert CellOk(s, x); }
    forall x, j ensures SlotOk(s', x, j) { MoveSlotHome(s, s', t, x, j); }
    forall k ensures KeyOk(s', k) { MoveSlotKey(s, s', t, k); }
    forall u ensures PcOk(s', u) { if u != t { MoveSlotPc(s, s', t, u); } else { MoveSlotOwn(s, s', t); } }
  }

  // Marking and publishing

  lemma MarkSlot(s: State, s': State, t: Thread, x: Id, j: nat)
    requires Inv(s) && Owning(s, t) && MarkStep(s, s', t)
    ensures SlotOk(s', x, j) && Kv(s', x, j) == Kv(s, x, j) && (HomeAt(s', x, j) <==> HomeAt(s, x, j))
            && Tag(s', x, j) == Tag(s, x, j)
    ensures x != s.pc[t].at && x != s.pc[t].to ==> Used(s', x, j) == Used(s, x, j)
    ensures Used(s', s.pc[t].at, j) <==> Used(s, s.pc[t].at, j) && j !in s.pc[t].phase.moved
    ensures Used(s', s.pc[t].to, j) <==> j in s.pc[t].phase.moved
  {
    var p := s.pc[t];
    assert SlotOk(s, x, j) && CellOk(s, p.at) && CellOk(s, p.to) && CellOk(s, x);
    assert j in p.phase.moved ==> j < NSLOT && HomeAt(s, p.to, j);
  }

  lemma MarkKey(s: State, s': State, t: Thread, k: Key)
    requires Inv(s) && Owning(s, t) && MarkStep(s, s', t)
    ensures KeyOk(s', k)
  {
    var p := s.pc[t];
    assert KeyOk(s, k) && CellOk(s, p.at) && CellOk(s, p.to);
    if k in s.place && s.place[k].Slot? {
      var id, i := s.place[k].id, s.place[k].i;
      MarkSlot(s, s', t, id, i);
      assert CellOk(s, id);
      if id == p.at { assert i !in p.phase.moved; }
    }
  }

  lemma MarkPc(s: State, s': State, t: Thread, u: Thread)
    requires Inv(s) && Owning(s, t) && MarkStep(s, s', t) && u != t
    ensures PcOk(s', u)
  {
    assert PcOk(s, u);
    if u in s.pc {
      OnlySplitter(s, t, u);
      var q, p := s.pc[u], s.pc[t];
      assert CellOk(s, p.to) && CellOk(s, p.at);
      if q.Insert? && q.stage.Chosen? {
        assert Holds(q, q.at);
        MarkSlot(s, s', t, q.at, q.stage.slot);
      }
      if q.Split? && q.phase.Moving? {
        forall j | j in q.phase.todo ensures Used(s', q.at, j) && HomeAt(s', q.at, j) { MarkSlot(s, s', t, q.at, j); }
        forall j | j in q.phase.moved
          ensures Kv(s', q.at, j) == Null && (q.phase.hand == Empty || q.phase.hand.slot != j ==> HomeAt(s', q.to, j))
        {
          MarkSlot(s, s', t, q.at, j);
          MarkSlot(s, s', t, q.to, j);
        }
      }
    }
  }

  lemma MarkCell(s: State, s': State, t: Thread, x: Id)
    requires Inv(s) && Owning(s, t) && MarkStep(s, s', t)
    ensures CellOk(s', x)
  {
    assert CellOk(s, x) && CellOk(s, s.pc[t].at) && CellOk(s, s.pc[t].to);
  }

  lemma MarkInv(s: State, s': State, t: Thread)
    requires Inv(s) && MarkStep(s, s', t)
    ensures Inv(s')
  {
    Owns(s, t);
    assert PcOk(s, t) && CellOk(s, s.pc[t].at) && CellOk(s, s.pc[t].to);
    forall j ensures EntryOk(s', j) { assert EntryOk(s, j); }
    forall x, j ensures DirOk(s', x, j) { assert DirOk(s, x, j); }
    forall x ensures CellOk(s', x) { MarkCell(s, s', t, x); }
    forall x, j ensures SlotOk(s', x, j) { MarkSlot(s, s', t, x, j); }
    forall k ensures KeyOk(s', k) { MarkKey(s, s', t, k); }
    forall u ensures PcOk(s', u) { if u != t { MarkPc(s, s', t, u); } }
  }

  lemma PhaseKey(s: State, s': State, t: Thread, ph: Phase, k: Key)
    requires Inv(s) && Owning(s, t) && s.pc[t].Split?
             && s'.(dlock := s.dlock, dver := s.dver) == WithPc(s, t, s.pc[t].(phase := ph))
    requires (s.pc[t].phase.Marked? && ph.InDir?) || (s.pc[t].phase.Published? && ph.Unlisted?)
    ensures KeyOk(s', k)
  {
    assert KeyOk(s, k);
    if k in s.place && s.place[k].Slot? { assert CellOk(s, s.place[k].id); }
  }

  lemma LockDirInv(s: State, s': State, t: Thread)
    requires Inv(s) && LockDirStep(s, s', t)
    ensures Inv(s')
  {
    Owns(s, t);
    assert PcOk(s, t);
    forall k ensures KeyOk(s', k) { PhaseKey(s, s', t, InDir, k); }
    forall x, j ensures SlotOk(s', x, j) { assert SlotOk(s, x, j); }
    forall x ensures CellOk(s', x) { assert CellOk(s, x); }
    PhaseOnly(s, s', t, InDir);
  }

  lemma UnlockDirInv(s: State, s': State, t: Thread)
    requires Inv(s) && UnlockDirStep(s, s', t)
    ensures Inv(s')
  {
    Owns(s, t);
    assert PcOk(s, t);
    forall k ensures KeyOk(s', k) { PhaseKey(s, s', t, Unlisted, k); }
    forall x, j ensures SlotOk(s', x, j) { assert SlotOk(s, x, j); }
    forall x ensures CellOk(s', x) { assert CellOk(s, x); }
    PhaseOnly(s, s', t, Unlisted);
  }

  lemma DoubleEntry(s: State, j: nat)
    requires |s.dir| == Pow2(s.depth) && j < Pow2(s.depth + 1)
    ensures Low(j, s.depth) < |s.dir| && (s.dir + s.dir)[j] == s.dir[Low(j, s.depth)]
  {
    SmallLow(j, s.depth + 1);
    LowStep(j, s.depth);
  }

  /** Doubling sends every key where it was sent before. */
  lemma DoubleRoute(s: State, s': State, t: Thread, k: Key)
    requires Inv(s) && DoubleStep(s, s', t)
    ensures Route(s', k) == Route(s, k)
  {
    var j := Low(k.code, s.depth + 1);
    DoubleEntry(s, j);
    LowLow(k.code, s.depth, s.depth + 1);
    assert Pow2(s.depth + 1) == 2 * Pow2(s.depth);
  }

  lemma DoubleDir(s: State, s': State, t: Thread, x: Id, j: nat)
    requires Inv(s) && DoubleStep(s, s', t)
    ensures DirOk(s', x, j) && EntryOk(s', j)
  {
    assert Pow2(s.depth + 1) == 2 * Pow2(s.depth);
    if j < |s'.dir| {
      DoubleEntry(s, j);
      var i := Low(j, s.depth);
      assert DirOk(s, x, i) && EntryOk(s, i) && CellOk(s, x);
      if x in s.cells && s.cells[x].via.None? { LowLow(j, s.cells[x].span, s.depth); }
    }
  }

  lemma DoubleInv(s: State, s': State, t: Thread)
    requires Inv(s) && DoubleStep(s, s', t)
    ensures Inv(s')
  {
    Owns(s, t);
    forall k ensures Route(s', k) == Route(s, k) { DoubleRoute(s, s', t, k); }
    assert |s'.dir| == Pow2(s'.depth) by { assert Pow2(s.depth + 1) == 2 * Pow2(s.depth); }
    forall j ensures EntryOk(s', j) { DoubleDir(s, s', t, 0, j); }
    forall x, j ensures DirOk(s', x, j) { DoubleDir(s, s', t, x, j); }
    forall x ensures CellOk(s', x) { assert CellOk(s, x); }
    forall x, j ensures SlotOk(s', x, j) { assert SlotOk(s, x, j); }
    forall k ensures KeyOk(s', k) { assert KeyOk(s, k); }
    forall u ensures PcOk(s', u) { assert PcOk(s, u); }
  }

  /** Entry j is redirected exactly if it led to the left half and its next bit is set. */
  lemma PublishEntry(s: State, s': State, t: Thread, j: nat)
    requires Inv(s) && Owning(s, t) && PublishStep(s, s', t) && j < |s.dir|
    ensures var p := s.pc[t];
            s'.dir[j] == (if s.dir[j] == p.at && Bit(j, s.cells[p.at].span) then p.to else s.dir[j])
  {
    var c := s.cells[s.pc[t].at];
    assert DirOk(s, s.pc[t].at, j) && CellOk(s, s.pc[t].at) && PcOk(s, t);
    LowStep(j, c.span);
  }

  lemma PublishRoute(s: State, s': State, t: Thread, k: Key)
    requires Inv(s) && Owning(s, t) && PublishStep(s, s', t)
    ensures var p := s.pc[t];
            Route(s', k) == (if Route(s, k) == p.at && Bit(k.code, s.cells[p.at].span) then p.to else Route(s, k))
  {
    var j := Low(k.code, s.depth);
    PublishEntry(s, s', t, j);
    IndexBits(k.code, s.cells[s.pc[t].at].span, s.depth);
  }

  lemma PublishDir(s: State, s': State, t: Thread, x: Id, j: nat)
    requires Inv(s) && Owning(s, t) && PublishStep(s, s', t)
    ensures DirOk(s', x, j) && EntryOk(s', j)
  {
    var p := s.pc[t];
    if j < |s.dir| {
      PublishEntry(s, s', t, j);
      assert DirOk(s, x, j) && DirOk(s, p.at, j) && EntryOk(s, j) && CellOk(s, p.at) && CellOk(s, x) && PcOk(s, t);
      LowStep(j, s.cells[p.at].span);
    }
  }

  lemma PublishCell(s: State, s': State, t: Thread, x: Id)
    requires Inv(s) && Owning(s, t) && PublishStep(s, s', t)
    ensures CellOk(s', x)
  {
    var p := s.pc[t];
    assert CellOk(s, x) && CellOk(s, p.at) && CellOk(s, p.to);
    assert Pow2(s.cells[p.at].span + 1) == 2 * Pow2(s.cells[p.at].span);
  }

  lemma PublishKey(s: State, s': State, t: Thread, k: Key)
    requires Inv(s) && Owning(s, t) && PublishStep(s, s', t)
    ensures KeyOk(s', k)
  {
    var p := s.pc[t];
    PublishRoute(s, s', t, k);
    assert KeyOk(s, k) && CellOk(s, p.at) && CellOk(s, p.to);
    if k in s.place {
      match s.place[k]
      case Slot(id, i) => assert CellOk(s, id);
      case InHand(u) => if u != t { OnlySplitter(s, t, u); }
    }
  }

  lemma PublishPc(s: State, s': State, t: Thread, u: Thread)
    requires Inv(s) && Owning(s, t) && PublishStep(s, s', t) && u != t
    ensures PcOk(s', u)
  {
    if u in s.pc {
      OnlySplitter(s, t, u);
      if Late(s.pc[u]) {
        PublishHolder(s, s', t, u);
      } else {
        assert PcOk(s, u);
        if Searching(s.pc[u]) { PublishRoute(s, s', t, s.pc[u].op.Target()); }
      }
    }
  }

  /** Publishing makes the left half deeper and touches no other segment of the directory. */
  lemma PublishNamed(s: State, s': State, t: Thread, at: Id, op: Op, local: nat)
    requires PublishStep(s, s', t) && at in s.cells && s.cells[at].via.None? && Named(s, at, op, local)
    requires s.cells[s.pc[t].to].via.Some?
    ensures at in s'.cells && s'.cells[at].via.None? && Named(s', at, op, local)
    ensures at != s.pc[t].at ==> s'.cells[at] == s.cells[at]
  {
  }

  lemma PublishHolder(s: State, s': State, t: Thread, u: Thread)
    requires Inv(s) && Owning(s, t) && PublishStep(s, s', t) && u != t && u in s.pc
    requires Late(s.pc[u])
    ensures PcOk(s', u)
  {
    assert PcOk(s, t) && PcOk(s, u);
    var q := s.pc[u];
    OnlySplitter(s, t, u);
    assert !q.Grow? ==> Holds(q, q.at) && LockedBy(s, q.at, u);
    if q.Release? && q.next.Crowded? {
      PublishNamed(s, s', t, q.at, q.next.op, q.next.local);
    } else if q.Grow? {
      PublishNamed(s, s', t, q.at, q.op, q.local);
    }
  }

  lemma PublishInv(s: State, s': State, t: Thread)
    requires Inv(s) && PublishStep(s, s', t)
    ensures Inv(s')
  {
    Owns(s, t);
    assert PcOk(s, t);
    forall j ensures EntryOk(s', j) { PublishDir(s, s', t, 0, j); }
    forall x, j ensures DirOk(s', x, j) { PublishDir(s, s', t, x, j); }
    forall x ensures CellOk(s', x) { PublishCell(s, s', t, x); }
    forall x, j ensures SlotOk(s', x, j) { assert SlotOk(s, x, j); }
    forall k ensures KeyOk(s', k) { PublishKey(s, s', t, k); }
    forall u ensures PcOk(s', u) { if u != t { PublishPc(s, s', t, u); } }
  }

  // Whole runs

  /** The steps of a split. */
  lemma SplitStepInv(s: State, s': State, a: Step)
    requires Inv(s) && SplitStep(s, s', a)
    ensures Inv(s') && s'.m == s.m
  {
    match a
    case BeginSplit(t, to, copy) => BeginSplitInv(s, s', t, to, copy);
    case KeepSlot(t, i) => KeepSlotInv(s, s', t, i);
    case TakeSlot(t, i) => TakeSlotInv(s, s', t, i);
    case MoveSlot(t) => MoveSlotInv(s, s', t);
    case Mark(t) => MarkInv(s, s', t);
    case LockDir(t) => LockDirInv(s, s', t);
    case Double(t) => DoubleInv(s, s', t);
    case Publish(t) => PublishInv(s, s', t);
    case UnlockDir(t) => UnlockDirInv(s, s', t);
    case UnlockSegment(t) => UnlockSegmentInv(s, s', t);
  }

  /** The steps of an upsert under its bucket's lock. */
  lemma UpsertStepInv(s: State, s': State, a: Step, reply: Reply)
    requires Inv(s) && UpsertStep(s, s', a, reply)
    ensures Inv(s') && Effect(s.m, s'.m, reply)
  {
    match a
    case LockBucket(t) => LockBucketInv(s, s', t);
    case ValidateLocked(t) => ValidateLockedInv(s, s', t);
    case ChooseSlot(t) => ChooseSlotInv(s, s', t);
    case StorePointer(t) => StorePointerInv(s, s', t, reply);
    case StoreTag(t) => StoreTagInv(s, s', t);
    case StoreBit(t) => StoreBitInv(s, s', t);
    case Unlock(t) => UnlockInv(s, s', t);
    case Elsewhere(t, op) => ElsewhereInv(s, s', t, op);
    case LockSegment(t, at) => LockSegmentInv(s, s', t, at);
  }

  /** The steps that look for a key. */
  lemma SearchStepInv(s: State, s': State, a: Step, reply: Reply)
    requires Inv(s) && SearchStep(s, s', a, reply)
    ensures Inv(s') && Effect(s.m, s'.m, reply)
  {
    match a
    case Invoke(t, op) => InvokeInv(s, s', t, op);
    case ReadVersion(t) => ReadVersionInv(s, s', t);
    case ReadEntry(t, at) => ReadEntryInv(s, s', t, at);
    case TakeVersion(t) => TakeVersionInv(s, s', t);
    case Validate(t) => ValidateInv(s, s', t);
    case ReadMask(t, mask) => ReadMaskInv(s, s', t, mask);
    case LoadSlot(t, i) => LoadSlotInv(s, s', t, i, reply);
    case Swap(t) => SwapInv(s, s', t, reply);
    case EndPass(t) => EndPassInv(s, s', t, reply);
  }

  /** Every step keeps the invariant and does to the contents what its reply says, or nothing. */
  lemma StepIsAtomic(s: State, s': State, a: Step, reply: Reply)
    requires Inv(s) && NextStep(s, s', a, reply)
    ensures Inv(s') && Effect(s.m, s'.m, reply)
  {
    if SearchStep(s, s', a, reply) {
      SearchStepInv(s, s', a, reply);
    } else if UpsertStep(s, s', a, reply) {
      UpsertStepInv(s, s', a, reply);
    } else {
      SplitStepInv(s, s', a);
    }
  }

  /** Any table in order, with nobody running. */
  ghost predicate Init(s: State) {
    && |s.dir| == Pow2(s.depth) && s.dlock.None? && (forall t <- s.pc :: s.pc[t] == Idle)
    && (forall j: nat {:trigger s.dir[j]} | j < |s.dir| :: s.dir[j] in s.cells)
    && (forall id {:trigger s.cells[id]} | id in s.cells :: InitCell(s, id))
    && s.place.Keys == s.m.Keys
    && (forall k {:trigger s.m[k]} | k in s.m ::
          && s.m[k].key == k && BucketIndex(k.code) == s.index && s.place[k].Slot? && s.place[k].id == Route(s, k)
          && Used(s, s.place[k].id, s.place[k].i) && Kv(s, s.place[k].id, s.place[k].i) == EntryFor(s.m[k])
          && Tag(s, s.place[k].id, s.place[k].i) == BucketTag(k.code))
  }

  /** A free bucket whose slots in use hold the records the contents name, and which the right entries lead to. */
  ghost predicate InitCell(s: State, id: Id)
    requires id in s.cells
  {
    var c := s.cells[id];
    && Sized(c.b) && c.lock.None? && c.via.None? && c.b.depth == c.span <= s.depth && c.low < Pow2(c.span)
    && c.ever == (set i: nat | i < NSLOT && c.b.used[i])
    && (forall i: nat {:trigger c.b.used[i]} | i < NSLOT && c.b.used[i] :: HomeAt(s, id, i))
    && (forall j: nat {:trigger s.dir[j]} | j < |s.dir| :: s.dir[j] == id <==> Low(j, c.span) == c.low)
  }

  /** A new table: the entries share 2^local empty segments. */
  ghost function NewTable(index: nat, depth: nat, local: nat, threads: set<Thread>): State {
    var b := Bucket(seq(NSLOT, _ => false), local, index, seq(NSLOT, _ => 0), seq(NSLOT, _ => Null));
    State(index,
          map id: Id | id < Pow2(local) :: Cell(b, 0, None, {}, id, local, None),
          seq(Pow2(depth), j requires j >= 0 => Low(j, local)), depth, 0, None,
          map t | t in threads :: Idle, map[], map[])
  }

  lemma NewTableCell(index: nat, depth: nat, local: nat, threads: set<Thread>, id: Id)
    requires local <= depth && id < Pow2(local)
    ensures InitCell(NewTable(index, depth, local, threads), id)
  {
    var c := NewTable(index, depth, local, threads).cells[id];
    assert c.ever == (set i: nat | i < NSLOT && c.b.used[i]);
  }

  lemma NewTableInit(index: nat, depth: nat, local: nat, threads: set<Thread>)
    requires local <= depth
    ensures Init(NewTable(index, depth, local, threads))
  {
    forall id: Id | id < Pow2(local) ensures InitCell(NewTable(index, depth, local, threads), id) {
      NewTableCell(index, depth, local, threads, id);
    }
  }

  lemma InitInv(s: State)
    requires Init(s)
    ensures Inv(s)
  {
    forall id ensures CellOk(s, id) { assert id in s.cells ==> InitCell(s, id); }
    forall id, i ensures SlotOk(s, id, i) { if id in s.cells { assert InitCell(s, id); } }
    forall id, j ensures DirOk(s, id, j) { if id in s.cells { assert InitCell(s, id); } }
    forall j: nat ensures EntryOk(s, j) { if j < |s.dir| { assert s.dir[j] in s.cells && InitCell(s, s.dir[j]); } }
    forall k ensures KeyOk(s, k) { InitKey(s, k); }
    forall t ensures PcOk(s, t) {}
  }

  lemma InitKey(s: State, k: Key)
    requires Init(s)
    ensures KeyOk(s, k)
  {
    if k in s.m { assert InitCell(s, s.place[k].id); }
  }

  ghost predicate StepAt(states: seq<State>, steps: seq<Step>, replies: seq<Reply>, i: nat) {
    i < |steps| && i + 1 < |states| && i < |replies| && NextStep(states[i], states[i + 1], steps[i], replies[i])
  }

  ghost predicate Run(states: seq<State>, steps: seq<Step>, replies: seq<Reply>) {
    && |states| == |steps| + 1 && |replies| == |steps| && Init(states[0])
    && forall i: nat {:trigger StepAt(states, steps, replies, i)} | i < |steps| :: StepAt(states, steps, replies, i)
  }

  lemma {:induction false} RunInv(states: seq<State>, steps: seq<Step>, replies: seq<Reply>, n: nat)
    requires Run(states, steps, replies) && n <= |steps|
    ensures Inv(states[n])
  {
    if n == 0 {
      InitInv(states[0]);
    } else {
      RunInv(states, steps, replies, n - 1);
      assert StepAt(states, steps, replies, n - 1);
      StepIsAtomic(states[n - 1], states[n], steps[n - 1], replies[n - 1]);
    }
  }

  /**
    Linearizability of every run: updates, lookups, upserts and any number of splits and doublings
    interleaved in any way, the i-th step does to the contents what its reply says and nothing else.
   */
  lemma Linearizable(states: seq<State>, steps: seq<Step>, replies: seq<Reply>, i: nat)
    requires Run(states, steps, replies) && i < |steps|
    ensures Effect(states[i].m, states[i + 1].m, replies[i])
  {
    RunInv(states, steps, replies, i);
    assert StepAt(states, steps, replies, i);
    StepIsAtomic(states[i], states[i + 1], steps[i], replies[i]);
  }

  // One reply for every operation

  /** The operation has been called and has not yet its answer. */
  predicate Open(index: nat, p: Pc, op: Op) {
    && BucketIndex(op.Target().code) == index
    && match p
       case Idle => false
       case Release(_, next) => !next.Done? && next.op == op
       case Insert(o, _, stage) => o == op && !stage.Stored? && !stage.Tagged?
       case _ => p.op == op
  }

  /** The operation has its answer and is about to return. */
  predicate Answered(p: Pc) {
    (p.Release? && p.next.Done?) || (p.Insert? && (p.stage.Stored? || p.stage.Tagged?))
  }

  /**
    A step of the operation's thread: silent with the operation still open, or its reply, or silent after
    the reply.
   */
  ghost predicate Progress(index: nat, p: Pc, p': Pc, op: Op, reply: Reply) {
    if Open(index, p, op) then
      if reply.Silent? then Open(index, p', op) else reply.op == op && (Answered(p') || p' == Idle)
    else Answered(p) ==> reply.Silent? && (Answered(p') || p' == Idle)
  }

  lemma RouteProgress(s: State, s': State, a: Step, reply: Reply, op: Op)
    requires SearchStep(s, s', a, reply) && !a.LoadSlot? && !a.Swap?
    ensures a.t in s.pc && a.t in s'.pc && Progress(s.index, s.pc[a.t], s'.pc[a.t], op, reply)
  {
  }

  lemma SearchProgress(s: State, s': State, a: Step, reply: Reply, op: Op)
    requires SearchStep(s, s', a, reply) && (a.LoadSlot? || a.Swap?)
    ensures a.t in s.pc && a.t in s'.pc && Progress(s.index, s.pc[a.t], s'.pc[a.t], op, reply)
  {
  }

  lemma UpsertProgress(s: State, s': State, a: Step, reply: Reply, op: Op)
    requires UpsertStep(s, s', a, reply)
    ensures a.t in s.pc && a.t in s'.pc && Progress(s.index, s.pc[a.t], s'.pc[a.t], op, reply)
  {
  }

  lemma SplitProgress(s: State, s': State, a: Step, op: Op)
    requires SplitStep(s, s', a)
    ensures a.t in s.pc && a.t in s'.pc && Progress(s.index, s.pc[a.t], s'.pc[a.t], op, Silent)
  {
  }

  lemma StepProgress(s: State, s': State, a: Step, reply: Reply, op: Op)
    requires NextStep(s, s', a, reply)
    ensures a.t in s.pc && a.t in s'.pc && Progress(s.index, s.pc[a.t], s'.pc[a.t], op, reply)
  {
    if SearchStep(s, s', a, reply) {
      if a.LoadSlot? || a.Swap? { SearchProgress(s, s', a, reply, op); } else { RouteProgress(s, s', a, reply, op); }
    } else if UpsertStep(s, s', a, reply) {
      UpsertProgress(s, s', a, reply, op);
    } else {
      SplitProgress(s, s', a, op);
    }
  }

  /** A step moves no other thread. */
  lemma StepMovesOne(s: State, s': State, a: Step, reply: Reply, t: Thread)
    requires NextStep(s, s', a, reply)
    ensures s'.index == s.index && (t in s.pc && t != a.t ==> t in s'.pc && s'.pc[t] == s.pc[t])
  {
    if SearchStep(s, s', a, reply) {
      SearchMovesOne(s, s', a, reply, t);
    } else if UpsertStep(s, s', a, reply) {
      UpsertMovesOne(s, s', a, reply, t);
    } else {
      SplitMovesOne(s, s', a, t);
    }
  }

  lemma SearchMovesOne(s: State, s': State, a: Step, reply: Reply, t: Thread)
    requires SearchStep(s, s', a, reply)
    ensures s'.index == s.index && (t in s.pc && t != a.t ==> t in s'.pc && s'.pc[t] == s.pc[t])
  {
  }

  lemma UpsertMovesOne(s: State, s': State, a: Step, reply: Reply, t: Thread)
    requires UpsertStep(s, s', a, reply)
    ensures s'.index == s.index && (t in s.pc && t != a.t ==> t in s'.pc && s'.pc[t] == s.pc[t])
  {
  }

  lemma SplitMovesOne(s: State, s': State, a: Step, t: Thread)
    requires SplitStep(s, s', a)
    ensures s'.index == s.index && (t in s.pc && t != a.t ==> t in s'.pc && s'.pc[t] == s.pc[t])
  {
  }

  /** Step j is t's and replies. */
  predicate Replies(steps: seq<Step>, replies: seq<Reply>, t: Thread, j: nat) {
    j < |steps| && j < |replies| && steps[j].t == t && replies[j].Reply?
  }

  /** From i on t is within one operation: the call at i, and t idle at no moment after it up to n. */
  ghost predicate Within(states: seq<State>, steps: seq<Step>, t: Thread, op: Op, i: nat, n: nat) {
    && i < n <= |steps| < |states| && steps[i] == Invoke(t, op)
    && forall j {:trigger states[j]} | i < j < n :: t in states[j].pc && states[j].pc[t] != Idle
  }

  /** Up to n the operation is open and t has not replied, or t has replied once, for the operation. */
  ghost predicate OnceSoFar(index: nat, p: Pc, steps: seq<Step>, replies: seq<Reply>, t: Thread, op: Op, i: nat,
      n: nat) {
    if Open(index, p, op) then forall k | i <= k < n :: !Replies(steps, replies, t, k)
    else (Answered(p) || p == Idle) && exists j :: RepliesOnly(steps, replies, t, op, i, n, j)
  }

  ghost predicate RepliesOnly(steps: seq<Step>, replies: seq<Reply>, t: Thread, op: Op, i: nat, n: nat, j: nat) {
    && i < j < n && Replies(steps, replies, t, j) && replies[j].op == op
    && forall k | i <= k < n && Replies(steps, replies, t, k) :: k == j
  }

  lemma {:induction false} RepliesOnce(states: seq<State>, steps: seq<Step>, replies: seq<Reply>, t: Thread, op: Op,
      i: nat, n: nat)
    requires Run(states, steps, replies) && Within(states, steps, t, op, i, n)
    ensures t in states[n].pc && OnceSoFar(states[n].index, states[n].pc[t], steps, replies, t, op, i, n)
  {
    var m := n - 1;
    if m > i {
      RepliesOnce(states, steps, replies, t, op, i, m);
      assert t in states[m].pc && states[m].pc[t] != Idle;
      ThreadMoves(states, steps, replies, t, op, m);
      OnceStep(states[m].index, states[m].pc[t], states[n].pc[t], steps, replies, t, op, i, m);
    } else {
      CallOpens(states, steps, replies, t, op, i);
    }
  }

  lemma CallOpens(states: seq<State>, steps: seq<Step>, replies: seq<Reply>, t: Thread, op: Op, i: nat)
    requires Run(states, steps, replies) && i < |steps| && steps[i] == Invoke(t, op)
    ensures replies[i] == Silent
    ensures t in states[i + 1].pc && Open(states[i + 1].index, states[i + 1].pc[t], op)
  {
    assert StepAt(states, steps, replies, i);
  }

  lemma ThreadMoves(states: seq<State>, steps: seq<Step>, replies: seq<Reply>, t: Thread, op: Op, m: nat)
    requires Run(states, steps, replies) && m < |steps| && t in states[m].pc
    ensures t in states[m + 1].pc && states[m + 1].index == states[m].index
    ensures if steps[m].t == t then Progress(states[m].index, states[m].pc[t], states[m + 1].pc[t], op, replies[m])
            else states[m + 1].pc[t] == states[m].pc[t]
  {
    assert StepAt(states, steps, replies, m);
    StepMovesOne(states[m], states[m + 1], steps[m], replies[m], t);
    StepProgress(states[m], states[m + 1], steps[m], replies[m], op);
  }

  lemma OnceStep(index: nat, p: Pc, p': Pc, steps: seq<Step>, replies: seq<Reply>, t: Thread, op: Op, i: nat, m: nat)
    requires i < m < |steps| == |replies| && OnceSoFar(index, p, steps, replies, t, op, i, m) && p != Idle
    requires if steps[m].t == t then Progress(index, p, p', op, replies[m]) else p' == p
    ensures OnceSoFar(index, p', steps, replies, t, op, i, m + 1)
  {
    if !Open(index, p, op) {
      var j :| RepliesOnly(steps, replies, t, op, i, m, j);
      assert RepliesOnly(steps, replies, t, op, i, m + 1, j);
    } else if Replies(steps, replies, t, m) {
      assert RepliesOnly(steps, replies, t, op, i, m + 1, m);
    }
  }

  /**
    An operation, from its call to the moment its thread is idle again: exactly one step of the thread
    replies, the reply is for the operation, and at that step the contents change as the reply says.
   */
  lemma OperationIsAtomic(states: seq<State>, steps: seq<Step>, replies: seq<Reply>, t: Thread, op: Op, i: nat, n: nat)
    returns (j: nat)
    requires Run(states, steps, replies) && Within(states, steps, t, op, i, n) && t in states[n].pc
             && states[n].pc[t] == Idle
    ensures RepliesOnly(steps, replies, t, op, i, n, j) && Effect(states[j].m, states[j + 1].m, replies[j])
  {
    RepliesOnce(states, steps, replies, t, op, i, n);
    j :| RepliesOnly(steps, replies, t, op, i, n, j);
    Linearizable(states, steps, replies, j);
  }

  /**
    The contents are what the buckets hold: a free bucket has exactly the records of the keys the
    directory sends to it.
   */
  lemma BucketHolds(states: seq<State>, steps: seq<Step>, replies: seq<Reply>, n: nat, k: Key)
    requires Run(states, steps, replies) && n <= |steps| && Free(states[n], Route(states[n], k))
    ensures var s := states[n];
            && Sized(s.cells[Route(s, k)].b)
            && Get(s.cells[Route(s, k)].b, k) == if k in s.m then Some(s.m[k]) else None
  {
    RunInv(states, steps, replies, n);
    var s := states[n];
    var id := Route(s, k);
    assert CellOk(s, id);
    var i := Linear(s.cells[id].b, k, 0);
    if i < NSLOT {
      SlotIsPlace(s, id, k, i);
    } else if k in s.place {
      PlaceIsSlot(s, id, k);
      assert false;
    }
    assert KeyOk(s, k);
  }

  lemma SlotIsPlace(s: State, id: Id, k: Key, i: nat)
    requires Inv(s) && Free(s, id) && Sized(s.cells[id].b) && At(s.cells[id].b, k, i)
    ensures k in s.place && s.place[k] == Slot(id, i) && k in s.m && s.cells[id].b.kvs[i].rec == s.m[k]
  {
    assert SlotOk(s, id, i) && Used(s, id, i) && Kv(s, id, i) == s.cells[id].b.kvs[i] && KeyOk(s, k);
  }

  lemma PlaceIsSlot(s: State, id: Id, k: Key)
    requires Inv(s) && Free(s, id) && Route(s, k) == id && k in s.place && Sized(s.cells[id].b)
    ensures exists i: nat :: At(s.cells[id].b, k, i)
  {
    RoutedHome(s, k, id);
    EntryIn(s, k);
    InMask(s, id, k);
    assert KeyOk(s, k);
    assert At(s.cells[id].b, k, s.place[k].i);
  }

  lemma EntryIn(s: State, k: Key)
    requires Inv(s)
    ensures Route(s, k) in s.cells && s.cells[Route(s, k)].via.None?
  {
    assert EntryOk(s, Low(k.code, s.depth));
  }

  /** Upserts and splits follow the pointers they load without a check; these are never null. */
  lemma NeverNull(states: seq<State>, steps: seq<Step>, replies: seq<Reply>, n: nat, t: Thread, i: nat)
    requires Run(states, steps, replies) && n <= |steps| && t in states[n].pc
    ensures var s := states[n]; var p := s.pc[t];
            && (p.Insert? && p.stage.Scan? && i in p.stage.mask ==> Kv(s, p.at, i).Ptr?)
            && (p.Split? && p.phase.Moving? && i in p.phase.todo ==> Kv(s, p.at, i).Ptr?)
  {
    RunInv(states, steps, replies, n);
    var s := states[n];
    var p := s.pc[t];
    assert PcOk(s, t);
    if p.Insert? || p.Split? {
      assert Holds(p, p.at) && SlotOk(s, p.at, i) && CellOk(s, p.at);
    }
  }

  /** A key once found stays found, and changes only for a newer record. */
  lemma NeverOlder(m: map<Key, Rec>, m': map<Key, Rec>, reply: Reply, k: Key)
    requires Effect(m, m', reply) && k in m
    ensures k in m' && (m'[k] == m[k] || m'[k].version > m[k].version)
  {
  }

  /** The key finds r or something newer. */
  ghost predicate Kept(m: map<Key, Rec>, r: Rec) {
    r.key in m && (m[r.key] == r || m[r.key].version > r.version)
  }

  /** The reply of an operation that stored its record. */
  predicate Stores(reply: Reply, r: Rec) {
    reply.Reply? && ((reply.op == Write(r) && reply.answer.Old?)
      || (reply.op == Put(r) && (reply.answer.Old? || reply.answer == NotFound)))
  }

  /** No update is lost: what a successful update or upsert stored is found ever after, or something newer is. */
  lemma {:induction false} NoLostUpdate(states: seq<State>, steps: seq<Step>, replies: seq<Reply>, i: nat, n: nat,
      r: Rec)
    requires Run(states, steps, replies) && i < n <= |steps| && Stores(replies[i], r)
    ensures Kept(states[n].m, r)
  {
    Linearizable(states, steps, replies, n - 1);
    if n > i + 1 {
      NoLostUpdate(states, steps, replies, i, n - 1, r);
      NeverOlder(states[n - 1].m, states[n].m, replies[n - 1], r.key);
    }
  }
}
