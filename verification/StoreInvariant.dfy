/**
  The invariant of the store machine and its preservation by every step.
 */
module StoreInvariant {
  import opened RecordMemory
  import opened RecordWrite
  import opened Recovery
  import opened StoreMachine

  /** Some operation wrote exactly this record. */
  ghost predicate Genuine(s: State, im: Record) {
    exists op <- s.begun :: Whole(im, op)
  }

  /** The durable version of the index entry for k. */
  ghost function Newer(s: State, k: Key): nat
    requires k in s.index && s.index[k] in s.mem
  {
    LoadVersion(s.mem[s.index[k]].base.ctrl)
  }

  /** The index knows the record's key at this version or a newer one. */
  ghost predicate Dominated(s: State, im: Record) {
    im.ctrl.Valid? && im.key in s.index && s.index[im.key] in s.mem && im.ctrl.version <= Newer(s, im.key)
  }

  ghost predicate Quiet(s: State, r: Region) {
    r in s.mem && s.mem[r].log == [] && s.mem[r].base.ctrl.Valid? && Genuine(s, s.mem[r].base)
  }

  ghost predicate Settled(s: State, r: Region) {
    Quiet(s, r) && r in s.token && s.token[r] == Token(true, [])
  }

  ghost predicate Domains(s: State) {
    s.mem.Keys == s.token.Keys == s.place.Keys && |s.ver| == SLOTS
  }

  ghost predicate RegionInv(s: State, r: Region)
    requires Domains(s) && r in s.mem
  {
    match s.place[r]
    case Free => s.token[r] == Token(false, []) && s.mem[r].log == []
    case Linked => Settled(s, r) && s.mem[r].base.key in s.index && s.index[s.mem[r].base.key] == r
    case Retired => Settled(s, r) && Dominated(s, s.mem[r].base)
    case Limbo(_) => Settled(s, r) && Dominated(s, s.mem[r].base)
    case Firing => Quiet(s, r) && s.token[r] == Token(true, [false]) && Dominated(s, s.mem[r].base)
    case Held(t) =>
      && t in s.pc
      && ((s.pc[t].Writing? && s.pc[t].job.addr == r) || (s.pc[t].Unlinking? && s.pc[t].victim == r))
  }

  ghost predicate OpInv(s: State, op: Op)
    requires Domains(s)
  {
    op in s.begun && op.version < s.ver[SlotOf(op.key)]
  }

  ghost predicate JobInv(s: State, t: Thread, job: Job)
    requires Domains(s)
  {
    && job.addr in s.mem && s.place[job.addr] == Held(t)
    && OpInv(s, job.op) && Shape(job, s.mem[job.addr])
    && s.token[job.addr] == (if job.reuse || job.stage.Link? then Token(true, [])
                             else if job.stage.FlushToken? then Token(false, [true])
                             else Token(false, []))
    && (job.reuse ==> Genuine(s, job.prior) && Dominated(s, job.prior))
  }

  ghost predicate ThreadInv(s: State, t: Thread)
    requires Domains(s) && t in s.pc
  {
    match s.pc[t]
    case Idle => true
    case Begun(op) => OpInv(s, op)
    case Writing(job) => JobInv(s, t, job)
    case Unlinking(op, v) =>
      && v in s.mem && s.place[v] == Held(t) && Settled(s, v) && Dominated(s, s.mem[v].base)
      && op in s.begun && op.key in s.index && s.index[op.key] in s.mem && op.version <= Newer(s, op.key)
    case Reading(k, r) =>
      && Quiet(s, r) && s.mem[r].base.key == k
      && (s.place[r].Linked? || s.place[r].Retired?
         || (s.place[r].Held? && s.place[r].holder in s.pc && s.pc[s.place[r].holder].Unlinking?))
  }

  ghost predicate KeyInv(s: State, k: Key)
    requires Domains(s) && k in s.index
  {
    var r := s.index[k];
    r in s.mem && s.place[r] == Linked && s.mem[r].base.key == k && Newer(s, k) <= s.ver[SlotOf(k)]
  }

  ghost predicate AckInv(s: State, a: Op) {
    a.key in s.index && s.index[a.key] in s.mem && a.version <= Newer(s, a.key)
  }

  ghost predicate Inv(s: State) {
    && Domains(s)
    && (forall r {:trigger RegionInv(s, r)} :: r in s.mem ==> RegionInv(s, r))
    && (forall t {:trigger ThreadInv(s, t)} :: t in s.pc ==> ThreadInv(s, t))
    && (forall k {:trigger KeyInv(s, k)} :: k in s.index ==> KeyInv(s, k))
    && (forall a {:trigger AckInv(s, a)} :: a in s.acked ==> AckInv(s, a))
  }

  /** The index only moves forward and history only grows. */
  ghost predicate Forward(s: State, s': State) {
    && Domains(s) && Domains(s')
    && s.begun <= s'.begun
    && (forall i | 0 <= i < SLOTS :: s.ver[i] <= s'.ver[i])
    && forall k <- s.index | s.index[k] in s.mem ::
       k in s'.index && s'.index[k] in s'.mem && Newer(s, k) <= Newer(s', k)
  }

  lemma InitInv(s: State)
    requires Init(s)
    ensures Inv(s)
  {
  }

  /** What does not mention the changed parts carries over. */
  lemma Carry(s: State, s': State, im: Record)
    requires Forward(s, s')
    ensures Genuine(s, im) ==> Genuine(s', im)
    ensures Dominated(s, im) ==> Dominated(s', im)
  {
  }

  lemma RegionFrame(s: State, s': State, r: Region)
    requires Forward(s, s') && r in s.mem && r in s'.mem && RegionInv(s, r)
    requires s'.mem[r] == s.mem[r] && s'.token[r] == s.token[r] && s'.place[r] == s.place[r]
    requires s.place[r].Held? ==> s.place[r].holder in s'.pc && s'.pc[s.place[r].holder] == s.pc[s.place[r].holder]
    requires s.place[r].Linked? ==> s.mem[r].base.key in s'.index && s'.index[s.mem[r].base.key] == r
    ensures RegionInv(s', r)
  {
    Carry(s, s', s.mem[r].base);
  }

  lemma ThreadFrame(s: State, s': State, t: Thread)
    requires Forward(s, s') && t in s.pc && t in s'.pc && ThreadInv(s, t) && s'.pc[t] == s.pc[t]
    requires s'.mem.Keys == s.mem.Keys
    requires forall k <- s.index :: s.index[k] in s.mem
    requires s.pc[t].Writing? ==>
               var r := s.pc[t].job.addr;
               s'.mem[r] == s.mem[r] && s'.token[r] == s.token[r] && s'.place[r] == s.place[r]
    requires s.pc[t].Unlinking? ==>
               var r := s.pc[t].victim;
               s'.mem[r] == s.mem[r] && s'.token[r] == s.token[r] && s'.place[r] == s.place[r]
    requires s.pc[t].Reading? ==>
               var r := s.pc[t].at;
               && s'.mem[r] == s.mem[r]
               && (s'.place[r].Linked? || s'.place[r].Retired? ||
                   (s'.place[r].Held? && s'.place[r].holder in s'.pc && s'.pc[s'.place[r].holder].Unlinking?))
    ensures ThreadInv(s', t)
  {
    match s.pc[t]
    case Writing(job) => Carry(s, s', job.prior);
    case Unlinking(_, v) => Carry(s, s', s.mem[v].base);
    case Reading(_, r) => Carry(s, s', s.mem[r].base);
    case _ =>
  }

  ghost predicate Readable(s: State, r: Region)
    requires Domains(s) && r in s.mem
  {
    || s.place[r].Linked? || s.place[r].Retired?
    || (s.place[r].Held? && s.place[r].holder in s.pc && s.pc[s.place[r].holder].Unlinking?)
  }

  /** A step by thread t that changes only t's program counter, the regions of `touched` and the index. */
  ghost predicate Local(s: State, s': State, t: Thread, touched: set<Region>) {
    && Domains(s) && Domains(s') && s'.mem.Keys == s.mem.Keys && s'.pc.Keys == s.pc.Keys
    && (forall u <- s.pc | u != t :: s'.pc[u] == s.pc[u])
    && (forall r <- s.mem | r !in touched ::
          s'.mem[r] == s.mem[r] && s'.token[r] == s.token[r] && s'.place[r] == s.place[r])
    && (forall r <- s.mem | r in touched :: s.place[r].Held? ==> s.place[r].holder == t)
    && (t in s.pc && s'.pc[t] != s.pc[t] ==> forall r <- s.mem | r !in touched :: s.place[r] != Held(t))
  }

  ghost predicate LinkedKept(s: State, s': State, touched: set<Region>)
    requires Domains(s)
  {
    forall r {:trigger s.place[r]} | r in s.mem && r !in touched && s.place[r].Linked? ::
      s.mem[r].base.key in s'.index && s'.index[s.mem[r].base.key] == r
  }

  ghost predicate ReadersKept(s: State, s': State, t: Thread)
    requires Domains(s')
  {
    forall u {:trigger s.pc[u]} | u in s.pc && u != t && s.pc[u].Reading? ::
      s.pc[u].at in s.mem && s.pc[u].at in s'.mem && s'.mem[s.pc[u].at] == s.mem[s.pc[u].at] && Readable(s', s.pc[u].at)
  }

  ghost predicate Keys(s: State)
    requires Domains(s)
  {
    forall k {:trigger KeyInv(s, k)} :: k in s.index ==> KeyInv(s, k)
  }

  ghost predicate Acks(s: State) {
    forall a {:trigger AckInv(s, a)} :: a in s.acked ==> AckInv(s, a)
  }

  lemma Glue(s: State, s': State, t: Thread, touched: set<Region>)
    requires Inv(s) && Forward(s, s') && Local(s, s', t, touched)
    requires forall r <- touched :: r in s'.mem ==> RegionInv(s', r)
    requires t in s'.pc ==> ThreadInv(s', t)
    requires Keys(s') && Acks(s') && LinkedKept(s, s', touched) && ReadersKept(s, s', t)
    ensures Inv(s')
  {
    forall r <- s'.mem ensures RegionInv(s', r) {
      if r !in touched {
        assert RegionInv(s, r);
        RegionFrame(s, s', r);
      }
    }
    forall u <- s'.pc ensures ThreadInv(s', u) {
      if u != t {
        assert ThreadInv(s, u);
        assert forall k <- s.index :: KeyInv(s, k);
        ThreadFrame(s, s', u);
      }
    }
  }

  /** The same with the index and the acknowledgements left alone. */
  lemma GlueSame(s: State, s': State, t: Thread, touched: set<Region>)
    requires Inv(s) && Local(s, s', t, touched)
    requires s'.index == s.index && s'.acked == s.acked && s.begun <= s'.begun
    requires forall i | 0 <= i < SLOTS :: s.ver[i] <= s'.ver[i]
    requires forall r <- touched :: r in s'.mem ==> !s.place[r].Linked? && RegionInv(s', r)
    requires t in s'.pc ==> ThreadInv(s', t)
    requires forall u <- s.pc | u != t && s.pc[u].Reading? :: s.pc[u].at !in touched
    ensures Inv(s')
  {
    forall k <- s'.index ensures KeyInv(s', k) && Newer(s', k) == Newer(s, k) {
      assert KeyInv(s, k);
    }
    forall a <- s'.acked ensures AckInv(s', a) { assert AckInv(s, a); }
    forall r | r in s.mem && r !in touched && s.place[r].Linked?
      ensures s.mem[r].base.key in s'.index && s'.index[s.mem[r].base.key] == r
    {
      assert RegionInv(s, r);
    }
    forall u | u in s.pc && u != t && s.pc[u].Reading?
      ensures s.pc[u].at in s.mem && s.pc[u].at in s'.mem && s'.mem[s.pc[u].at] == s.mem[s.pc[u].at]
              && Readable(s', s.pc[u].at)
    {
      assert ThreadInv(s, u);
    }
    Glue(s, s', t, touched);
  }

  lemma BeginInv(s: State, s': State, t: Thread, kind: Kind, key: Key, value: seq<int>)
    requires Inv(s) && BeginStep(s, s', t, kind, key, value)
    ensures Inv(s')
  {
    forall r <- s.mem ensures s.place[r] != Held(t) { assert RegionInv(s, r); }
    GlueSame(s, s', t, {});
  }

  /** Touching one region that the index does not hold leaves the index where it was. */
  lemma OffIndex(s: State, s': State, r: Region)
    requires Inv(s) && Domains(s') && r in s.mem && !s.place[r].Linked?
    requires s'.index == s.index && s'.begun == s.begun && s'.ver == s.ver && s'.mem.Keys == s.mem.Keys
    requires forall q <- s.mem | q != r :: s'.mem[q] == s.mem[q]
    ensures Forward(s, s') && forall k <- s.index :: s.index[k] in s.mem && s.index[k] != r
  {
    forall k <- s.index ensures s.index[k] in s.mem && s.index[k] != r { assert KeyInv(s, k); }
  }

  /** A step of a thread on the region it is writing. */
  lemma WriterGlue(s: State, s': State, t: Thread, r: Region)
    requires Inv(s) && t in s.pc && r in s.mem && !s.place[r].Linked? && !s.place[r].Retired?
    requires Local(s, s', t, {r})
    requires s'.index == s.index && s'.acked == s.acked && s'.begun == s.begun && s'.ver == s.ver
    requires s'.pc[t].Writing? && s'.pc[t].job.addr == r && JobInv(s', t, s'.pc[t].job)
    requires s.place[r].Held? ==> s.pc[t].Writing? && s.pc[t].job.addr == r
    ensures Inv(s')
  {
    forall u <- s.pc | u != t && s.pc[u].Reading? ensures s.pc[u].at != r { assert ThreadInv(s, u); }
    GlueSame(s, s', t, {r});
  }

  lemma TakeJob(s: State, s': State, t: Thread, r: Region, limbo: bool)
    requires Inv(s) && TakeStep(s, s', t, r, limbo)
    ensures JobInv(s', t, s'.pc[t].job)
  {
    assert ThreadInv(s, t) && RegionInv(s, r);
    OffIndex(s, s', r);
    Carry(s, s', s.mem[r].base);
  }

  lemma TakeInv(s: State, s': State, t: Thread, r: Region, limbo: bool)
    requires Inv(s) && TakeStep(s, s', t, r, limbo)
    ensures Inv(s')
  {
    assert Local(s, s', t, {r}) by {
      forall q <- s.mem ensures s.place[q] != Held(t) { assert RegionInv(s, q); }
    }
    TakeJob(s, s', t, r, limbo);
    WriterGlue(s, s', t, r);
  }

  /** A writing thread holds its record's region and no other. */
  lemma WriterAlone(s: State, t: Thread)
    requires Inv(s) && t in s.pc && s.pc[t].Writing?
    ensures JobInv(s, t, s.pc[t].job)
    ensures forall q <- s.mem | q != s.pc[t].job.addr :: s.place[q] != Held(t)
  {
    assert ThreadInv(s, t);
    forall q <- s.mem | q != s.pc[t].job.addr ensures s.place[q] != Held(t) { assert RegionInv(s, q); }
  }

  lemma RecordInv(s: State, s': State, t: Thread, job': Job, mem': Mem, store: Store)
    requires Inv(s) && RecordStep(s, s', t, job', mem', store)
    ensures Inv(s')
  {
    WriterAlone(s, t);
    var job := s.pc[t].job;
    assert JobInv(s', t, job') by {
      WriteKeepsShape(job, s.mem[job.addr], job', mem', store);
      OffIndex(s, s', job.addr);
      Carry(s, s', job.prior);
    }
    WriterGlue(s, s', t, job.addr);
  }

  lemma TokenInv(s: State, s': State, t: Thread, flush: bool)
    requires Inv(s) && TokenStep(s, s', t, flush)
    ensures Inv(s')
  {
    WriterAlone(s, t);
    var job := s.pc[t].job;
    TokenJob(s, s', t, flush);
    WriterGlue(s, s', t, job.addr);
  }

  lemma TokenJob(s: State, s': State, t: Thread, flush: bool)
    requires Inv(s) && TokenStep(s, s', t, flush)
    ensures JobInv(s', t, s'.pc[t].job)
  {
    assert ThreadInv(s, t);
    var job := s.pc[t].job;
    OffIndex(s, s', job.addr);
    Carry(s, s', job.prior);
  }

  /** A step on a retired or firing region by nobody in particular. */
  lemma GarbageGlue(s: State, s': State, r: Region)
    requires Inv(s) && Domains(s') && r in s.mem && (s.place[r].Retired? || s.place[r].Firing?) && Unread(s, r)
    requires s'.index == s.index && s'.acked == s.acked && s'.begun == s.begun && s'.ver == s.ver
    requires s'.mem == s.mem && s'.pc == s.pc
    requires forall q <- s.mem | q != r :: s'.token[q] == s.token[q] && s'.place[q] == s.place[q]
    requires RegionInv(s', r)
    ensures Inv(s')
  {
    OffIndex(s, s', r);
    forall q <- s'.mem ensures RegionInv(s', q) {
      if q != r {
        assert RegionInv(s, q);
        RegionFrame(s, s', q);
      }
    }
    forall t <- s'.pc ensures ThreadInv(s', t) { GarbageThread(s, s', r, t); }
    forall k | k in s'.index ensures KeyInv(s', k) { assert KeyInv(s, k); }
    forall a <- s'.acked ensures AckInv(s', a) { assert AckInv(s, a); }
  }

  lemma GarbageThread(s: State, s': State, r: Region, t: Thread)
    requires Inv(s) && Forward(s, s') && r in s.mem && (s.place[r].Retired? || s.place[r].Firing?) && Unread(s, r)
    requires forall k <- s.index :: s.index[k] in s.mem
    requires s'.mem == s.mem && s'.pc == s.pc && t in s.pc
    requires forall q <- s.mem | q != r :: s'.token[q] == s.token[q] && s'.place[q] == s.place[q]
    ensures ThreadInv(s', t)
  {
    assert ThreadInv(s, t);
    ThreadFrame(s, s', t);
  }

  lemma RecycleInv(s: State, s': State, t: Thread, r: Region)
    requires Inv(s) && RecycleStep(s, s', t, r)
    ensures Inv(s')
  {
    assert RegionInv(s, r);
    OffIndex(s, s', r);
    Carry(s, s', s.mem[r].base);
    GarbageGlue(s, s', r);
  }

  lemma FireInv(s: State, s': State, r: Region)
    requires Inv(s) && FireStep(s, s', r)
    ensures Inv(s')
  {
    assert RegionInv(s, r);
    OffIndex(s, s', r);
    Carry(s, s', s.mem[r].base);
    GarbageGlue(s, s', r);
  }

  lemma AwaitFireInv(s: State, s': State, r: Region)
    requires Inv(s) && AwaitFireStep(s, s', r)
    ensures Inv(s')
  {
    assert RegionInv(s, r);
    forall t <- s.pc | s.pc[t].Reading? ensures s.pc[t].at != r { assert ThreadInv(s, t); }
    GarbageGlue(s, s', r);
  }

  lemma ReadInv(s: State, s': State, t: Thread, k: Key)
    requires Inv(s) && (LookupStep(s, s', t, k) || exists answer :: EndReadStep(s, s', t, answer))
    ensures Inv(s')
  {
    forall r <- s.mem ensures s.place[r] != Held(t) { assert RegionInv(s, r); }
    if s'.pc[t].Reading? {
      assert KeyInv(s, k) && RegionInv(s, s.index[k]);
    }
    GlueSame(s, s', t, {});
  }

  /** A loaded version is the durable one. */
  lemma LoadedVersion(s: State, k: Key)
    requires Inv(s) && k in s.index
    ensures s.index[k] in s.mem && VersionAt(s, k) == Newer(s, k) && Settled(s, s.index[k])
    ensures s.mem[s.index[k]].base.key == k && s.place[s.index[k]] == Linked
  {
    assert KeyInv(s, k) && RegionInv(s, s.index[k]);
  }

  lemma ExpiredInv(s: State, s': State, t: Thread)
    requires Inv(s) && LinkStep(s, s', t) && s.pc[t].job.op.key in s.index
    requires VersionAt(s, s.pc[t].job.op.key) >= s.pc[t].job.op.version
    ensures Inv(s')
  {
    var r := s.pc[t].job.addr;
    WriterAlone(s, t);
    OffIndex(s, s', r);
    ExpiredThread(s, s', t);
    forall u <- s.pc | u != t && s.pc[u].Reading? ensures s.pc[u].at != r { assert ThreadInv(s, u); }
    GlueSame(s, s', t, {r});
  }

  /** The expired record is whole, published and dominated by the entry that beat it. */
  lemma ExpiredThread(s: State, s': State, t: Thread)
    requires Inv(s) && LinkStep(s, s', t) && s.pc[t].job.op.key in s.index
    requires VersionAt(s, s.pc[t].job.op.key) >= s.pc[t].job.op.version
    ensures Domains(s') && t in s'.pc && ThreadInv(s', t)
  {
    var op, r := s.pc[t].job.op, s.pc[t].job.addr;
    WriterAlone(s, t);
    LoadedVersion(s, op.key);
    Carry(s, s', s.mem[r].base);
  }

  /** Publishing a newer record moves the index forward. */
  lemma LinkForward(s: State, s': State, k: Key, r: Region)
    requires Inv(s) && Domains(s') && s'.mem == s.mem && s'.begun == s.begun && s'.ver == s.ver
    requires r in s.mem && s.place[r].Held? && s'.index == s.index[k := r]
    requires k in s.index && s.index[k] in s.mem ==> Newer(s, k) <= LoadVersion(s.mem[r].base.ctrl)
    ensures Forward(s, s')
    ensures forall k' <- s.index | k' != k :: s'.index[k'] == s.index[k'] && s.index[k'] != r
    ensures forall k' <- s'.index :: s'.index[k'] in s'.mem
  {
    forall k' <- s.index ensures s.index[k'] in s.mem && s.index[k'] != r { assert KeyInv(s, k'); }
  }

  lemma LinkKeys(s: State, s': State, t: Thread, k: Key, r: Region)
    requires Inv(s) && Forward(s, s') && s'.mem == s.mem && s'.ver == s.ver && s'.index == s.index[k := r]
    requires r in s.mem && s'.place[r] == Linked && s.mem[r].base.key == k
    requires LoadVersion(s.mem[r].base.ctrl) <= s.ver[SlotOf(k)]
    requires forall q <- s.mem | q != r && !(k in s.index && s.index[k] == q) :: s'.place[q] == s.place[q]
    ensures Keys(s')
  {
    forall k' <- s'.index ensures KeyInv(s', k') {
      if k' != k {
        assert KeyInv(s, k');
        if k in s.index { assert KeyInv(s, k); }
      }
    }
  }

  lemma AcksStay(s: State, s': State)
    requires Inv(s) && Forward(s, s') && (forall a <- s'.acked :: a in s.acked || AckInv(s', a))
    ensures Acks(s')
  {
    forall a | a in s'.acked ensures AckInv(s', a) { if a in s.acked { assert AckInv(s, a); } }
  }

  /** Regions linked elsewhere stay linked when only k's entry may move. */
  lemma LinkedStay(s: State, s': State, k: Key, touched: set<Region>)
    requires Inv(s) && s.index.Keys <= s'.index.Keys
    requires forall k' <- s.index | k' != k :: s'.index[k'] == s.index[k']
    requires k in s.index && s'.index[k] != s.index[k] ==> s.index[k] in touched
    ensures LinkedKept(s, s', touched)
  {
    forall q | q in s.mem && q !in touched && s.place[q].Linked?
      ensures s.mem[q].base.key in s'.index && s'.index[s.mem[q].base.key] == q
    {
      assert RegionInv(s, q);
    }
  }

  lemma ReadersStay(s: State, s': State, t: Thread, touched: set<Region>)
    requires Inv(s) && Local(s, s', t, touched) && s'.mem == s.mem
    requires forall r <- touched :: r in s.mem && Readable(s, r) ==> Readable(s', r)
    ensures ReadersKept(s, s', t)
  {
    forall u | u in s.pc && u != t && s.pc[u].Reading?
      ensures s.pc[u].at in s.mem && Readable(s', s.pc[u].at)
    {
      assert ThreadInv(s, u);
      assert Readable(s, s.pc[u].at);
    }
  }

  /** The thread's record is durable, whole and published, and the index has no newer one for its key. */
  ghost predicate CanLink(s: State, t: Thread, op: Op, r: Region) {
    && Domains(s) && t in s.pc && r in s.mem && s.place[r] == Held(t)
    && Settled(s, r) && Whole(s.mem[r].base, op) && op in s.begun && op.version <= s.ver[SlotOf(op.key)]
    && (forall q <- s.mem | q != r :: s.place[q] != Held(t))
    && (op.key in s.index ==> s.index[op.key] in s.mem && Newer(s, op.key) <= op.version)
  }

  lemma JobCanLink(s: State, t: Thread)
    requires Inv(s) && t in s.pc && s.pc[t].Writing? && s.pc[t].job.stage == Link
    requires s.pc[t].job.op.key in s.index ==>
             s.index[s.pc[t].job.op.key] in s.mem && Newer(s, s.pc[t].job.op.key) <= s.pc[t].job.op.version
    ensures CanLink(s, t, s.pc[t].job.op, s.pc[t].job.addr)
  {
    WriterAlone(s, t);
  }

  lemma InsertInv(s: State, s': State, t: Thread, op: Op, r: Region)
    requires Inv(s) && CanLink(s, t, op, r) && op.key !in s.index && s.pc[t].Writing?
    requires s' == s.(index := s.index[op.key := r], place := s.place[r := Linked], pc := s.pc[t := Idle],
             acked := s.acked + {op})
    ensures Inv(s')
  {
    LinkForward(s, s', op.key, r);
    LinkKeys(s, s', t, op.key, r);
    assert RegionInv(s', r) by { Carry(s, s', s.mem[r].base); }
    AcksStay(s, s');
    LinkedStay(s, s', op.key, {r});
    ReadersStay(s, s', t, {r});
    Glue(s, s', t, {r});
  }

  ghost predicate Replace(s: State, s': State, t: Thread, op: Op, r: Region) {
    && CanLink(s, t, op, r) && op.key in s.index && s.pc[t].Writing?
    && s' == s.(index := s.index[op.key := r], place := s.place[r := Linked][s.index[op.key] := Held(t)],
                pc := s.pc[t := Unlinking(op, s.index[op.key])])
  }

  lemma ReplaceForward(s: State, s': State, t: Thread, op: Op, r: Region)
    requires Inv(s) && Replace(s, s', t, op, r)
    ensures Forward(s, s') && Keys(s') && r != s.index[op.key]
  {
    LoadedVersion(s, op.key);
    LinkForward(s, s', op.key, r);
    LinkKeys(s, s', t, op.key, r);
  }

  lemma ReplaceLocal(s: State, s': State, t: Thread, op: Op, r: Region)
    requires Replace(s, s', t, op, r) && Forward(s, s') && s.index[op.key] in s.mem
    requires Settled(s, s.index[op.key]) && s.place[s.index[op.key]] == Linked
    requires s.mem[s.index[op.key]].base.key == op.key
    ensures RegionInv(s', r) && RegionInv(s', s.index[op.key]) && ThreadInv(s', t)
    ensures Local(s, s', t, {r, s.index[op.key]})
  {
    Carry(s, s', s.mem[r].base);
    Carry(s, s', s.mem[s.index[op.key]].base);
  }

  lemma ReplaceInv(s: State, s': State, t: Thread, op: Op, r: Region)
    requires Inv(s) && Replace(s, s', t, op, r)
    ensures Inv(s')
  {
    var prev := s.index[op.key];
    ReplaceForward(s, s', t, op, r);
    LoadedVersion(s, op.key);
    ReplaceLocal(s, s', t, op, r);
    AcksStay(s, s');
    LinkedStay(s, s', op.key, {r, prev});
    ReadersStay(s, s', t, {r, prev});
    Glue(s, s', t, {r, prev});
  }

  lemma LinkInv(s: State, s': State, t: Thread)
    requires Inv(s) && LinkStep(s, s', t)
    requires s.pc[t].job.op.kind.Upsert? || s.pc[t].job.op.key in s.index
    ensures Inv(s')
  {
    var op, r := s.pc[t].job.op, s.pc[t].job.addr;
    assert ThreadInv(s, t);
    if op.key !in s.index {
      JobCanLink(s, t);
      InsertInv(s, s', t, op, r);
    } else if VersionAt(s, op.key) >= op.version {
      ExpiredInv(s, s', t);
    } else {
      LoadedVersion(s, op.key);
      JobCanLink(s, t);
      ReplaceInv(s, s', t, op, r);
    }
  }

  lemma RetireInv(s: State, s': State, t: Thread)
    requires Inv(s) && RetireStep(s, s', t)
    ensures Inv(s')
  {
    var v, op := s.pc[t].victim, s.pc[t].op;
    assert ThreadInv(s, t);
    RetireLocal(s, s', t);
    forall k | k in s'.index ensures KeyInv(s', k) { assert KeyInv(s, k); }
    AcksStay(s, s');
    LinkedStay(s, s', op.key, {v});
    ReadersStay(s, s', t, {v});
    Glue(s, s', t, {v});
  }

  lemma RetireLocal(s: State, s': State, t: Thread)
    requires Inv(s) && RetireStep(s, s', t)
    ensures Domains(s') && s.pc[t].victim in s'.mem && RegionInv(s', s.pc[t].victim)
    ensures Local(s, s', t, {s.pc[t].victim})
  {
    var v := s.pc[t].victim;
    assert ThreadInv(s, t);
    OffIndex(s, s', v);
    assert RegionInv(s', v) by { Carry(s, s', s.mem[v].base); }
    forall q <- s.mem | q != v ensures s.place[q] != Held(t) { assert RegionInv(s, q); }
  }
}
