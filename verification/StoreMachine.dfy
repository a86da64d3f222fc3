/**
  The store as a step machine: any number of threads run upsert, update, remove and lookup, one
  atomic action at a time, over persistent records, their tokens, the index, the version table and
  the epoch and limbo machinery that recycles garbage records; the machine may crash at any point
  and recover by a full scan.

  Read against the code, `index` is the hash table seen as a map (module HashTable shows that view),
  an epoch retirement may run once no reader holds the record, and a region's `place` says which
  container outside the index holds it.
 */
module StoreMachine {
  import opened Basics
  import opened RecordMemory
  import opened RecordWrite
  import opened Recovery

  type Thread = nat

  /** The in-use bit of a region's token: the durable value and the stores pending since. */
  datatype Token = Token(base: bool, pending: seq<bool>)

  datatype Pc =
    | Idle
    | Begun(op: Op)
    | Writing(job: Job)
    | Unlinking(op: Op, victim: Region)
    | Reading(key: Key, at: Region)

  datatype Place = Free | Held(holder: Thread) | Linked | Retired | Limbo(owner: Thread) | Firing

  /**
    `begun`, `acked` and `claim` record history: operations that took a version, operations that
    returned, and who took a version of a key last.
   */
  datatype State = State(
    mem: map<Region, Mem>, token: map<Region, Token>, place: map<Region, Place>,
    index: map<Key, Region>, ver: seq<nat>, pc: map<Thread, Pc>,
    begun: set<Op>, acked: set<Op>, claim: map<(Key, nat), Op>)

  /**
    A crash and the recovery from it: what the crash left, the scans that further crashes cut off, the
    order of the scan that completes, and the losers still waiting for their epoch when it has.
   */
  datatype Outage = Outage(img: map<Region, Record>, busy: set<Region>, cuts: seq<CutScan>, order: seq<Region>,
    late: set<Region>)

  datatype Step =
    | Begin(t: Thread, kind: Kind, key: Key, value: seq<int>)
    | TakeLimbo(t: Thread, r: Region)
    | TakeFresh(t: Thread, r: Region)
    | Write(t: Thread, job: Job, mem: Mem, store: Store)
    | PublishToken(t: Thread)
    | AwaitToken(t: Thread)
    | LinkRecord(t: Thread)
    | RetireVictim(t: Thread)
    | Lookup(t: Thread, key: Key)
    | EndRead(t: Thread, answer: Option<seq<int>>)
    | Recycle(t: Thread, r: Region)
    | Fire(r: Region)
    | AwaitFire(r: Region)
    | CrashRecover(o: Outage)

  function LoadVersion(c: Ctrl): nat {
    if c.Valid? then c.version else 0
  }

  /** The version the index sees for a key. */
  ghost function VersionAt(s: State, k: Key): nat
    requires k in s.index && s.index[k] in s.mem
  {
    LoadVersion(View(s.mem[s.index[k]]).ctrl)
  }

  /** version_[code % N]++ */
  ghost predicate BeginStep(s: State, s': State, t: Thread, kind: Kind, key: Key, value: seq<int>) {
    && t in s.pc && s.pc[t].Idle? && |s.ver| == SLOTS
    && (kind.Remove? ==> value == [])
    && var v := s.ver[SlotOf(key)];
    var op := Op(kind, key, value, v);
    s' == s.(ver := s.ver[SlotOf(key) := v + 1], pc := s.pc[t := Begun(op)],
             begun := s.begun + {op}, claim := s.claim[(key, v) := op])
  }

  ghost predicate TakeStep(s: State, s': State, t: Thread, r: Region, limbo: bool) {
    && t in s.pc && s.pc[t].Begun? && r in s.place && r in s.mem
    && s.place[r] == (if limbo then Limbo(t) else Free)
    && var op := s.pc[t].op;
    && Fits(s.mem[r].base, op)
    && var job := if limbo then ReuseJob(op, r, s.mem[r].base) else FreshJob(op, r, s.mem[r].base);
    s' == s.(place := s.place[r := Held(t)], pc := s.pc[t := Writing(job)])
  }

  ghost predicate RecordStep(s: State, s': State, t: Thread, job': Job, mem': Mem, store: Store) {
    && t in s.pc && s.pc[t].Writing?
    && var job := s.pc[t].job;
    && job.addr in s.mem
    && WriteStep(job, s.mem[job.addr], job', mem', store)
    && s' == s.(mem := s.mem[job.addr := mem'], pc := s.pc[t := Writing(job')])
  }

  /** obj.publish: the store of the token, then its fenced write-back. */
  ghost predicate TokenStep(s: State, s': State, t: Thread, flush: bool) {
    && t in s.pc && s.pc[t].Writing?
    && var job := s.pc[t].job;
    && job.addr in s.token
    && var tok := s.token[job.addr];
    if flush then
      && job.stage == FlushToken && tok.pending != []
      && s' == s.(token := s.token[job.addr := Token(tok.pending[|tok.pending| - 1], [])],
                  pc := s.pc[t := Writing(job.(stage := Link))])
    else
      && job.stage == Publish
      && s' == s.(token := s.token[job.addr := tok.(pending := tok.pending + [true])],
                  pc := s.pc[t := Writing(job.(stage := FlushToken))])
  }

  /** The index operation and the branches on its answer; the branches for a missing key are the code's. */
  ghost predicate LinkStep(s: State, s': State, t: Thread) {
    && t in s.pc && s.pc[t].Writing? && s.pc[t].job.stage == Link
    && var op, r := s.pc[t].job.op, s.pc[t].job.addr;
    if op.key !in s.index then
      match op.kind
      case Upsert =>
        s' == s.(index := s.index[op.key := r], place := s.place[r := Linked], pc := s.pc[t := Idle],
          acked := s.acked + {op})
      case Update =>
        s' == s.(place := s.place[r := Limbo(t)], pc := s.pc[t := Idle])
      case Remove =>
        s' == s.(index := s.index[op.key := r], place := s.place[r := Limbo(t)], pc := s.pc[t := Idle])
    else
      var prev := s.index[op.key];
      && prev in s.mem
      && if VersionAt(s, op.key) >= op.version then
           s' == s.(pc := s.pc[t := Unlinking(op, r)])
         else
           s' == s.(index := s.index[op.key := r], place := s.place[r := Linked][prev := Held(t)],
                    pc := s.pc[t := Unlinking(op, prev)])
  }

  ghost predicate RetireStep(s: State, s': State, t: Thread) {
    && t in s.pc && s.pc[t].Unlinking?
    && s' == s.(place := s.place[s.pc[t].victim := Retired], pc := s.pc[t := Idle], acked := s.acked + {s.pc[t].op})
  }

  /** index_.lookup: a key that is not in the index is answered at once. */
  ghost predicate LookupStep(s: State, s': State, t: Thread, k: Key) {
    && t in s.pc && s.pc[t].Idle?
    && s' == if k in s.index then s.(pc := s.pc[t := Reading(k, s.index[k])]) else s
  }

  /** The tombstone test and the caller's reading of the value, up to where the caller lets go of the record. */
  ghost predicate EndReadStep(s: State, s': State, t: Thread, answer: Option<seq<int>>) {
    && t in s.pc && s.pc[t].Reading? && s.pc[t].at in s.mem
    && answer == Found(View(s.mem[s.pc[t].at])) && s' == s.(pc := s.pc[t := Idle])
  }

  /** The epoch lets a retirement run only when no reader can still hold the record. */
  ghost predicate Unread(s: State, r: Region) {
    forall t <- s.pc :: s.pc[t].Reading? ==> s.pc[t].at != r
  }

  ghost predicate RecycleStep(s: State, s': State, t: Thread, r: Region) {
    && t in s.pc && r in s.place && s.place[r].Retired? && Unread(s, r)
    && s' == s.(place := s.place[r := Limbo(t)])
  }

  ghost predicate FireStep(s: State, s': State, r: Region) {
    && r in s.place && r in s.token && s.place[r].Retired? && Unread(s, r)
    && s' == s.(place := s.place[r := Firing],
       token := s.token[r := s.token[r].(pending := s.token[r].pending + [false])])
  }

  ghost predicate AwaitFireStep(s: State, s': State, r: Region) {
    && r in s.place && r in s.token && s.place[r].Firing? && s.token[r].pending != []
    && s' == s.(place := s.place[r := Free],
                token := s.token[r := Token(s.token[r].pending[|s.token[r].pending| - 1], [])])
  }

  /** What a crash may leave: per region a record image, and the set of regions whose token reads busy. */
  ghost predicate Crash(s: State, img: map<Region, Record>, busy: set<Region>) {
    && img.Keys == s.mem.Keys && busy <= s.token.Keys && s.token.Keys == s.mem.Keys
    && (forall r <- img :: CrashImage(r, s.mem[r], img[r]))
    && (forall r <- s.token :: (r in busy) == s.token[r].base || (r in busy) in s.token[r].pending)
  }

  ghost function Objects(img: map<Region, Record>, busy: set<Region>): map<Region, Object>
    requires busy <= img.Keys
  {
    map r | r in busy :: Kv(img[r])
  }

  ghost predicate RecoverStep(s: State, s': State, o: Outage) {
    && Crash(s, o.img, o.busy)
    && var objs := Objects(o.img, o.busy);
    && CutOff(objs, o.cuts)
    && var left := Remaining(objs, o.cuts);
    && Enumerates(o.order, left)
    && var sc := ScanAll(left, o.order);
    && (forall r <- o.late :: r in sc.dropped && Usable(left, r))
    && s' == AfterScan(s, o.img, sc, o.late)
  }

  /**
    The store as the rebuild leaves it: winners indexed, late losers retired, everything else released,
    nobody running.
   */
  ghost function AfterScan(s: State, img: map<Region, Record>, sc: Scan, late: set<Region>): State {
    var kept := sc.index.Values;
    State(
      map r | r in img :: Mem(img[r], []),
      map r | r in img :: Token(r in kept || r in late, []),
      map r | r in img :: if r in kept then Linked else if r in late then Retired else Free,
      sc.index, sc.ver, map t | t in s.pc :: Idle, s.begun, s.acked, s.claim)
  }

  ghost predicate NextStep(s: State, s': State, a: Step) {
    match a
    case Begin(t, kind, key, value) => BeginStep(s, s', t, kind, key, value)
    case TakeLimbo(t, r) => TakeStep(s, s', t, r, true)
    case TakeFresh(t, r) => TakeStep(s, s', t, r, false)
    case Write(t, job, mem, store) => RecordStep(s, s', t, job, mem, store)
    case PublishToken(t) => TokenStep(s, s', t, false)
    case AwaitToken(t) => TokenStep(s, s', t, true)
    case LinkRecord(t) => LinkStep(s, s', t)
    case RetireVictim(t) => RetireStep(s, s', t)
    case Lookup(t, key) => LookupStep(s, s', t, key)
    case EndRead(t, answer) => EndReadStep(s, s', t, answer)
    case Recycle(t, r) => RecycleStep(s, s', t, r)
    case Fire(r) => FireStep(s, s', r)
    case AwaitFire(r) => AwaitFireStep(s, s', r)
    case CrashRecover(o) => RecoverStep(s, s', o)
  }

  /** update and remove are to be called on keys the store knows. */
  predicate CallAllowed(s: State, a: Step) {
    a.Begin? && !a.kind.Upsert? ==> a.key in s.index
  }

  ghost predicate Init(s: State) {
    && s.mem.Keys == s.token.Keys == s.place.Keys
    && (forall r <- s.mem :: s.mem[r].log == [] && s.token[r] == Token(false, []) && s.place[r] == Free)
    && s.index == map[] && s.ver == seq(SLOTS, _ => 0)
    && (forall t <- s.pc :: s.pc[t] == Idle)
    && s.begun == {} && s.acked == {} && s.claim == map[]
  }

  /** A run: states[i] steps to states[i + 1] by steps[i]. */
  ghost predicate Run(states: seq<State>, steps: seq<Step>) {
    && |states| == |steps| + 1 && Init(states[0])
    && forall i | 0 <= i < |steps| :: NextStep(states[i], states[i + 1], steps[i]) && CallAllowed(states[i], steps[i])
  }
}
