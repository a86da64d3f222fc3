/**
  How an operation writes its record: the store and write-back sequence shared by upsert, update
  and remove, one machine store or one fenced write-back at a time.
 */
module RecordWrite {
  import opened RecordMemory

  /** The next thing the writing thread does to its record. */
  datatype Stage = Invalidate | FlushInvalid | Fill | FlushFill | Control | FlushControl | Publish | FlushToken | Link

  /** A record being written at addr: by reuse of the garbage record `prior`, or fresh. */
  datatype Job = Job(op: Op, addr: nat, reuse: bool, prior: Record, stage: Stage, todo: set<Store>) {
    predicate Same() {
      SameLine(addr, op.Length())
    }
  }

  ghost function FreshJob(op: Op, addr: nat, prior: Record): Job {
    Job(op, addr, false, prior, Fill, op.Payload())
  }

  ghost function ReuseJob(op: Op, addr: nat, prior: Record): Job {
    Job(op, addr, true, prior, Invalidate, op.Payload())
  }

  /** One step on the record.  make_kv issues its stores in any order; `s` is the one chosen. */
  ghost predicate WriteStep(j: Job, m: Mem, j': Job, m': Mem, s: Store) {
    match j.stage
    case Invalidate =>
      m' == m.(log := m.log + [PutCtrl(Invalid)]) && j' == j.(stage := if j.Same() then Fill else FlushInvalid)
    case FlushInvalid =>
      m' == WriteBack(j.addr, m, HEADER) && j' == j.(stage := Fill)
    case Fill =>
      if j.todo != {} then
        s in j.todo && m' == m.(log := m.log + [s]) && j' == j.(todo := j.todo - {s})
      else
        m' == m && j' == j.(stage := if !j.reuse || j.Same() then Control else FlushFill)
    case FlushFill =>
      m' == WriteBack(j.addr, m, j.op.Length()) && j' == j.(stage := Control)
    case Control =>
      m' == m.(log := m.log + [PutCtrl(j.op.Control())]) && j' == j.(stage := FlushControl)
    case FlushControl =>
      && m' == WriteBack(j.addr, m, if !j.reuse || j.Same() then j.op.Length() else HEADER)
      && j' == j.(stage := if !j.reuse then Publish else Link)
    case _ => false
  }

  /** Every pending store is a payload store, and those not pending are still to do. */
  ghost predicate Fills(j: Job, log: seq<Store>) {
    && (forall s <- log :: s in j.op.Payload())
    && (forall s <- j.op.Payload() :: s in j.todo || s in log)
  }

  /** What is durable and what is pending at each stage. */
  ghost predicate Shape(j: Job, m: Mem) {
    && Fits(m.base, j.op)
    && j.todo <= j.op.Payload()
    && match j.stage
       case Invalidate => j.reuse && m == Mem(j.prior, []) && j.todo == j.op.Payload()
       case FlushInvalid => j.reuse && !j.Same() && m == Mem(j.prior, [PutCtrl(Invalid)]) && j.todo == j.op.Payload()
       case Fill => Filling(j, m)
       case FlushFill => Filling(j, m) && j.todo == {} && j.reuse && !j.Same()
       case Control =>
         if !j.reuse || j.Same() then Filling(j, m) && j.todo == {}
         else m.log == [] && m.base.ctrl == Invalid && Filled(m.base, j.op)
       case FlushControl =>
         && m.log != [] && m.log[|m.log| - 1] == PutCtrl(j.op.Control())
         && var m0 := m.(log := m.log[..|m.log| - 1]);
         if !j.reuse || j.Same() then Filling(j, m0) && j.todo == {}
         else m0.log == [] && m.base.ctrl == Invalid && Filled(m.base, j.op)
       case _ => m.log == [] && Whole(m.base, j.op) && (j.stage != Link ==> !j.reuse)
  }

  ghost predicate Filling(j: Job, m: Mem) {
    if !j.reuse then Fills(j, m.log)
    else if j.Same() then m.base == j.prior && m.log != [] && m.log[0] == PutCtrl(Invalid) && Fills(j, m.log[1..])
    else m.base.ctrl == Invalid && Fills(j, m.log)
  }

  /** The three things a crash may leave of a record that is being rewritten in place. */
  ghost predicate OldInvalidOrNew(j: Job, im: Record) {
    im == j.prior || im.ctrl == Invalid || Whole(im, j.op)
  }

  /**
    When the record may be linked it is durable and says what the operation meant: a tombstone for a
    remove, the value else.
   */
  lemma LinkedIs(j: Job, m: Mem)
    requires j.stage == Link && Shape(j, m)
    ensures m.log == [] && m.base.ctrl.Valid? && m.base.ctrl.version == j.op.version
    ensures m.base.ctrl.tomb <==> j.op.kind == Remove
    ensures m.base.key == j.op.key && m.base.vlen == |j.op.value| <= |m.base.value|
            && m.base.value[..m.base.vlen] == j.op.value
  {
  }

  lemma FillStep(j: Job, m: Mem, s: Store)
    requires j.stage == Fill && Shape(j, m) && s in j.todo
    ensures Shape(j.(todo := j.todo - {s}), m.(log := m.log + [s]))
  {
    var j', m' := j.(todo := j.todo - {s}), m.(log := m.log + [s]);
    if j.reuse && j.Same() {
      assert m'.log[1..] == m.log[1..] + [s];
    }
  }

  /** A fenced write-back of the whole record makes a filled log durable. */
  lemma FlushFilled(j: Job, m: Mem, len: nat)
    requires Fits(m.base, j.op) && Fills(j, m.log) && j.todo == {} && len == j.op.Length()
    ensures var m' := WriteBack(j.addr, m, len);
            m'.log == [] && m'.base.ctrl == m.base.ctrl && Filled(m'.base, j.op) && |m'.base.value| == |m.base.value|
  {
    var cut := KeepLines(j.addr, len, |m.log|);
    forall s <- j.op.Payload() ensures InRange(j.addr, len, LineOf(j.addr, s)) {
      PayloadOffset(j.op, s);
      OffsetInRange(j.addr, len, s);
    }
    OutsideEmpty(m.log, j.addr, len);
    ReplayShape(m.base, m.log, j.addr, cut);
    forall s <- j.op.Payload() ensures Holds(Replay(m.base, m.log, j.addr, cut), s) {
      ReplayHolds(m.base, m.log, j.addr, cut, j.op, s);
    }
  }

  /** Peeling the first store off: it survives exactly when its line keeps anything. */
  lemma {:induction false} ReplayFirst(im: Record, log: seq<Store>, addr: nat, cut: nat -> nat)
      returns (cut': nat -> nat)
    requires log != []
    ensures forall l: nat :: cut'(l) == if cut(l) > 0 then cut(l) - 1 else 0
    ensures Replay(im, log, addr, cut) ==
            Replay(if cut(LineOf(addr, log[0])) > 0 then Put(im, log[0]) else im, log[1..], addr, cut')
  {
    cut' := (l: nat) => if cut(l) > 0 then cut(l) - 1 else 0;
    ReplayTail(im, log, addr, cut, cut');
  }

  lemma {:induction false} ReplayTail(im: Record, log: seq<Store>, addr: nat, cut: nat -> nat, cut': nat -> nat)
    requires log != []
    requires forall l: nat :: cut'(l) == if cut(l) > 0 then cut(l) - 1 else 0
    ensures Replay(im, log, addr, cut) ==
            Replay(if cut(LineOf(addr, log[0])) > 0 then Put(im, log[0]) else im, log[1..], addr, cut')
  {
    var n := |log| - 1;
    if n > 0 {
      ReplayTail(im, log[..n], addr, cut, cut');
      assert log[..n][1..] == log[1..][..n - 1];
    }
  }

  /** A line that keeps nothing leaves the image alone. */
  lemma {:induction false} NothingKept(im: Record, log: seq<Store>, addr: nat, cut: nat -> nat, line: nat)
    requires forall s <- log :: LineOf(addr, s) == line
    requires cut(line) == 0
    ensures Replay(im, log, addr, cut) == im
  {
    if log != [] {
      assert log[|log| - 1] in log;
      NothingKept(im, log[..|log| - 1], addr, cut, line);
    }
  }

  /** While the garbage record is refilled within one line, a crash shows the old record or an invalid one. */
  lemma SameLineFilling(j: Job, m: Mem, cut: nat -> nat)
    requires j.reuse && j.Same() && Fits(m.base, j.op) && Filling(j, m)
    ensures var im := Replay(m.base, m.log, j.addr, cut);
            if cut(j.addr / LINE) == 0 then im == j.prior else im.ctrl == Invalid
    ensures cut(j.addr / LINE) >= |m.log| && j.todo == {} ==> Filled(Replay(m.base, m.log, j.addr, cut), j.op)
    ensures |Replay(m.base, m.log, j.addr, cut).value| == |m.base.value|
  {
    var line := j.addr / LINE;
    forall s <- m.log ensures LineOf(j.addr, s) == line {
      assert s == m.log[0] || s in m.log[1..];
      SameLineStore(j.addr, j.op, s);
    }
    ReplayShape(m.base, m.log, j.addr, cut);
    if cut(line) == 0 {
      NothingKept(m.base, m.log, j.addr, cut, line);
    } else {
      var cut' := ReplayFirst(m.base, m.log, j.addr, cut);
      var im := Put(m.base, m.log[0]);
      ReplayShape(im, m.log[1..], j.addr, cut');
      if cut(line) >= |m.log| && j.todo == {} {
        forall s <- j.op.Payload() ensures Holds(Replay(im, m.log[1..], j.addr, cut'), s) {
          SameLineStore(j.addr, j.op, s);
          ReplayHolds(im, m.log[1..], j.addr, cut', j.op, s);
        }
      }
    }
  }

  /** The stage invariant survives every step. */
  lemma WriteKeepsShape(j: Job, m: Mem, j': Job, m': Mem, s: Store)
    requires Shape(j, m) && WriteStep(j, m, j', m', s)
    ensures Shape(j', m')
    ensures |m'.base.value| == |m.base.value|
  {
    match j.stage
    case Invalidate =>
    case FlushInvalid =>
      OffsetInRange(j.addr, HEADER, PutCtrl(Invalid));
      OutsideEmpty(m.log, j.addr, HEADER);
      ReplayShape(m.base, m.log, j.addr, KeepLines(j.addr, HEADER, |m.log|));
      assert m.log[..0] == [];
    case Fill =>
      if j.todo != {} { FillStep(j, m, s); }
    case FlushFill =>
      FlushFilled(j, m, j.op.Length());
    case Control =>
      assert m'.log[..|m'.log| - 1] == m.log;
    case FlushControl =>
      FlushControlStep(j, m, m');
    case _ =>
  }

  /** The last flush covers the line of every pending store. */
  lemma FlushReaches(j: Job, m: Mem, s: Store)
    requires Shape(j, m) && j.stage == FlushControl && s in m.log
    ensures InRange(j.addr, if !j.reuse || j.Same() then j.op.Length() else HEADER, LineOf(j.addr, s))
  {
    var n := |m.log| - 1;
    var m0 := m.(log := m.log[..n]);
    assert s == m.log[n] || s in m0.log;
    if s in m0.log && j.reuse && j.Same() { assert s == m0.log[0] || s in m0.log[1..]; }
    if !s.PutCtrl? { PayloadOffset(j.op, s); }
    OffsetInRange(j.addr, if !j.reuse || j.Same() then j.op.Length() else HEADER, s);
  }

  lemma FlushControlStep(j: Job, m: Mem, m': Mem)
    requires Shape(j, m) && j.stage == FlushControl
    requires m' == WriteBack(j.addr, m, if !j.reuse || j.Same() then j.op.Length() else HEADER)
    ensures m'.log == [] && Whole(m'.base, j.op) && |m'.base.value| == |m.base.value|
  {
    var n := |m.log| - 1;
    var m0 := m.(log := m.log[..n]);
    var len := if !j.reuse || j.Same() then j.op.Length() else HEADER;
    var cut := KeepLines(j.addr, len, |m.log|);
    var before := Replay(m.base, m0.log, j.addr, cut);
    forall s <- m.log ensures InRange(j.addr, len, LineOf(j.addr, s)) { FlushReaches(j, m, s); }
    OutsideEmpty(m.log, j.addr, len);
    ReplayShape(m.base, m0.log, j.addr, cut);
    assert m.log[n] in m.log;
    assert Filled(before, j.op) by {
      if j.reuse && j.Same() {
        assert InRange(j.addr, len, j.addr / LINE);
        SameLineFilling(j, m0, cut);
      } else if !j.reuse {
        forall s <- j.op.Payload() ensures Holds(before, s) {
          assert s in m0.log;
          assert s in m.log;
          ReplayHolds(m.base, m0.log, j.addr, cut, j.op, s);
        }
      }
    }
    forall s <- j.op.Payload() ensures Holds(Put(before, m.log[n]), s) {
      assert Holds(before, s);
    }
    FilledIsWhole(m'.base, j.op);
  }

  /** While the control word is on its way: the old record, an invalid one or the new one. */
  lemma ControlIsTornFree(j: Job, m: Mem, cut: nat -> nat)
    requires j.reuse && j.stage == FlushControl && Shape(j, m)
    ensures OldInvalidOrNew(j, Replay(m.base, m.log, j.addr, cut))
  {
    var im := Replay(m.base, m.log, j.addr, cut);
    var n := |m.log| - 1;
    var m0 := m.(log := m.log[..n]);
    ReplayShape(m.base, m0.log, j.addr, cut);
    if j.Same() {
      SameLineFilling(j, m0, cut);
      SameLineStore(j.addr, j.op, m.log[n]);
      if n < cut(j.addr / LINE) {
        var before := Replay(m.base, m0.log, j.addr, cut);
        forall s <- j.op.Payload() ensures Holds(im, s) { assert Holds(before, s); }
        FilledIsWhole(im, j.op);
      }
    } else if im.ctrl != Invalid {
      forall s <- j.op.Payload() ensures Holds(im, s) { assert Holds(m.base, s); }
      FilledIsWhole(im, j.op);
    }
  }

  /**
    Reuse without a log is crash atomic: at every point of rewriting a garbage record, whatever
    prefix each cache line keeps, persistent memory holds the old record, an invalid record or the
    complete new one.
   */
  lemma ReuseIsTornFree(j: Job, m: Mem, im: Record)
    requires j.reuse && Shape(j, m) && CrashImage(j.addr, m, im)
    ensures OldInvalidOrNew(j, im)
    ensures j.stage in {Invalidate, FlushInvalid, Fill, FlushFill, Control} ==> im.ctrl == Invalid || im == j.prior
    ensures j.stage == Link ==> Whole(im, j.op)
  {
    var cut: nat -> nat :| im == Replay(m.base, m.log, j.addr, cut);
    ReplayShape(m.base, m.log, j.addr, cut);
    match j.stage
    case Invalidate =>
    case FlushInvalid =>
      assert m.log[..0] == [];
    case FlushControl =>
      ControlIsTornFree(j, m, cut);
    case Fill =>
      if j.Same() { SameLineFilling(j, m, cut); }
    case Control =>
      if j.Same() { SameLineFilling(j, m, cut); }
    case _ =>
  }
}
