/**
  One key-value record in persistent memory, byte layout and cache lines included.

  A record is a `KVPair`: an eight-byte control word at offset 0, the key at 8, the value length at
  16 and the value bytes from 20 on.  A region's memory is the part known to be durable (`base`)
  and the stores issued since (`log`, in program order).  A crash keeps, of every cache line, some
  prefix of that line's pending stores; a fenced write-back makes all stores of its lines durable.
 */
module RecordMemory {
  import opened Basics

  const LINE: nat := 64    // kCacheLineSize
  const HEADER: nat := 24  // sizeof(KVPair)
  const VALUE: nat := 20   // offset of the value bytes

  /** A key together with its hash code. */
  datatype Key = Key(id: int, code: nat)

  /** Decoded control word; see module ControlWord for its bits. */
  datatype Ctrl = Invalid | Valid(version: nat, tomb: bool)

  datatype Record = Record(ctrl: Ctrl, key: Key, vlen: nat, value: seq<int>)

  /** One machine store into a record. */
  datatype Store = PutCtrl(ctrl: Ctrl) | PutKey(key: Key) | PutLen(len: nat) | PutByte(at: nat, byte: int)

  datatype Mem = Mem(base: Record, log: seq<Store>)

  datatype Kind = Upsert | Update | Remove

  /** An operation that has taken its version. */
  datatype Op = Op(kind: Kind, key: Key, value: seq<int>, version: nat) {
    function Control(): Ctrl {
      Valid(version, kind.Remove?)
    }

    /** kv_len */
    function Length(): nat {
      HEADER + |value|
    }

    /** The stores of make_kv. */
    ghost function Payload(): set<Store> {
      {PutKey(key), PutLen(|value|)} + set i | 0 <= i < |value| :: PutByte(i, value[i])
    }
  }

  function Offset(s: Store): nat {
    match s
    case PutCtrl(_) => 0
    case PutKey(_) => 8
    case PutLen(_) => 16
    case PutByte(i, _) => VALUE + i
  }

  function LineOf(addr: nat, s: Store): nat {
    (addr + Offset(s)) / LINE
  }

  function Put(im: Record, s: Store): Record {
    match s
    case PutCtrl(c) => im.(ctrl := c)
    case PutKey(k) => im.(key := k)
    case PutLen(n) => im.(vlen := n)
    case PutByte(i, b) => if i < |im.value| then im.(value := im.value[i := b]) else im
  }

  /** The image left when line l keeps those of its stores that stand before position cut(l) of the log. */
  ghost function Replay(im: Record, log: seq<Store>, addr: nat, cut: nat -> nat): Record {
    if log == [] then im else
    var n := |log| - 1;
    var before := Replay(im, log[..n], addr, cut);
    if n < cut(LineOf(addr, log[n])) then Put(before, log[n]) else before
  }

  ghost predicate CrashImage(addr: nat, m: Mem, im: Record) {
    exists cut: nat -> nat :: im == Replay(m.base, m.log, addr, cut)
  }

  predicate InRange(addr: nat, len: nat, line: nat) {
    addr / LINE <= line && line * LINE < addr + len
  }

  function Outside(log: seq<Store>, addr: nat, len: nat): seq<Store> {
    if log == [] then [] else
    var n := |log| - 1;
    Outside(log[..n], addr, len) + if InRange(addr, len, LineOf(addr, log[n])) then [] else [log[n]]
  }

  /** Keep all n pending stores of the lines of [addr, addr + len), none of the others. */
  ghost function KeepLines(addr: nat, len: nat, n: nat): nat -> nat {
    (l: nat) => if InRange(addr, len, l) then n else 0
  }

  ghost function KeepAll(n: nat): nat -> nat {
    (l: nat) => n
  }

  /** wait_write_back(addr, len) */
  ghost function WriteBack(addr: nat, m: Mem, len: nat): Mem {
    Mem(Replay(m.base, m.log, addr, KeepLines(addr, len, |m.log|)), Outside(m.log, addr, len))
  }

  /** What a load sees: every store applied. */
  ghost function View(m: Mem): Record {
    Replay(m.base, m.log, 0, KeepAll(|m.log|))
  }

  /** The test that picks the one-line branch: it looks at the byte after the record as well. */
  predicate SameLine(addr: nat, len: nat) {
    addr / LINE == (addr + len) / LINE
  }

  /** The image holds the stored value of s. */
  predicate Holds(im: Record, s: Store) {
    match s
    case PutCtrl(c) => im.ctrl == c
    case PutKey(k) => im.key == k
    case PutLen(n) => im.vlen == n
    case PutByte(i, b) => i < |im.value| && im.value[i] == b
  }

  ghost predicate Filled(im: Record, op: Op) {
    forall s <- op.Payload() :: Holds(im, s)
  }

  /** The image is op's record, completely written. */
  ghost predicate Whole(im: Record, op: Op) {
    && im.ctrl == Valid(op.version, op.kind == Remove)
    && im.key == op.key && im.vlen == |op.value| && op.value <= im.value
  }

  /** What a caller of lookup gets from a record: nothing from a tombstone, else the value. */
  function Found(im: Record): Option<seq<int>> {
    if im.ctrl.Valid? && im.ctrl.tomb then None
    else Some(if im.vlen <= |im.value| then im.value[..im.vlen] else im.value)
  }

  /** What a caller should get of an operation's key. */
  function Meant(op: Op): Option<seq<int>> {
    if op.kind == Remove then None else Some(op.value)
  }

  /** A record written whole answers what its operation meant. */
  lemma WholeFound(im: Record, op: Op)
    requires Whole(im, op)
    ensures Found(im) == Meant(op)
  {
    assert im.value[..im.vlen] == op.value;
  }

  predicate Fits(im: Record, op: Op) {
    |op.value| + HEADER - VALUE <= |im.value|
  }

  lemma FilledIsWhole(im: Record, op: Op)
    requires Filled(im, op) && im.ctrl == op.Control()
    ensures Whole(im, op)
  {
    if op.value != [] {
      assert PutByte(|op.value| - 1, op.value[|op.value| - 1]) in op.Payload();
    }
    assert Holds(im, PutKey(op.key)) && Holds(im, PutLen(|op.value|));
    forall i | 0 <= i < |op.value| ensures i < |im.value| && im.value[i] == op.value[i] {
      assert PutByte(i, op.value[i]) in op.Payload();
      assert Holds(im, PutByte(i, op.value[i]));
    }
  }

  /** No pending store leaves only the durable image. */
  lemma QuietImage(addr: nat, m: Mem, im: Record)
    requires m.log == [] && CrashImage(addr, m, im)
    ensures im == m.base
  {
  }

  lemma {:induction false} ReplayShape(im: Record, log: seq<Store>, addr: nat, cut: nat -> nat)
    ensures |Replay(im, log, addr, cut).value| == |im.value|
    ensures (forall s <- log :: !s.PutCtrl?) ==> Replay(im, log, addr, cut).ctrl == im.ctrl
  {
    if log != [] {
      ReplayShape(im, log[..|log| - 1], addr, cut);
    }
  }

  /** Stores of one payload never overwrite each other. */
  lemma {:induction false} ReplayHolds(im: Record, log: seq<Store>, addr: nat, cut: nat -> nat, op: Op, s: Store)
    requires forall q <- log :: q in op.Payload()
    requires s in op.Payload() && Fits(im, op)
    requires Holds(im, s) || exists j | 0 <= j < |log| :: log[j] == s && j < cut(LineOf(addr, s))
    ensures Holds(Replay(im, log, addr, cut), s)
  {
    if log != [] {
      var n := |log| - 1;
      ReplayShape(im, log[..n], addr, cut);
      assert log[n] in op.Payload();
      if log[n] == s && n < cut(LineOf(addr, s)) {
      } else {
        ReplayHolds(im, log[..n], addr, cut, op, s);
      }
    }
  }

  lemma {:induction false} OutsideEmpty(log: seq<Store>, addr: nat, len: nat)
    requires forall s <- log :: InRange(addr, len, LineOf(addr, s))
    ensures Outside(log, addr, len) == []
  {
    if log != [] {
      assert log[|log| - 1] in log;
      OutsideEmpty(log[..|log| - 1], addr, len);
    }
  }

  /** Lines of an address range cover the stores at offsets inside it. */
  lemma OffsetInRange(addr: nat, len: nat, s: Store)
    requires Offset(s) < len
    ensures InRange(addr, len, LineOf(addr, s))
  {
  }

  lemma PayloadOffset(op: Op, s: Store)
    requires s in op.Payload()
    ensures Offset(s) < op.Length()
  {
  }

  lemma SameLineStore(addr: nat, op: Op, s: Store)
    requires SameLine(addr, op.Length()) && (s in op.Payload() || s.PutCtrl?)
    ensures LineOf(addr, s) == addr / LINE
  {
    if s in op.Payload() { PayloadOffset(op, s); }
  }
}
