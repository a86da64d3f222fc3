/**
  What lookups answer: the value of the operation that was linked last before the lookup, or nothing if
  that was a remove or there was none.
 */
module Lookups {
  import opened Basics
  import opened RecordMemory
  import opened RecordWrite
  import opened Recovery
  import opened StoreMachine
  import opened StoreInvariant
  import opened Durability
  import opened Freshness

  // Who put a record where a key is found

  /** The step links op's record for its key, and not as an expired one. */
  ghost predicate Installs(s: State, s': State, a: Step, op: Op) {
    && a.LinkRecord? && a.t in s.pc && s.pc[a.t].Writing? && s.pc[a.t].job.op == op
    && a.t in s'.pc && s'.pc[a.t] != Unlinking(op, s.pc[a.t].job.addr)
  }

  /** Step j of a run puts op's record in place for k: by linking it, or by recovering it. */
  ghost predicate PutAt(states: seq<State>, steps: seq<Step>, j: nat, k: Key, op: Op) {
    && j < |steps| < |states| && op.key == k
    && if steps[j].CrashRecover? then
         && op in states[j].begun && k in states[j + 1].index && states[j + 1].index[k] in states[j + 1].mem
         && Whole(Recovered(states[j + 1], k), op)
       else Installs(states[j], states[j + 1], steps[j], op)
  }

  /** The step puts no other record in place for k, and is no crash. */
  ghost predicate Leaves(s: State, s': State, a: Step, k: Key) {
    !a.CrashRecover? && forall op: Op | op.key == k :: !Installs(s, s', a, op)
  }

  ghost predicate LeavesAt(states: seq<State>, steps: seq<Step>, k: Key, m: nat) {
    m < |steps| < |states| && Leaves(states[m], states[m + 1], steps[m], k)
  }

  /** From i to n no step puts another record in place for k, and nothing crashes. */
  ghost predicate Quietly(states: seq<State>, steps: seq<Step>, k: Key, i: nat, n: nat) {
    forall m: nat {:trigger LeavesAt(states, steps, k, m)} | i <= m < n :: LeavesAt(states, steps, k, m)
  }

  /** The key is found at op's record, which is whole. */
  ghost predicate FindsOp(s: State, k: Key, op: Op) {
    && k in s.index && s.index[k] in s.mem
    && s.mem[s.index[k]].log == [] && Whole(s.mem[s.index[k]].base, op)
  }

  lemma InstallFinds(s: State, s': State, a: Step, op: Op)
    requires Inv(s) && Known(s) && NextStep(s, s', a) && Installs(s, s', a, op)
    ensures FindsOp(s', op.key, op)
  {
    WriterAlone(s, a.t);
    assert KnownOp(s, s.pc[a.t]);
    if op.key in s.index { LoadedVersion(s, op.key); }
  }

  /** A step that neither installs a record for k nor crashes leaves what k finds. */
  lemma EntryStays(s: State, s': State, a: Step, k: Key)
    requires Inv(s) && Known(s) && NextStep(s, s', a) && Leaves(s, s', a, k)
    ensures Unmoved(s, s', k)
  {
    if LinksKey(s, a, k) {
      assert KnownOp(s, s.pc[a.t]) && !Installs(s, s', a, s.pc[a.t].job.op);
      if k in s.index { LoadedVersion(s, k); }
    } else {
      EntryUnmoved(s, s', a, k);
    }
  }

  /** What the run's invariant says of step n. */
  ghost predicate StepOk(states: seq<State>, steps: seq<Step>, n: nat)
    requires |states| == |steps| + 1
  {
    n < |steps| ==>
      Inv(states[n]) && Known(states[n]) && NextStep(states[n], states[n + 1], steps[n]) && Inv(states[n + 1])
  }

  ghost predicate Steady(states: seq<State>, steps: seq<Step>) {
    && |states| == |steps| + 1 && states[0].index == map[]
    && forall n: nat {:trigger StepOk(states, steps, n)} :: StepOk(states, steps, n)
  }

  lemma RunAt(states: seq<State>, steps: seq<Step>, n: nat)
    requires Run(states, steps) && n <= |steps|
    ensures Inv(states[n]) && Known(states[n])
  {
    var prefix, acts := states[..n + 1], steps[..n];
    assert Run(prefix, acts);
    RunInv(prefix, acts);
    assert prefix[|acts|] == states[n];
  }

  lemma RunIsSteady(states: seq<State>, steps: seq<Step>)
    requires Run(states, steps)
    ensures Steady(states, steps)
  {
    forall n: nat ensures StepOk(states, steps, n) {
      if n < |steps| {
        RunAt(states, steps, n);
        RunAt(states, steps, n + 1);
      }
    }
  }

  lemma EntryStaysAt(states: seq<State>, steps: seq<Step>, k: Key, n: nat)
    requires Steady(states, steps) && n < |steps| && LeavesAt(states, steps, k, n)
    ensures Unmoved(states[n], states[n + 1], k)
  {
    assert StepOk(states, steps, n);
    EntryStays(states[n], states[n + 1], steps[n], k);
  }

  /** Every record that the index leads to was put there by one step, and nothing replaced it since. */
  lemma {:induction false} Origin(states: seq<State>, steps: seq<Step>, k: Key, i: nat) returns (j: nat, op: Op)
    requires Steady(states, steps) && i <= |steps| && k in states[i].index
    ensures j < i && PutAt(states, steps, j, k, op) && Quietly(states, steps, k, j + 1, i) && FindsOp(states[i], k, op)
  {
    if i == 0 {
      assert false;
    } else if LeavesAt(states, steps, k, i - 1) {
      EntryStaysAt(states, steps, k, i - 1);
      j, op := Origin(states, steps, k, i - 1);
    } else {
      j := i - 1;
      op := PutHere(states, steps, k, j);
    }
  }

  lemma PutHere(states: seq<State>, steps: seq<Step>, k: Key, j: nat) returns (op: Op)
    requires Steady(states, steps) && j < |steps| && k in states[j + 1].index && !LeavesAt(states, steps, k, j)
    ensures PutAt(states, steps, j, k, op) && FindsOp(states[j + 1], k, op)
  {
    assert StepOk(states, steps, j);
    var s, s', a := states[j], states[j + 1], steps[j];
    if a.CrashRecover? {
      op := RecoveredOp(s, s', a.o, k);
    } else {
      op :| op.key == k && Installs(s, s', a, op);
      InstallFinds(s, s', a, op);
    }
  }

  lemma RecoveredOp(s: State, s': State, o: Outage, k: Key) returns (op: Op)
    requires Inv(s) && RecoverStep(s, s', o) && k in s'.index
    ensures op in s.begun && op.key == k && FindsOp(s', k, op)
  {
    RecoveredKey(s, s', o, k);
    op :| op in s.begun && Whole(Recovered(s', k), op);
  }

  /** A key that is in the index stays there. */
  lemma KeyStays(states: seq<State>, steps: seq<Step>, k: Key, n: nat)
    requires Steady(states, steps) && n < |steps| && k in states[n].index
    ensures k in states[n + 1].index
  {
    assert StepOk(states, steps, n);
    if steps[n].CrashRecover? {
      AckedKeysSurvive(states[n], states[n + 1], steps[n].o);
    } else {
      KeyKept(states[n], states[n + 1], steps[n], k);
    }
  }

  lemma KeyKept(s: State, s': State, a: Step, k: Key)
    requires NextStep(s, s', a) && !a.CrashRecover? && k in s.index
    ensures k in s'.index
  {
    if a.LinkRecord? {
      assert LinkStep(s, s', a.t);
    } else {
      assert s'.index == s.index;
    }
  }

  lemma {:induction false} NeverThere(states: seq<State>, steps: seq<Step>, k: Key, j: nat, i: nat)
    requires Steady(states, steps) && j <= i <= |steps| && k !in states[i].index
    ensures k !in states[j].index
    decreases i - j
  {
    if j < i {
      if k in states[i - 1].index { KeyStays(states, steps, k, i - 1); }
      NeverThere(states, steps, k, j, i - 1);
    }
  }

  // Readers

  /** A reader stays where it is until it lets go. */
  lemma ReaderStays(s: State, s': State, a: Step, t: Thread)
    requires NextStep(s, s', a) && t in s.pc && s.pc[t].Reading? && t in s'.pc && s'.pc[t].Reading?
    ensures s'.pc[t] == s.pc[t]
  {
    if a.CrashRecover? || a.Recycle? || a.Fire? || a.AwaitFire? {
    } else {
      assert a.t != t ==> s'.pc[t] == s.pc[t];
    }
  }

  /** What a reader reads does not change while it reads. */
  lemma ReadStays(s: State, s': State, a: Step, t: Thread)
    requires Inv(s) && NextStep(s, s', a) && !a.CrashRecover? && t in s.pc && s.pc[t].Reading?
    ensures s.pc[t].at in s.mem && s.pc[t].at in s'.mem && s'.mem[s.pc[t].at] == s.mem[s.pc[t].at]
  {
    assert ThreadInv(s, t);
    if a.Write? {
      WriterAlone(s, a.t);
    } else {
      assert s'.mem == s.mem;
    }
  }

  lemma ReadStaysAt(states: seq<State>, steps: seq<Step>, t: Thread, n: nat)
    requires Steady(states, steps) && n < |steps| && t in states[n].pc && states[n].pc[t].Reading?
    requires t in states[n + 1].pc && states[n + 1].pc[t].Reading?
    ensures states[n + 1].pc[t] == states[n].pc[t]
    ensures var r := states[n].pc[t].at;
            r in states[n].mem && r in states[n + 1].mem && states[n + 1].mem[r] == states[n].mem[r]
  {
    assert StepOk(states, steps, n);
    ReaderStays(states[n], states[n + 1], steps[n], t);
    ReadStays(states[n], states[n + 1], steps[n], t);
  }

  lemma FindsAt(states: seq<State>, steps: seq<Step>, t: Thread, k: Key, i: nat)
    requires Steady(states, steps) && i < |steps| && steps[i] == Lookup(t, k)
    requires t in states[i + 1].pc && states[i + 1].pc[t].Reading?
    ensures k in states[i].index && states[i].index[k] in states[i].mem
    ensures states[i + 1].pc[t] == Reading(k, states[i].index[k]) && states[i + 1].mem == states[i].mem
  {
    assert StepOk(states, steps, i);
    assert KeyInv(states[i], k);
  }

  /** t looks k up at i, finds something, and lets go of it at n. */
  ghost predicate ReadsFrom(states: seq<State>, steps: seq<Step>, t: Thread, k: Key, i: nat, n: nat) {
    && i < n < |steps| < |states| && steps[i] == Lookup(t, k) && steps[n].EndRead? && steps[n].t == t
    && forall m: nat {:trigger states[m]} | i < m <= n :: t in states[m].pc && states[m].pc[t].Reading?
  }

  lemma {:induction false} SameRecord(states: seq<State>, steps: seq<Step>, t: Thread, k: Key, i: nat, n: nat, m: nat)
    requires Steady(states, steps) && ReadsFrom(states, steps, t, k, i, n) && i < m <= n
    ensures k in states[i].index && states[i].index[k] in states[i].mem
    ensures var r := states[i].index[k];
            t in states[m].pc && states[m].pc[t] == Reading(k, r) && r in states[m].mem
              && states[m].mem[r] == states[i].mem[r]
  {
    assert t in states[m].pc && states[m].pc[t].Reading?;
    if m == i + 1 {
      FindsAt(states, steps, t, k, i);
    } else {
      SameRecord(states, steps, t, k, i, n, m - 1);
      ReadStaysAt(states, steps, t, m - 1);
    }
  }

  lemma QuietView(m: Mem)
    requires m.log == []
    ensures View(m) == m.base
  {
  }

  /** No operation on the key acknowledged so far is newer than the one whose record is found. */
  lemma NewestFound(s: State, k: Key, op: Op)
    requires Inv(s) && FindsOp(s, k, op)
    ensures forall a <- s.acked | a.key == k :: a.version <= op.version
  {
    forall a <- s.acked | a.key == k ensures a.version <= op.version { assert AckInv(s, a); }
  }

  /**
    A lookup that finds something answers for one operation: the one whose record a link or a recovery
    put in place last before the lookup, which is no older than any operation on the key acknowledged
    until then.  The answer is that operation's value, or nothing if it is a remove.
   */
  lemma LookupIsCurrent(states: seq<State>, steps: seq<Step>, t: Thread, k: Key, i: nat, n: nat)
      returns (j: nat, op: Op)
    requires Run(states, steps) && ReadsFrom(states, steps, t, k, i, n)
    ensures j < i && PutAt(states, steps, j, k, op) && Quietly(states, steps, k, j + 1, i)
    ensures steps[n].answer == if op.kind == Remove then None else Some(op.value)
    ensures forall a <- states[i].acked | a.key == k :: a.version <= op.version
  {
    RunIsSteady(states, steps);
    SameRecord(states, steps, t, k, i, n, n);
    j, op := Origin(states, steps, k, i);
    RunAt(states, steps, i);
    NewestFound(states[i], k, op);
    AnswerAt(states, steps, t, k, n, states[i].index[k], op);
  }

  lemma AnswerAt(states: seq<State>, steps: seq<Step>, t: Thread, k: Key, n: nat, r: Region, op: Op)
    requires Steady(states, steps) && n < |steps| && steps[n].EndRead? && steps[n].t == t
    requires t in states[n].pc && states[n].pc[t] == Reading(k, r) && r in states[n].mem
    requires states[n].mem[r].log == [] && Whole(states[n].mem[r].base, op)
    ensures steps[n].answer == Meant(op)
  {
    assert StepOk(states, steps, n);
    QuietView(states[n].mem[r]);
    WholeFound(states[n].mem[r].base, op);
  }

  /** A lookup that finds nothing: no operation on the key was acknowledged, and none was ever put in place. */
  lemma MissIsCurrent(states: seq<State>, steps: seq<Step>, t: Thread, k: Key, i: nat)
    requires Run(states, steps) && i < |steps| && steps[i] == Lookup(t, k) && t in states[i + 1].pc
             && states[i + 1].pc[t] == Idle
    ensures forall a <- states[i].acked :: a.key != k
    ensures forall j: nat, op: Op | j < i :: !PutAt(states, steps, j, k, op)
  {
    RunIsSteady(states, steps);
    MissAt(states, steps, t, k, i);
    forall a <- states[i].acked ensures a.key != k { assert AckInv(states[i], a); }
    forall j: nat, op: Op | j < i ensures !PutAt(states, steps, j, k, op) {
      NeverThere(states, steps, k, j + 1, i);
      NotPut(states, steps, k, j, op);
    }
  }

  lemma MissAt(states: seq<State>, steps: seq<Step>, t: Thread, k: Key, i: nat)
    requires Steady(states, steps) && i < |steps| && steps[i] == Lookup(t, k)
    requires t in states[i + 1].pc && states[i + 1].pc[t] == Idle
    ensures k !in states[i].index && Inv(states[i])
  {
    assert StepOk(states, steps, i);
  }

  lemma NotPut(states: seq<State>, steps: seq<Step>, k: Key, j: nat, op: Op)
    requires Steady(states, steps) && j < |steps| && k !in states[j + 1].index
    ensures !PutAt(states, steps, j, k, op)
  {
    assert StepOk(states, steps, j);
    if Installs(states[j], states[j + 1], steps[j], op) { InstallFinds(states[j], states[j + 1], steps[j], op); }
  }

  // What a write leaves for the lookups after it

  /** What a lookup of k would answer now. */
  ghost function AnswerNow(s: State, k: Key): Option<seq<int>> {
    if k in s.index && s.index[k] in s.mem then Found(View(s.mem[s.index[k]])) else None
  }

  lemma LinkedFound(s: State, t: Thread)
    requires Inv(s) && t in s.pc && s.pc[t].Writing? && s.pc[t].job.stage == Link
    ensures s.pc[t].job.addr in s.mem && Found(View(s.mem[s.pc[t].job.addr])) == Meant(s.pc[t].job.op)
  {
    WriterAlone(s, t);
    var m := s.mem[s.pc[t].job.addr];
    QuietView(m);
    WholeFound(m.base, s.pc[t].job.op);
  }

  /**
    A write that nobody races: after a clean upsert or update a lookup answers its value, after a clean
    remove nothing; after a call that was not clean, what it answered before.
   */
  lemma AnswerAfterWrite(states: seq<State>, steps: seq<Step>, t: Thread, k: Key)
    requires SoloOp(states, steps, t, k) && (steps[0].kind == Upsert || k in states[0].index)
    ensures var s' := states[|steps|];
            AnswerNow(s', k) == if !Clean(states[0], k) then AnswerNow(states[0], k)
                                else if steps[0].kind == Remove then None else Some(steps[0].value)
  {
    var n := |steps| - 1;
    WriteTakesEffectIffClean(states, steps, t, k);
    SoloCarries(states, steps, t, k, n);
    var s, s' := states[n], states[n + 1];
    assert Inv(s) && NextStep(s, s', steps[n]) && NextStep(states[0], states[1], steps[0]);
    assert s.pc[t].job.op == states[1].pc[t].op;
    LinkedFound(s, t);
    assert s'.mem == s.mem;
  }
}
