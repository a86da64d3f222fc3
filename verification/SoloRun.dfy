/**
  Runs built step by step: an operation that nobody disturbs always gets its record durable and linked.
 */
module SoloRun {
  import opened RecordMemory
  import opened RecordWrite
  import opened Recovery
  import opened StoreMachine

  /** Steps, with every call allowed. */
  ghost predicate Chain(states: seq<State>, steps: seq<Step>) {
    && |states| == |steps| + 1
    && forall i {:trigger steps[i]} | 0 <= i < |steps| ::
         NextStep(states[i], states[i + 1], steps[i]) && CallAllowed(states[i], steps[i])
  }

  lemma Before(s: State, a: Step, states: seq<State>, steps: seq<Step>)
    requires Chain(states, steps) && NextStep(s, states[0], a) && CallAllowed(s, a)
    ensures Chain([s] + states, [a] + steps) && ([s] + states)[|steps| + 1] == states[|steps|]
  {
    var all, acts := [s] + states, [a] + steps;
    forall i | 0 <= i < |acts| ensures NextStep(all[i], all[i + 1], acts[i]) && CallAllowed(all[i], acts[i]) {
      if i > 0 { assert all[i] == states[i - 1] && all[i + 1] == states[i] && acts[i] == steps[i - 1]; }
    }
  }

  lemma OneStep(states: seq<State>, steps: seq<Step>, e: State, a: Step)
    requires Chain(states, steps) && NextStep(states[|steps|], e, a) && CallAllowed(states[|steps|], a)
    ensures Chain(states + [e], steps + [a])
  {
    var all, acts := states + [e], steps + [a];
    forall i | 0 <= i < |acts| ensures NextStep(all[i], all[i + 1], acts[i]) && CallAllowed(all[i], acts[i]) {
      if i < |steps| { assert acts[i] == steps[i]; }
    }
  }

  /** Run `more` after `steps`. */
  ghost function Joined(states: seq<State>, after: seq<State>): seq<State>
    requires states != [] && after != []
  {
    states + after[1..]
  }

  lemma Join(states: seq<State>, steps: seq<Step>, after: seq<State>, more: seq<Step>)
    requires Chain(states, steps) && Chain(after, more) && states[|steps|] == after[0]
    ensures var all := Joined(states, after);
            && Chain(all, steps + more) && all[0] == states[0] && all[|steps|] == after[0]
            && all[|steps| + |more|] == after[|more|]
  {
    var all, acts, n := Joined(states, after), steps + more, |steps|;
    forall i | n <= i < |all| ensures all[i] == after[i - n] {}
    forall i | 0 <= i < |acts| ensures NextStep(all[i], all[i + 1], acts[i]) && CallAllowed(all[i], acts[i]) {
      if i < n {
        assert acts[i] == steps[i];
      } else {
        assert acts[i] == more[i - n];
      }
    }
  }

  /** The token of a record being written. */
  function TokenAt(job: Job): Token {
    if job.reuse || job.stage.Link? then Token(true, [])
    else if job.stage.FlushToken? then Token(false, [true])
    else Token(false, [])
  }

  function Rank(stage: Stage): nat {
    match stage
    case Invalidate => 8
    case FlushInvalid => 7
    case Fill => 6
    case FlushFill => 5
    case Control => 4
    case FlushControl => 3
    case Publish => 2
    case FlushToken => 1
    case Link => 0
  }

  /** Thread t is at `job` with the record's memory m, and everything else is as in s. */
  function Placed(s: State, t: Thread, job: Job, m: Mem): State {
    s.(mem := s.mem[job.addr := m], token := s.token[job.addr := TokenAt(job)], pc := s.pc[t := Writing(job)])
  }

  /** The next store or write-back on the record. */
  lemma NextWrite(job: Job, m: Mem) returns (job': Job, m': Mem, q: Store)
    requires Rank(job.stage) > 2
    ensures WriteStep(job, m, job', m', q) && job'.addr == job.addr && job'.op == job.op && job'.reuse == job.reuse
            && job'.prior == job.prior
    ensures Rank(job'.stage) < Rank(job.stage) || (job'.stage == job.stage && |job'.todo| < |job.todo|)
    ensures TokenAt(job') == TokenAt(job)
  {
    job', m', q := job, m, PutCtrl(Invalid);
    match job.stage
    case Invalidate =>
      m', job' := m.(log := m.log + [PutCtrl(Invalid)]), job.(stage := if job.Same() then Fill else FlushInvalid);
    case FlushInvalid =>
      m', job' := WriteBack(job.addr, m, HEADER), job.(stage := Fill);
    case Fill =>
      if job.todo != {} {
        q :| q in job.todo;
        m', job' := m.(log := m.log + [q]), job.(todo := job.todo - {q});
      } else {
        job' := job.(stage := if !job.reuse || job.Same() then Control else FlushFill);
      }
    case FlushFill =>
      m', job' := WriteBack(job.addr, m, job.op.Length()), job.(stage := Control);
    case Control =>
      m', job' := m.(log := m.log + [PutCtrl(job.op.Control())]), job.(stage := FlushControl);
    case FlushControl =>
      m' := WriteBack(job.addr, m, if !job.reuse || job.Same() then job.op.Length() else HEADER);
      job' := job.(stage := if !job.reuse then Publish else Link);
    case _ =>
  }

  /** Thread t is writing the record of `job`. */
  ghost predicate AtWork(s: State, t: Thread, job: Job) {
    && t in s.pc && s.pc[t] == Writing(job) && job.addr in s.mem && job.addr in s.token
    && Shape(job, s.mem[job.addr]) && s.token[job.addr] == TokenAt(job)
  }

  /** The thread's next step, whatever the stage. */
  lemma NextMove(s: State, t: Thread, job: Job) returns (next: Job, n: Mem, a: Step)
    requires AtWork(s, t, job) && job.stage != Link
    ensures NextStep(s, Placed(s, t, next, n), a) && CallAllowed(s, a)
    ensures Shape(next, n) && next.op == job.op && next.addr == job.addr && next.reuse == job.reuse
    ensures Rank(next.stage) < Rank(job.stage) || (next.stage == job.stage && |next.todo| < |job.todo|)
  {
    n := s.mem[job.addr];
    if Rank(job.stage) > 2 {
      var q;
      next, n, q := NextWrite(job, n);
      WriteKeepsShape(job, s.mem[job.addr], next, n, q);
      a := Write(t, next, n, q);
    } else {
      next := job.(stage := if job.stage == Publish then FlushToken else Link);
      a := if job.stage == Publish then PublishToken(t) else AwaitToken(t);
    }
    StepTo(s, Placed(s, t, next, n), t, job, next, n, a);
  }

  lemma PlacedTwice(s: State, t: Thread, job: Job, m: Mem, job': Job, m': Mem)
    requires job'.addr == job.addr
    ensures Placed(Placed(s, t, job, m), t, job', m') == Placed(s, t, job', m')
  {
    assert s.mem[job.addr := m][job.addr := m'] == s.mem[job.addr := m'];
    assert s.token[job.addr := TokenAt(job)][job.addr := TokenAt(job')] == s.token[job.addr := TokenAt(job')];
    assert s.pc[t := Writing(job)][t := Writing(job')] == s.pc[t := Writing(job')];
  }

  /**
    An operation that nobody disturbs gets from any stage of its write to the link, with its record and
    token durable.
   */
  lemma {:induction false} ToLink(s: State, t: Thread, job: Job)
      returns (states: seq<State>, steps: seq<Step>, job': Job, m': Mem)
    requires AtWork(s, t, job)
    ensures Chain(states, steps) && states[0] == s && states[|steps|] == Placed(s, t, job', m')
    ensures job'.stage == Link && job'.op == job.op && job'.addr == job.addr && Shape(job', m')
    decreases Rank(job.stage), |job.todo|
  {
    if job.stage == Link {
      states, steps, job', m' := [s], [], job, s.mem[job.addr];
      assert Placed(s, t, job, m') == s;
    } else {
      var next, n, a := NextMove(s, t, job);
      var e := Placed(s, t, next, n);
      states, steps, job', m' := ToLink(e, t, next);
      Before(s, a, states, steps);
      PlacedTwice(s, t, next, n, job', m');
      states, steps := [s] + states, [a] + steps;
    }
  }

  /** A region that may be taken for the operation, and a thread that may start it. */
  ghost predicate CanStart(s: State, t: Thread, op: Op, r: Region) {
    && t in s.pc && s.pc[t] == Idle && |s.ver| == SLOTS && op.version == s.ver[SlotOf(op.key)]
    && (op.kind.Remove? ==> op.value == [])
    && r in s.mem && r in s.token && r in s.place
    && s.place[r] == Free && s.token[r] == Token(false, []) && s.mem[r].log == [] && Fits(s.mem[r].base, op)
  }

  function Called(s: State, t: Thread, op: Op): State
    requires |s.ver| == SLOTS
  {
    s.(ver := s.ver[SlotOf(op.key) := op.version + 1], pc := s.pc[t := Begun(op)],
       begun := s.begun + {op}, claim := s.claim[(op.key, op.version) := op])
  }

  /** From the call on, with a fresh region, to the link. */
  lemma CallToLink(s: State, t: Thread, op: Op, r: Region)
      returns (states: seq<State>, steps: seq<Step>, job: Job, m: Mem)
    requires CanStart(s, t, op, r)
    ensures NextStep(s, Called(s, t, op), Begin(t, op.kind, op.key, op.value))
    ensures Chain(states, steps) && states[0] == Called(s, t, op)
    ensures job.stage == Link && job.op == op && job.addr == r && Shape(job, m)
    ensures states[|steps|] == Placed(Called(s, t, op).(place := s.place[r := Held(t)]), t, job, m)
  {
    var s1 := Called(s, t, op);
    var first := FreshJob(op, r, s.mem[r].base);
    var s2 := s1.(place := s1.place[r := Held(t)], pc := s1.pc[t := Writing(first)]);
    assert op == Op(op.kind, op.key, op.value, op.version);
    assert NextStep(s1, s2, TakeFresh(t, r));
    states, steps, job, m := ToLink(s2, t, first);
    Before(s1, TakeFresh(t, r), states, steps);
    assert Placed(s2, t, job, m) == Placed(s1.(place := s.place[r := Held(t)]), t, job, m);
    states, steps := [s1] + states, [TakeFresh(t, r)] + steps;
  }

  /** The same with the call itself, when it is allowed. */
  lemma WriteToLink(s: State, t: Thread, op: Op, r: Region)
      returns (states: seq<State>, steps: seq<Step>, job: Job, m: Mem)
    requires CanStart(s, t, op, r) && (op.kind.Upsert? || op.key in s.index)
    ensures Chain(states, steps) && states[0] == s
    ensures job.stage == Link && job.op == op && job.addr == r && Shape(job, m)
    ensures states[|steps|] == Placed(Called(s, t, op).(place := s.place[r := Held(t)]), t, job, m)
  {
    states, steps, job, m := CallToLink(s, t, op, r);
    var a := Begin(t, op.kind, op.key, op.value);
    Before(s, a, states, steps);
    states, steps := [s] + states, [a] + steps;
  }

  lemma StepTo(s: State, e: State, t: Thread, job: Job, next: Job, n: Mem, a: Step)
    requires t in s.pc && s.pc[t] == Writing(job) && job.addr in s.mem && job.addr in s.token
             && s.token[job.addr] == TokenAt(job)
    requires e == Placed(s, t, next, n) && next.addr == job.addr && Shape(job, s.mem[job.addr])
    requires
      || (Rank(job.stage) > 2 && a.Write? && a == Write(t, next, n, a.store)
         && WriteStep(job, s.mem[job.addr], next, n, a.store)
          && TokenAt(next) == TokenAt(job))
      || (job.stage == Publish && a == PublishToken(t) && next == job.(stage := FlushToken) && n == s.mem[job.addr])
      || (job.stage == FlushToken && a == AwaitToken(t) && next == job.(stage := Link) && n == s.mem[job.addr])
    ensures NextStep(s, e, a) && CallAllowed(s, a)
  {
    assert s.mem[job.addr := s.mem[job.addr]] == s.mem;
    assert s.token[job.addr := s.token[job.addr]] == s.token;
    assert [] + [true] == [true];
  }
}
