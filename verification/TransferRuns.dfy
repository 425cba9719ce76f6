/** What the invariant gives over whole runs of the transfer engine. */
module TransferRuns {
  import opened Memory
  import opened PartSplit
  import opened Transfer
  import opened TransferSafety
  import opened TransferSteps

  lemma QuietInv(c: Setup, s: State)
    requires Quiet(c, s) && OthersOnly(c, s)
    ensures Inv(c, s)
  {
    forall t | 0 <= t < c.workers
      ensures Resting(s, t) && Calm(s, t)
    {
      assert s.qps[t] == [];
    }
  }

  lemma HeadCounts(cq: seq<nat>)
    requires cq != []
    ensures multiset(cq)[cq[0]] > 0
  {
  }

  lemma IdleQuiet(c: Setup, s: State)
    requires Inv(c, s) && s.caller.Idle?
    ensures Quiet(c, s) && OthersOnly(c, s)
  {
    forall t | 0 <= t < c.workers
      ensures s.workers[t] == Worker([], 0, Spinning) && s.qps[t] == [] && multiset(s.cq)[t] == 0
    {
      assert Resting(s, t) && Calm(s, t);
    }
    forall k | 0 <= k < |s.cq| ensures s.cq[k] >= c.workers { assert multiset(s.cq)[s.cq[k]] > 0; }
  }

  /** Every run leaves the engine, whenever no call is in progress, as a call must find it. */
  lemma {:induction false} ReturnsQuiet(c: Setup, s: State, steps: seq<Step>)
    requires Quiet(c, s) && OthersOnly(c, s) && Run(c, s, steps, Own) && Exec(c, s, steps, Own).caller.Idle?
    ensures Quiet(c, Exec(c, s, steps, Own)) && OthersOnly(c, Exec(c, s, steps, Own))
  {
    QuietInv(c, s);
    RunInv(c, s, steps);
    IdleQuiet(c, Exec(c, s, steps, Own));
  }

  lemma {:induction false} RunInv(c: Setup, s: State, steps: seq<Step>)
    requires Inv(c, s) && Run(c, s, steps, Own)
    ensures Inv(c, Exec(c, s, steps, Own))
    decreases |steps|
  {
    if steps != [] {
      var n := |steps| - 1;
      RunInv(c, s, steps[..n]);
      StepInv(c, Exec(c, s, steps[..n], Own), steps[n]);
    }
  }

  // ---------------------------------------------------------------- a call is one memcpy

  /** A finished worker's part has arrived. */
  lemma FinishedSettled(c: Setup, s: State, t: nat)
    requires Inv(c, s) && InLarge(s) && t < c.workers && IsFinished(s, t)
    ensures Shape(c, s) && Frame(c, s.mem, s.start, s.call) && Large(s.call)
    ensures var part := Part(c, s.call, t);
      Mapped(c, s.mem, t, part) && Settled(c, t, part, part.size, s.mem, s.start)
  {
    assert WorkerOk(c, s, t);
  }

  /** So has each byte of it. */
  lemma PartByte(c: Setup, s: State, t: nat, k: nat)
    requires Inv(c, s) && InLarge(s) && t < c.workers && IsFinished(s, t)
    requires InPart(s.call.size, c.workers, t, k) && k < CopiedSize(c, s.call)
    ensures CopiedSize(c, s.call) <= s.call.size
    ensures Dst(s.call, s.mem)[DstAt(s.call) + k] == Src(s.call, s.start)[SrcAt(s.call) + k]
  {
    hide Inv, Settled, PartOffset, PartSize;
    FinishedSettled(c, s, t);
    PartIn(c, s.start, s.call, t);
    SettledByte(c, t, Part(c, s.call, t), k - PartOffset(s.call.size, c.workers, t), s.mem, s.start);
  }

  lemma SettledByte(c: Setup, lane: nat, task: Task, k: int, m: Mem, start: Mem)
    requires Mapped(c, m, lane, task) && SameShape(m, start) && Settled(c, lane, task, task.size, m, start)
        && 0 <= k < task.size
    ensures Dst(task, m)[DstAt(task) + k] == Src(task, start)[SrcAt(task) + k]
  {
  }

  /** All workers have finished their parts, so every covered byte has arrived. */
  lemma CoveredSettled(c: Setup, s: State)
    requires Inv(c, s) && s.caller.Awaiting? && s.signal == c.workers
    ensures CopiedSize(c, s.call) <= s.call.size
    ensures Same(Dst(s.call, s.mem), DstAt(s.call), Src(s.call, s.start), SrcAt(s.call), CopiedSize(c, s.call))
  {
    var call := s.call;
    PartsTile(call.size, c.workers);
    FinishedBound(c, s);
    forall a {:trigger Dst(call, s.mem)[a]} | DstAt(call) <= a < DstAt(call) + CopiedSize(c, call)
      ensures Dst(call, s.mem)[a] == Src(call, s.start)[SrcAt(call) + (a - DstAt(call))]
    {
      var t := PartOf(call.size, c.workers, a - DstAt(call));
      PartByte(c, s, t, a - DstAt(call));
    }
  }

  /** Whenever a call is about to return, memory is what one memcpy of the copied range would have left,
      staging pools aside. */
  lemma CallIsMemcpy(c: Setup, s: State, step: Step)
    requires Inv(c, s) && Enabled(c, s, step) && (step.AwaitExit? || step.LeaveInline?)
    ensures Admissible(c, s.start, s.call)
    ensures Agree(c, s.mem, Effect(c, s.start, s.call))
  {
    var call, n := s.call, CopiedSize(c, s.call);
    if step.AwaitExit? {
      CoveredSettled(c, s);
      PartsTile(call.size, c.workers);
    }
    assert Same(Dst(call, s.mem), DstAt(call), Src(call, s.start), SrcAt(call), n);
    if call.write {
      BlitUnique(s.mem.remote, s.start.remote, call.remote, s.start.local, call.user, n);
    } else {
      assert s.mem.remote == s.start.remote;
    }
  }

  // ---------------------------------------------------------------- staging-pool safety

  /** A pool is copied into or out of only when no request that uses it is posted. */
  ghost predicate PoolsFree(c: Setup, s: State) {
    forall t {:trigger HamalOf(c, s, t)} :: 0 <= t <= c.workers && HamalOf(c, s, t).Some? ==>
      LaneOf(c, t) < |s.qps| && (!HamalOf(c, s, t).value.stage.Waiting? ==> s.qps[LaneOf(c, t)] == [])
  }

  lemma {:induction false} RunPools(c: Setup, s: State, steps: seq<Step>)
    requires Quiet(c, s) && OthersOnly(c, s) && Run(c, s, steps, Own)
    ensures PoolsFree(c, Exec(c, s, steps, Own))
  {
    QuietInv(c, s);
    RunInv(c, s, steps);
    var e := Exec(c, s, steps, Own);
    forall t | 0 <= t <= c.workers && HamalOf(c, e, t).Some?
      ensures LaneOf(c, t) < |e.qps| && (!HamalOf(c, e, t).value.stage.Waiting? ==> e.qps[LaneOf(c, t)] == [])
    {
      ActiveOk(c, e, t);
    }
  }

  // ---------------------------------------------------------------- any number of calls, any schedule

  /** The calls begun in a run, in order. */
  ghost function Calls(steps: seq<Step>): seq<Task> {
    if steps == [] then []
    else
      var n := |steps| - 1;
      Calls(steps[..n]) + if steps[n].Begin? then [steps[n].task] else []
  }

  /** The sequential meaning of a list of calls. */
  ghost predicate Sequential(c: Setup, m: Mem, calls: seq<Task>, r: Mem)
    decreases |calls|
  {
    if calls == [] then m == r
    else
      var n := |calls| - 1;
      exists m1 :: Sequential(c, m, calls[..n], m1) && Admissible(c, m1, calls[n]) && r == Effect(c, m1, calls[n])
  }

  lemma AgreeEffect(c: Setup, m: Mem, m1: Mem, call: Task)
    requires Agree(c, m, m1) && Admissible(c, m, call)
    ensures Admissible(c, m1, call) && Agree(c, Effect(c, m, call), Effect(c, m1, call))
  {
    PoolsApart(c, 0, c.workers);
    if Large(call) { PartsTile(call.size, c.workers); }
    if call.write {
      BlitUnique(Effect(c, m, call).remote, m1.remote, call.remote, m1.local, call.user, CopiedSize(c, call));
    }
  }

  lemma AgreeTransitive(c: Setup, m: Mem, n: Mem, r: Mem)
    requires Agree(c, m, n) && Agree(c, n, r)
    ensures Agree(c, m, r)
  {
  }

  /** The memories that the current call started from, or the present ones between calls. */
  ghost function Base(s: State): Mem {
    if s.caller.Idle? then s.mem else s.start
  }

  function Pending(s: State): seq<Task> {
    if s.caller.Idle? then [] else [s.call]
  }

  /** A step inside a call changes neither where the call started from nor which call it is. */
  lemma InsideStep(c: Setup, s: State, step: Step)
    requires Inv(c, s) && Enabled(c, s, step) && !step.AwaitExit? && !step.LeaveInline?
    ensures Base(Apply(c, s, step)) == Base(s)
    ensures Pending(Apply(c, s, step)) == Pending(s) + (if step.Begin? then [step.task] else [])
  {
    hide Inv, Admissible, Mapped, WrMapped;
    InvShape(c, s);
    match step {
      case Begin(task) =>
      case PushItem =>
      case PushCount =>
      case CopyIn(t) => ActiveWhere(c, s, t);
      case Post(t) => ActiveWhere(c, s, t);
      case Poll(t, k) => ActiveWhere(c, s, t);
      case CopyOut(t) => ActiveWhere(c, s, t);
      case Finish(t) => ActiveWhere(c, s, t);
      case Execute(lane) => var t := PostedBy(c, s, lane); ActiveWhere(c, s, t);
      case ExecuteOther(_) =>
      case See(t) => PoppingIn(c, s, t);
      case Erase(t) => PoppingIn(c, s, t);
      case Decrement(t) => PoppingIn(c, s, t);
      case Dereference(t) => PoppingIn(c, s, t);
    }
  }

  lemma SequentialAppend(c: Setup, m: Mem, calls: seq<Task>, r: Mem, call: Task)
    requires Sequential(c, m, calls, r) && Admissible(c, r, call)
    ensures Sequential(c, m, calls + [call], Effect(c, r, call))
  {
    var all := calls + [call];
    assert all[..|all| - 1] == calls && all[|all| - 1] == call;
  }

  /** A return extends the sequential meaning by the call that returns. */
  lemma ReturnStep(c: Setup, m: Mem, done: seq<Task>, r: Mem, s: State, step: Step)
    requires Inv(c, s) && Enabled(c, s, step) && (step.AwaitExit? || step.LeaveInline?)
    requires Sequential(c, m, done, r) && Agree(c, s.start, r)
    ensures Admissible(c, r, s.call) && Sequential(c, m, done + [s.call], Effect(c, r, s.call))
    ensures Apply(c, s, step).caller.Idle? && Apply(c, s, step).mem == s.mem
    ensures Agree(c, s.mem, Effect(c, r, s.call))
  {
    CallIsMemcpy(c, s, step);
    AgreeEffect(c, s.start, r, s.call);
    AgreeTransitive(c, s.mem, Effect(c, s.start, s.call), Effect(c, r, s.call));
    SequentialAppend(c, m, done, r, s.call);
  }

  /** Over any schedule of any number of calls, the engine does what the same calls would do one memcpy after
      another: `done` are the calls that have returned and `r` is their sequential result. */
  lemma {:induction false} RunsRefineSequential(c: Setup, s: State, steps: seq<Step>) returns (done: seq<Task>, r: Mem)
    requires Quiet(c, s) && OthersOnly(c, s) && Run(c, s, steps, Own)
    ensures var e := Exec(c, s, steps, Own);
      Calls(steps) == done + Pending(e) && Sequential(c, s.mem, done, r) && Agree(c, Base(e), r)
    decreases |steps|
  {
    if steps == [] {
      done, r := [], s.mem;
    } else {
      var n := |steps| - 1;
      done, r := RunsRefineSequential(c, s, steps[..n]);
      QuietInv(c, s);
      RunInv(c, s, steps[..n]);
      done, r := RefineStep(c, s.mem, done, r, Exec(c, s, steps[..n], Own), steps[n]);
    }
  }

  lemma RefineStep(c: Setup, m: Mem, done: seq<Task>, r: Mem, s: State, step: Step) returns (done': seq<Task>, r': Mem)
    requires Inv(c, s) && Enabled(c, s, step) && Sequential(c, m, done, r) && Agree(c, Base(s), r)
    ensures Sequential(c, m, done', r') && Agree(c, Base(Apply(c, s, step)), r')
    ensures done' + Pending(Apply(c, s, step)) == done + Pending(s) + if step.Begin? then [step.task] else []
  {
    if step.AwaitExit? || step.LeaveInline? {
      ReturnStep(c, m, done, r, s, step);
      done', r' := done + [s.call], Effect(c, r, s.call);
    } else {
      InsideStep(c, s, step);
      done', r' := done, r;
    }
  }

  lemma SequentialTwo(c: Setup, m: Mem, a: Task, b: Task, r: Mem)
    requires Sequential(c, m, [a, b], r)
    ensures Admissible(c, m, a) && Admissible(c, Effect(c, m, a), b) && r == Effect(c, Effect(c, m, a), b)
  {
    assert [a, b][..1] == [a] && [a][..0] == [];
    var m1 :| Sequential(c, m, [a], m1) && Admissible(c, m1, b) && r == Effect(c, m1, b);
    var m0 :| Sequential(c, m, [], m0) && Admissible(c, m0, a) && m1 == Effect(c, m0, a);
  }

  /** Writing a range and reading it back, in the sequential specification. */
  lemma EffectRoundTrip(c: Setup, m: Mem, user: nat, buffer: nat, remote: nat, size: nat)
    requires Admissible(c, m, Task(true, user, remote, size))
    requires var m1 := Effect(c, m, Task(true, user, remote, size)); Admissible(c, m1, Task(false, buffer, remote,
        size))
    ensures var m1 := Effect(c, m, Task(true, user, remote, size));
      var m2, n := Effect(c, m1, Task(false, buffer, remote, size)), CopiedSize(c, Task(true, user, remote, size));
      n <= size && Same(m2.local, buffer, m.local, user, n)
  {
    if Large(Task(true, user, remote, size)) { PartsTile(size, c.workers); }
  }

  /** A write and a later read of the same remote range into another buffer return the bytes written, for any
      sizes and any schedules of the two calls. */
  lemma {:induction false} RoundTrip(c: Setup, s: State, steps: seq<Step>, user: nat, buffer: nat, remote: nat,
      size: nat)
    requires Quiet(c, s) && OthersOnly(c, s) && Run(c, s, steps, Own)
    requires Calls(steps) == [Task(true, user, remote, size), Task(false, buffer, remote, size)]
    requires Exec(c, s, steps, Own).caller.Idle?
    ensures Admissible(c, s.mem, Task(true, user, remote, size))
    ensures var n, e := CopiedSize(c, Task(true, user, remote, size)), Exec(c, s, steps, Own).mem;
      && n <= size && buffer + n <= |e.local| && user + n <= |s.mem.local|
      && Same(e.local, buffer, s.mem.local, user, n)
  {
    var done, r := RunsRefineSequential(c, s, steps);
    assert done == Calls(steps);
    SequentialTwo(c, s.mem, done[0], done[1], r);
    EffectRoundTrip(c, s.mem, user, buffer, remote, size);
    SameOffPools(c, r, Exec(c, s, steps, Own).mem, buffer, s.mem, user, CopiedSize(c, done[0]));
  }

  lemma SameOffPools(c: Setup, r: Mem, e: Mem, d: nat, m: Mem, a: nat, n: nat)
    requires Agree(c, e, r) && d + n <= |r.local| && a + n <= |m.local| && Same(r.local, d, m.local, a, n)
    requires d + n <= PoolAddr(c, 0) || PoolAddr(c, c.workers) <= d
    ensures Same(e.local, d, m.local, a, n)
  {
  }
}
