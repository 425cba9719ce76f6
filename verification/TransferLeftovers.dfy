/** Polls as they are written: calls that take the completion of another request are followed to their return, and
    what they return is not what one memcpy would have left. */
module TransferLeftovers {
  import opened Memory
  import opened PartSplit
  import opened Transfer
  import opened TransferSafety
  import opened TransferSteps
  import opened TransferCount
  import opened TransferAny
  import opened TransferLive
  import opened TransferAsWritten

  // ---------------------------------------------------------------- what is wrong stays wrong

  /** The thread of lane 0 is past the first `n` bytes, and no request that is posted sends anything there. */
  ghost predicate Past(c: Setup, s: State, n: nat)
    requires Outline(c, s)
  {
    && n <= (if Large(s.call) then Part(c, s.call, 0).size else s.call.size)
    && (s.caller.Inline? ==> s.caller.h.done >= n)
    && (InLarge(s) ==> IsFinished(s, 0) || (s.workers[0].pc.Busy? && s.workers[0].pc.h.done >= n))
    && (s.call.write ==> forall l :: 0 <= l < c.workers ==> Beyond(s.qps[l], s.call.remote + n))
  }

  predicate Beyond(qp: seq<Wr>, a: nat) { forall j :: 0 <= j < |qp| && qp[j].write ==> qp[j].remote >= a }

  predicate NoWrites(s: State) {
    forall l :: 0 <= l < |s.qps| ==> forall j :: 0 <= j < |s.qps[l]| ==> !s.qps[l][j].write
  }

  /** The first `n` bytes at the destination are the same. */
  ghost predicate Untouched(call: Task, m: Mem, m': Mem, n: nat) {
    && SameShape(m, m') && DstAt(call) + n <= |Dst(call, m)|
    && forall a {:trigger Dst(call, m')[a]} :: DstAt(call) <= a < DstAt(call) + n ==>
        Dst(call, m')[a] == Dst(call, m)[a]
  }

  /** Where the task of an active thread lies, relative to the first `n` bytes of the call. */
  lemma ActivePast(c: Setup, s: State, t: nat, n: nat)
    requires Outline(c, s) && Past(c, s, n) && HamalOf(c, s, t).Some?
    ensures var h := HamalOf(c, s, t).value;
      h.task.user + h.done >= s.call.user + n && h.task.remote + h.done >= s.call.remote + n
  {
    ActiveShape(c, s, t);
    if 0 < t < c.workers { PartsDisjoint(s.call.size, c.workers, 0, t); }
    if t < c.workers { PartsTile(s.call.size, c.workers); }
  }

  /** The step keeps all that is said about the first `n` bytes; in a read with no write posted, also the remote
      memory. */
  ghost predicate KeepsPast(c: Setup, s: State, s': State, n: nat)
    requires Outline(c, s)
  {
    && Outline(c, s') && s'.call == s.call && s'.start == s.start
    && Past(c, s', n) && Untouched(s.call, s.mem, s'.mem, n)
    && (!s.call.write && NoWrites(s) ==> NoWrites(s') && s'.mem.remote == s.mem.remote)
  }

  lemma SameUntouched(call: Task, m: Mem, n: nat)
    requires DstAt(call) + n <= |Dst(call, m)|
    ensures Untouched(call, m, m, n)
  {
  }

  lemma PastFits(c: Setup, s: State, n: nat)
    requires Outline(c, s) && Past(c, s, n)
    ensures n <= s.call.size && DstAt(s.call) + n <= |Dst(s.call, s.mem)|
  {
    if Large(s.call) { PartIn(c, s.start, s.call, 0); PartsTile(s.call.size, c.workers); }
  }

  lemma CallerPast(c: Setup, s: State, step: Step, n: nat)
    requires Outline(c, s) && Past(c, s, n) && Enabled(c, s, step)
    requires step.PushItem? || step.PushCount? || step.AwaitExit? || step.LeaveInline?
    ensures KeepsPast(c, s, Apply(c, s, step), n)
  {
    StepOutline(c, s, step);
    PastFits(c, s, n);
    SameUntouched(s.call, s.mem, n);
    if InLarge(s) { assert WorkerShape(c, s, 0); }
  }

  lemma PopPast(c: Setup, s: State, step: Step, n: nat)
    requires Outline(c, s) && Past(c, s, n) && Enabled(c, s, step)
    requires step.See? || step.Erase? || step.Decrement? || step.Dereference?
    ensures KeepsPast(c, s, Apply(c, s, step), n)
  {
    StepOutline(c, s, step);
    PastFits(c, s, n);
    SameUntouched(s.call, s.mem, n);
    PopsInLarge(c, s, step.t);
  }

  lemma FinishPast(c: Setup, s: State, t: nat, n: nat)
    requires Outline(c, s) && Past(c, s, n) && Enabled(c, s, Finish(t))
    ensures KeepsPast(c, s, Apply(c, s, Finish(t)), n)
  {
    StepOutline(c, s, Finish(t));
    PastFits(c, s, n);
    SameUntouched(s.call, s.mem, n);
    ActiveShape(c, s, t);
  }

  lemma PostPast(c: Setup, s: State, t: nat, n: nat)
    requires Outline(c, s) && Past(c, s, n) && Enabled(c, s, Post(t))
    ensures KeepsPast(c, s, Apply(c, s, Post(t)), n)
  {
    StepOutline(c, s, Post(t));
    PastFits(c, s, n);
    SameUntouched(s.call, s.mem, n);
    ActiveShape(c, s, t);
    ActivePast(c, s, t, n);
  }

  lemma PollPast(c: Setup, s: State, t: nat, k: nat, n: nat)
    requires Outline(c, s) && Past(c, s, n) && Enabled(c, s, Poll(t, k))
    ensures KeepsPast(c, s, Apply(c, s, Poll(t, k)), n)
  {
    StepOutline(c, s, Poll(t, k));
    PastFits(c, s, n);
    SameUntouched(s.call, s.mem, n);
    ActiveShape(c, s, t);
  }

  lemma CopyInPast(c: Setup, s: State, t: nat, n: nat)
    requires Outline(c, s) && Past(c, s, n) && Enabled(c, s, CopyIn(t))
    ensures KeepsPast(c, s, Apply(c, s, CopyIn(t)), n)
  {
    StepOutline(c, s, CopyIn(t));
    PastFits(c, s, n);
    ActiveShape(c, s, t);
  }

  lemma CopyOutPast(c: Setup, s: State, t: nat, n: nat)
    requires Outline(c, s) && Past(c, s, n) && Enabled(c, s, CopyOut(t))
    ensures KeepsPast(c, s, Apply(c, s, CopyOut(t)), n)
  {
    StepOutline(c, s, CopyOut(t));
    PastFits(c, s, n);
    ActiveShape(c, s, t);
    ActivePast(c, s, t, n);
  }

  lemma ExecutePast(c: Setup, s: State, step: Step, n: nat)
    requires Outline(c, s) && Past(c, s, n) && Enabled(c, s, step) && (step.Execute? || step.ExecuteOther?)
    ensures KeepsPast(c, s, Apply(c, s, step), n)
  {
    StepOutline(c, s, step);
    PastFits(c, s, n);
    SameUntouched(s.call, s.mem, n);
    if step.Execute? {
      assert RequestsOk(c, s.start, step.lane, s.qps[step.lane]);
      PoolsApart(c, step.lane, c.workers);
      if 0 < step.lane { PoolsApart(c, 0, step.lane); }
    }
  }

  lemma StepPast(c: Setup, s: State, step: Step, n: nat)
    requires Outline(c, s) && Past(c, s, n) && Enabled(c, s, step) && !step.Begin?
    ensures KeepsPast(c, s, Apply(c, s, step), n)
  {
    hide Outline, Past, KeepsPast, Enabled, Apply;
    match step {
      case Begin(_) =>
      case PushItem => CallerPast(c, s, step, n);
      case PushCount => CallerPast(c, s, step, n);
      case AwaitExit => CallerPast(c, s, step, n);
      case LeaveInline => CallerPast(c, s, step, n);
      case CopyIn(t) => CopyInPast(c, s, t, n);
      case Post(t) => PostPast(c, s, t, n);
      case Poll(t, k) => PollPast(c, s, t, k, n);
      case CopyOut(t) => CopyOutPast(c, s, t, n);
      case Finish(t) => FinishPast(c, s, t, n);
      case Execute(_) => ExecutePast(c, s, step, n);
      case ExecuteOther(_) => ExecutePast(c, s, step, n);
      case See(_) => PopPast(c, s, step, n);
      case Erase(_) => PopPast(c, s, step, n);
      case Decrement(_) => PopPast(c, s, step, n);
      case Dereference(_) => PopPast(c, s, step, n);
    }
  }

  // ---------------------------------------------------------------- on to the return of the call

  /** What is known of every state of a call that a schedule reaches. */
  lemma ReachedOutline(c: Setup, s: State, call: Task, e: State)
    requires Between(c, s) && Reaches(c, s, call, e)
    ensures Outline(c, e) && e.call == call && e.start == s.mem && Outstanding(e) >= Pollers(e)
  {
    var steps :| NoBegin(steps) && RunsTo(c, s, call, steps, e);
    RunLength(c, s, call, steps, FirstCome);
    Conservation(c, s, [Begin(call)] + steps, FirstCome);
    CallKept(c, s, call, steps);
  }

  lemma {:induction false} CallKept(c: Setup, s: State, call: Task, steps: seq<Step>)
    requires NoBegin(steps) && Run(c, s, [Begin(call)] + steps, FirstCome)
    ensures var e := Exec(c, s, [Begin(call)] + steps, FirstCome); e.call == call && e.start == s.mem
    decreases |steps|
  {
    var all := [Begin(call)] + steps;
    if steps == [] {
      assert all[..0] == [] && all == [Begin(call)];
    } else {
      var n := |steps| - 1;
      assert all[..n + 1] == [Begin(call)] + steps[..n];
      CallKept(c, s, call, steps[..n]);
    }
  }

  /** From a state in which the first `n` bytes are settled for good, the call can be continued until it has
      returned, and they are still the same then. */
  lemma {:induction false} RunOn(c: Setup, s: State, call: Task, e: State, n: nat) returns (r: State)
    requires Between(c, s) && Reaches(c, s, call, e) && Outline(c, e) && Past(c, e, n)
    ensures Reaches(c, s, call, r) && r.caller.Idle? && Untouched(call, e.mem, r.mem, n)
    ensures !call.write && NoWrites(e) ==> r.mem.remote == e.mem.remote
    decreases AllLeft(c, e)
  {
    hide Reaches, Outline, Past, Untouched, AllLeft, Between, Apply, NoWrites;
    ReachedOutline(c, s, call, e);
    if e.caller.Idle? {
      r := e;
      PastFits(c, e, n);
      SameUntouched(call, e.mem, n);
    } else {
      OutlineSizes(c, e);
      var step := AnyProgress(c, e, FirstCome);
      assert Enabled(c, e, step);
      StepPast(c, e, step, n);
      StepLeft(c, e, step);
      AllLeftIs(c, e);
      LeftPositive(c, e);
      ReachStep(c, s, call, e, step);
      var e1 := Apply(c, e, step);
      KeptIs(c, e, e1, n);
      r := RunOn(c, s, call, e1, n);
      UntouchedTransitive(call, e.mem, e1.mem, r.mem, n);
    }
  }

  lemma KeptIs(c: Setup, s: State, s': State, n: nat)
    requires Outline(c, s) && KeepsPast(c, s, s', n)
    ensures Outline(c, s') && Past(c, s', n) && Untouched(s.call, s.mem, s'.mem, n)
    ensures !s.call.write && NoWrites(s) ==> NoWrites(s') && s'.mem.remote == s.mem.remote
  {
  }

  lemma UntouchedTransitive(call: Task, a: Mem, b: Mem, d: Mem, n: nat)
    requires Untouched(call, a, b, n) && Untouched(call, b, d, n)
    ensures Untouched(call, a, d, n)
  {
  }

  // ---------------------------------------------------------------- calls that return the wrong bytes

  /** Memory shows byte `k` going wrong: for a read the pool differs from the remote byte; for a write of one chunk
      the remote byte is not the source's when everything posted before has executed, and for a longer one the second
      chunk differs from the first there. */
  ghost predicate Differs(c: Setup, s: State, call: Task, k: nat)
    requires Admissible(c, s.mem, call) && BothOk(c, s.mem, s.qps)
  {
    var m := s.mem;
    && k < call.size && k < CHUNK
    && if !call.write then m.remote[call.remote + k] != m.local[PoolAddr(c, 0) + k]
       else if call.size <= CHUNK then m.local[call.user + k] != Drained(c, m, s.qps).remote[call.remote + k]
       else k < call.size - CHUNK && m.local[call.user + k] != m.local[call.user + CHUNK + k]
  }

  /** Where one memcpy leaves byte `k` of the range. */
  lemma WrongByte(c: Setup, m: Mem, r: Mem, call: Task, k: nat)
    requires Admissible(c, m, call) && SameShape(m, r) && k < call.size
    requires Large(call) ==> c.workers == 2 && k < CHUNK
    requires Dst(call, r)[DstAt(call) + k] != Src(call, m)[SrcAt(call) + k]
    ensures !Agree(c, r, Effect(c, m, call))
  {
    if Large(call) { TwoParts(c, m, call); PartsTile(call.size, c.workers); PartIn(c, m, call, 0); }
    assert k < CopiedSize(c, call);
    assert Dst(call, Effect(c, m, call))[DstAt(call) + k] == Src(call, m)[SrcAt(call) + k];
  }

  lemma ReadReturnsWrong(c: Setup, s: State, call: Task, e: State, t: nat, task: Task, k: nat) returns (r: State)
    requires Between(c, s) && Reaches(c, s, call, e) && Slips(c, s, call, e, t, task) && !call.write
    requires BothOk(c, s.mem, s.qps) && Differs(c, s, call, k)
    requires Large(call) ==> c.workers == 2 && t == 0
    ensures Reaches(c, s, call, r) && r.caller.Idle? && !Agree(c, r.mem, Effect(c, s.mem, call))
  {
    hide Reaches;
    var n := Min(CHUNK, task.size);
    var w := StaleRead(c, s, call, e, t, task);
    ReachedOutline(c, s, call, w);
    ActiveShape(c, w, t);
    r := RunOn(c, s, call, w, n);
    WrongByte(c, s.mem, r.mem, call, k);
  }

  lemma WriteReturnsWrong(c: Setup, s: State, call: Task, e: State, t: nat, task: Task, k: nat) returns (r: State)
    requires Between(c, s) && Reaches(c, s, call, e) && Slips(c, s, call, e, t, task) && call.write
    requires BothOk(c, s.mem, s.qps) && Differs(c, s, call, k)
    requires (Large(call) ==> c.workers == 2 && t == 0) && call.size > CHUNK
    ensures Reaches(c, s, call, r) && r.caller.Idle? && !Agree(c, r.mem, Effect(c, s.mem, call))
  {
    hide Reaches;
    var n := Min(CHUNK, call.size - CHUNK);
    var w := SwappedWrite(c, s, call, e, t, task);
    ReachedOutline(c, s, call, w);
    ActiveShape(c, w, t);
    r := RunOn(c, s, call, w, n);
    WrongByte(c, s.mem, r.mem, call, k);
  }

  /** A write of one chunk returns with its request still posted. */
  lemma ShortWriteReturnsWrong(c: Setup, s: State, call: Task, e: State, k: nat) returns (r: State)
    requires Between(c, s) && Reaches(c, s, call, e) && Slips(c, s, call, e, c.workers, call) && call.write
    requires BothOk(c, s.mem, s.qps) && Differs(c, s, call, k) && call.size <= CHUNK
    requires e.mem == Drained(c, s.mem, s.qps)
    ensures Reaches(c, s, call, r) && r.caller.Idle? && !Agree(c, r.mem, Effect(c, s.mem, call))
  {
    hide Reaches;
    var u := SlipWrite(c, s, call, e, c.workers, call);
    ReachStep(c, s, call, u, Finish(c.workers));
    var u1 := Apply(c, u, Finish(c.workers));
    ReachStep(c, s, call, u1, LeaveInline);
    r := Apply(c, u1, LeaveInline);
    WrongByte(c, s.mem, r.mem, call, k);
  }

  /** With the two workers of the code, every large call, and every small one whose polls may find a completion that is
      not its own, has a schedule that returns and has not copied the range, wherever memory shows it. */
  lemma {:induction false} ReturnsWrong(c: Setup, s: State, call: Task, k: nat) returns (r: State)
    requires Between(c, s) && c.workers == 2 && Admissible(c, s.mem, call)
    requires BothOk(c, s.mem, s.qps) && Differs(c, s, call, k)
    requires Large(call) || Elsewhere(s) || (call.write && Outstanding(s) > 0)
    ensures Reaches(c, s, call, r) && r.caller.Idle? && !Agree(c, r.mem, Effect(c, s.mem, call))
  {
    hide Reaches, Slips, Ready, Effect, Agree;
    var t, task, e := c.workers, call, s;
    if Elsewhere(s) { ElsewhereCounts(s); }
    if Large(call) {
      t, task := 0, Part(c, call, 0);
      e := LargeSlips(c, s, call);
    } else if call.write {
      e := SmallDrained(c, s, call);
    } else {
      e := SmallReady(c, s, call);
    }
    if !call.write {
      r := ReadReturnsWrong(c, s, call, e, t, task, k);
    } else if call.size > CHUNK {
      r := WriteReturnsWrong(c, s, call, e, t, task, k);
    } else {
      r := ShortWriteReturnsWrong(c, s, call, e, k);
    }
  }

  lemma ElsewhereCounts(s: State)
    requires Elsewhere(s)
    ensures Outstanding(s) > 0
  {
    if s.cq == [] && s.others == 0 {
      var l :| 0 < l < |s.qps| && s.qps[l] != [];
      PostedUpdate(s.qps, l, []);
    }
  }
}
