/** What a call of the transfer engine keeps when polls may take any completion, also one that was left over before
    the call: the tasks still reach their workers, nothing outside the ranges is addressed, and every schedule
    returns after a number of steps that only the requests left unexecuted can change. */
module TransferAny {
  import opened PartSplit
  import opened Wrappers
  import opened Transfer
  import opened TransferSafety
  import opened TransferSteps
  import opened TransferCount

  // ---------------------------------------------------------------- the outline of a call

  predicate HamalShape(h: Hamal) {
    && h.done <= h.task.size
    && (h.stage.Top? || h.done < h.task.size)
    && (h.stage.Staged? ==> h.task.write)
    && (h.stage.Arrived? ==> !h.task.write)
  }

  ghost predicate Sizes(c: Setup, s: State) {
    ValidSetup(c) && |s.tasks| == 4 && |s.workers| == c.workers && |s.qps| == c.workers
  }

  /** Where worker `t` stands in a large call, apart from what memory holds. */
  ghost predicate WorkerShape(c: Setup, s: State, t: nat)
    requires Sizes(c, s) && FitsInt(s.call.size, c.workers) && t < c.workers
  {
    var w, part, p := s.workers[t], Part(c, s.call, t), PushState(s, t);
    match w.pc
    case Spinning =>
      (match p
       case Unpushed => w.queue == [] && w.offset == 0
       case Half => w.queue == [t] && w.offset == 0 && s.tasks[t] == Some(part)
       case Pushed =>
         if w.queue == [] then w.offset == 0 else w.queue == [t] && w.offset == 1 && s.tasks[t] == Some(part))
    case Admitted => p.Pushed? && w.queue == [t] && w.offset == 1 && s.tasks[t] == Some(part)
    case Erased(ptr) => p.Pushed? && ptr == t && w.queue == [] && w.offset == 1 && s.tasks[t] == Some(part)
    case Holding(ptr) => p.Pushed? && ptr == t && w.queue == [] && w.offset == 0 && s.tasks[t] == Some(part)
    case Busy(h) => p.Pushed? && w.queue == [] && w.offset == 0 && h.task == part && HamalShape(h)
  }

  ghost predicate LargeOutline(c: Setup, s: State)
    requires Sizes(c, s) && (Large(s.call) ==> FitsInt(s.call.size, c.workers))
  {
    Large(s.call) && (forall t :: 0 <= t < c.workers ==> WorkerShape(c, s, t)) && s.signal == |FinishedSet(s)|
  }

  /** Holds from the beginning of a call until it has returned. */
  ghost predicate Outline(c: Setup, s: State) {
    && Sizes(c, s) && Admissible(c, s.start, s.call) && SameShape(s.mem, s.start)
    && (forall l :: 0 <= l < c.workers ==> RequestsOk(c, s.start, l, s.qps[l]))
    && match s.caller
       case Idle => forall t :: 0 <= t < c.workers ==> Resting(s, t)
       case Inline(h) =>
         && !Large(s.call) && (forall t :: 0 <= t < c.workers ==> Resting(s, t))
         && h.task == s.call && HamalShape(h)
       case Leaving => !Large(s.call) && forall t :: 0 <= t < c.workers ==> Resting(s, t)
       case Pushing(next, _) => next < c.workers && LargeOutline(c, s)
       case Awaiting => LargeOutline(c, s)
  }

  lemma BeginOutline(c: Setup, s: State, call: Task)
    requires Between(c, s) && Admissible(c, s.mem, call)
    ensures Enabled(c, s, Begin(call)) && Outline(c, Apply(c, s, Begin(call)))
  {
    var e := Apply(c, s, Begin(call));
    if Large(call) {
      forall t | 0 <= t < c.workers ensures WorkerShape(c, e, t) { assert s.workers[t] == Worker([], 0, Spinning); }
      assert FinishedSet(e) == {};
    }
  }

  // ---------------------------------------------------------------- each step keeps it

  lemma SameShapeOfWorker(c: Setup, s: State, s': State, u: nat)
    requires Sizes(c, s) && Sizes(c, s') && FitsInt(s.call.size, c.workers) && s'.call == s.call && u < c.workers
    requires s'.workers[u] == s.workers[u] && s'.tasks[u] == s.tasks[u] && PushState(s', u) == PushState(s, u)
    ensures WorkerShape(c, s', u) == WorkerShape(c, s, u) && IsFinished(s', u) == IsFinished(s, u)
  {
  }

  lemma PushOutline(c: Setup, s: State, step: Step)
    requires Outline(c, s) && Enabled(c, s, step) && (step.PushItem? || step.PushCount?)
    ensures Outline(c, Apply(c, s, step))
  {
    var s', i := Apply(c, s, step), s.caller.next;
    assert WorkerShape(c, s, i);
    assert WorkerShape(c, s', i);
    forall u | 0 <= u < c.workers
      ensures WorkerShape(c, s', u) && (IsFinished(s', u) <==> IsFinished(s, u))
    {
      if u != i { SameShapeOfWorker(c, s, s', u); assert WorkerShape(c, s, u); }
    }
    assert FinishedSet(s') == FinishedSet(s);
  }

  lemma ReturnOutline(c: Setup, s: State, step: Step)
    requires Outline(c, s) && Enabled(c, s, step) && (step.AwaitExit? || step.LeaveInline?)
    ensures Outline(c, Apply(c, s, step))
  {
    var s' := Apply(c, s, step);
    FinishedBound(c, s);
    forall t | 0 <= t < c.workers ensures Resting(s', t) {
      if step.AwaitExit? { assert IsFinished(s, t) && WorkerShape(c, s, t); } else { assert Resting(s, t); }
    }
  }

  /** A step of worker `t` in a large call. */
  lemma WorkerOutline(c: Setup, s: State, s': State, t: nat)
    requires Outline(c, s) && InLarge(s) && Sizes(c, s') && t < c.workers
    requires s'.caller == s.caller && s'.call == s.call && s'.start == s.start && s'.tasks == s.tasks
        && SameShape(s'.mem, s.start)
    requires s'.workers == s.workers[t := s'.workers[t]] && WorkerShape(c, s', t)
    requires forall l :: 0 <= l < c.workers ==> RequestsOk(c, s.start, l, s'.qps[l])
    requires !IsFinished(s, t) && s'.signal == s.signal + if IsFinished(s', t) then 1 else 0
    ensures Outline(c, s')
  {
    forall u | 0 <= u < c.workers && u != t
      ensures WorkerShape(c, s', u) && (IsFinished(s', u) <==> IsFinished(s, u))
    {
      SameShapeOfWorker(c, s, s', u);
      assert WorkerShape(c, s, u);
    }
    FinishedStep(s, s', t);
  }

  /** A worker leaves PopPolling's spin only during a large call. */
  lemma PopsInLarge(c: Setup, s: State, t: nat)
    requires Outline(c, s) && t < c.workers && (s.workers[t].offset != 0 || !s.workers[t].pc.Spinning?)
    ensures InLarge(s) && WorkerShape(c, s, t) && !IsFinished(s, t)
  {
    assert InLarge(s) || Resting(s, t);
    assert WorkerShape(c, s, t);
  }

  lemma PopOutline(c: Setup, s: State, step: Step)
    requires Outline(c, s) && Enabled(c, s, step) && (step.See? || step.Erase? || step.Decrement? || step.Dereference?)
    ensures Outline(c, Apply(c, s, step))
  {
    PopsInLarge(c, s, step.t);
    WorkerOutline(c, s, Apply(c, s, step), step.t);
  }

  /** Whose task an activation works on. */
  lemma ActiveShape(c: Setup, s: State, t: nat)
    requires Outline(c, s) && HamalOf(c, s, t).Some?
    ensures (t < c.workers && InLarge(s) && WorkerShape(c, s, t) && !IsFinished(s, t)) || (t == c.workers
        && s.caller.Inline?)
    ensures LaneOf(c, t) < c.workers && HamalShape(HamalOf(c, s, t).value)
    ensures var h := HamalOf(c, s, t).value;
      && h.task == (if t < c.workers then Part(c, s.call, t) else s.call)
      && h.task.write == s.call.write && OffPools(c, h.task)
      && s.call.user <= h.task.user && h.task.user + h.task.size <= s.call.user + s.call.size
      && s.call.remote <= h.task.remote && h.task.remote + h.task.size <= s.call.remote + s.call.size
      && Mapped(c, s.mem, LaneOf(c, t), h.task)
  {
    if t < c.workers {
      PopsInLarge(c, s, t);
      PartIn(c, s.start, s.call, t);
    }
    PoolsApart(c, LaneOf(c, t), c.workers);
  }

  /** The shape shared by the steps of an activation. */
  lemma ActiveOutline(c: Setup, s: State, s': State, t: nat, h': Hamal)
    requires Outline(c, s) && HamalOf(c, s, t).Some? && OnlyLane(c, s, s', t, h') && Sizes(c, s')
        && SameShape(s'.mem, s.start)
    requires h'.task == HamalOf(c, s, t).value.task && HamalShape(h')
    requires forall l :: 0 <= l < c.workers ==> RequestsOk(c, s.start, l, s'.qps[l])
    ensures Outline(c, s')
  {
    ActiveShape(c, s, t);
    if t < c.workers {
      WorkerOutline(c, s, s', t);
    } else {
      forall u | 0 <= u < c.workers ensures Resting(s', u) { assert Resting(s, u); }
    }
  }

  lemma CopyOutline(c: Setup, s: State, t: nat)
    requires Outline(c, s)
    ensures Enabled(c, s, CopyIn(t)) ==> Outline(c, Apply(c, s, CopyIn(t)))
    ensures Enabled(c, s, CopyOut(t)) ==> Outline(c, Apply(c, s, CopyOut(t)))
  {
    if HamalOf(c, s, t).Some? {
      ActiveShape(c, s, t);
      var h := HamalOf(c, s, t).value;
      if Enabled(c, s, CopyIn(t)) { ActiveOutline(c, s, Apply(c, s, CopyIn(t)), t, h.(stage := Staged)); }
      if Enabled(c, s, CopyOut(t)) { ActiveOutline(c, s, Apply(c, s, CopyOut(t)), t, Advanced(h)); }
    }
  }

  lemma PostOutline(c: Setup, s: State, t: nat)
    requires Outline(c, s) && Enabled(c, s, Post(t))
    ensures Outline(c, Apply(c, s, Post(t)))
  {
    ActiveShape(c, s, t);
    var s', h, l := Apply(c, s, Post(t)), HamalOf(c, s, t).value, LaneOf(c, t);
    forall k | 0 <= k < c.workers ensures RequestsOk(c, s.start, k, s'.qps[k]) {
      assert RequestsOk(c, s.start, k, s.qps[k]);
      assert RequestOk(c, s.start, l, WrOf(c, l, h));
    }
    ActiveOutline(c, s, s', t, h.(stage := Waiting));
  }

  lemma PollOutline(c: Setup, s: State, t: nat, k: nat)
    requires Outline(c, s) && Enabled(c, s, Poll(t, k))
    ensures Outline(c, Apply(c, s, Poll(t, k)))
  {
    ActiveShape(c, s, t);
    ActiveOutline(c, s, Apply(c, s, Poll(t, k)), t, Polled(HamalOf(c, s, t).value));
  }

  lemma FinishOutline(c: Setup, s: State, t: nat)
    requires Outline(c, s) && Enabled(c, s, Finish(t))
    ensures Outline(c, Apply(c, s, Finish(t)))
  {
    ActiveShape(c, s, t);
    var s' := Apply(c, s, Finish(t));
    if t < c.workers {
      FinishedBound(c, s);
      WorkerOutline(c, s, s', t);
    } else {
      forall u | 0 <= u < c.workers ensures Resting(s', u) { assert Resting(s, u); }
    }
  }

  lemma NicOutline(c: Setup, s: State, step: Step)
    requires Outline(c, s) && Enabled(c, s, step) && (step.Execute? || step.ExecuteOther?)
    ensures Outline(c, Apply(c, s, step))
  {
    var s' := Apply(c, s, step);
    forall k | 0 <= k < c.workers ensures RequestsOk(c, s.start, k, s'.qps[k]) {
      assert RequestsOk(c, s.start, k, s.qps[k]);
    }
    if InLarge(s) {
      forall u | 0 <= u < c.workers ensures WorkerShape(c, s', u) && (IsFinished(s', u) <==> IsFinished(s, u)) {
        SameShapeOfWorker(c, s, s', u);
        assert WorkerShape(c, s, u);
      }
      assert FinishedSet(s') == FinishedSet(s);
    } else {
      forall u | 0 <= u < c.workers ensures Resting(s', u) { assert Resting(s, u); }
    }
  }

  lemma StepOutline(c: Setup, s: State, step: Step)
    requires Outline(c, s) && Enabled(c, s, step) && !step.Begin?
    ensures Outline(c, Apply(c, s, step))
  {
    hide Outline, Enabled, Apply;
    match step {
      case Begin(_) =>
      case PushItem => PushOutline(c, s, step);
      case PushCount => PushOutline(c, s, step);
      case AwaitExit => ReturnOutline(c, s, step);
      case LeaveInline => ReturnOutline(c, s, step);
      case CopyIn(t) => CopyOutline(c, s, t);
      case Post(t) => PostOutline(c, s, t);
      case Poll(t, k) => PollOutline(c, s, t, k);
      case CopyOut(t) => CopyOutline(c, s, t);
      case Finish(t) => FinishOutline(c, s, t);
      case Execute(_) => NicOutline(c, s, step);
      case ExecuteOther(_) => NicOutline(c, s, step);
      case See(_) => PopOutline(c, s, step);
      case Erase(_) => PopOutline(c, s, step);
      case Decrement(_) => PopOutline(c, s, step);
      case Dereference(_) => PopOutline(c, s, step);
    }
  }

  /** A request of the call: it stays within the remote range. */
  ghost predicate Within(call: Task, wr: Wr) {
    wr.write == call.write && call.remote <= wr.remote && wr.remote + wr.len <= call.remote + call.size
  }

  /** A step of a call posts no request outside the range of the call. */
  lemma StepPosts(c: Setup, s: State, step: Step, l: nat, wr: Wr)
    requires Outline(c, s) && Enabled(c, s, step) && !step.Begin? && l < c.workers
    requires |Apply(c, s, step).qps| == c.workers && wr in Apply(c, s, step).qps[l]
    ensures wr in s.qps[l] || Within(s.call, wr)
  {
    if step.Post? { ActiveShape(c, s, step.t); }
  }

  // ---------------------------------------------------------------- runs of any number of calls

  /** Holds in every run: the outline of a call in progress, and what a call must find between calls. */
  ghost predicate Kept(c: Setup, s: State) {
    if s.caller.Idle? then Between(c, s) else Outline(c, s)
  }

  lemma IdleBetween(c: Setup, s: State)
    requires Outline(c, s) && s.caller.Idle?
    ensures Between(c, s)
  {
    forall t | 0 <= t < c.workers
      ensures s.workers[t] == Worker([], 0, Spinning) && RequestsOk(c, s.mem, t, s.qps[t])
    {
      assert Resting(s, t) && RequestsOk(c, s.start, t, s.qps[t]);
    }
  }

  /** Between calls only the NIC moves. */
  lemma NicBetween(c: Setup, s: State, step: Step)
    requires Between(c, s) && Enabled(c, s, step) && !step.Begin?
    ensures Between(c, Apply(c, s, step)) && (step.Execute? || step.ExecuteOther?)
  {
    var s' := Apply(c, s, step);
    forall l | 0 <= l < c.workers ensures RequestsOk(c, s'.mem, l, s'.qps[l]) {
      assert RequestsOk(c, s.mem, l, s.qps[l]);
    }
  }

  lemma StepKept(c: Setup, s: State, step: Step)
    requires Kept(c, s) && Enabled(c, s, step)
    ensures Kept(c, Apply(c, s, step))
  {
    hide Outline, Apply, Between;
    if step.Begin? {
      BeginsIdle(c, s, step.task);
      BeginOutline(c, s, step.task);
      OutlineKept(c, Apply(c, s, step));
    } else if s.caller.Idle? {
      NicBetween(c, s, step);
      NicIdle(c, s, step);
    } else {
      StepOutline(c, s, step);
      OutlineKept(c, Apply(c, s, step));
    }
  }

  lemma BeginsIdle(c: Setup, s: State, call: Task)
    requires Enabled(c, s, Begin(call))
    ensures s.caller.Idle? && Admissible(c, s.mem, call)
  {
  }

  lemma NicIdle(c: Setup, s: State, step: Step)
    requires Enabled(c, s, step) && (step.Execute? || step.ExecuteOther?)
    ensures Apply(c, s, step).caller == s.caller
  {
  }

  lemma OutlineKept(c: Setup, s: State)
    requires Outline(c, s)
    ensures Kept(c, s)
  {
    if s.caller.Idle? { IdleBetween(c, s); }
  }

  lemma {:induction false} RunKept(c: Setup, s: State, steps: seq<Step>, p: Policy)
    requires Between(c, s) && Run(c, s, steps, p)
    ensures Kept(c, Exec(c, s, steps, p))
    decreases |steps|
  {
    if steps != [] {
      var n := |steps| - 1;
      RunKept(c, s, steps[..n], p);
      StepKept(c, Exec(c, s, steps[..n], p), steps[n]);
    }
  }

  /** A polling queue holds at most one task and its vector is not pushed while it is popped, no worker erases from an
      empty vector or reads a task that is no longer on the caller's stack, the signal counts the workers that have
      finished, and every address that a thread or the NIC touches exists. */
  ghost predicate Handshake(c: Setup, s: State) {
    && (forall t {:trigger s.workers[t]} :: 0 <= t < |s.workers| ==>
          && |s.workers[t].queue| <= 1 && s.workers[t].offset <= 1
          && (s.workers[t].pc.Admitted? ==> s.workers[t].queue != [])
          && (s.workers[t].pc.Erased? ==> s.workers[t].offset == 1)
          && (s.workers[t].pc.Holding? ==> s.workers[t].pc.ptr < |s.tasks| && s.tasks[s.workers[t].pc.ptr].Some?))
    && (s.caller.Pushing? ==>
          s.caller.next < |s.workers| && s.workers[s.caller.next].pc.Spinning? && s.workers[s.caller.next].offset == 0)
    && (s.caller.Pushing? || s.caller.Awaiting? ==> s.signal == |FinishedSet(s)|)
    && (s.caller.Idle? ==> forall t {:trigger s.workers[t]} :: 0 <= t < |s.workers| ==> Resting(s, t))
    && (forall t {:trigger HamalOf(c, s, t)} :: 0 <= t <= c.workers && HamalOf(c, s, t).Some? ==>
          LaneOf(c, t) < |s.qps| && Mapped(c, s.mem, LaneOf(c, t), HamalOf(c, s, t).value.task))
    && (forall l {:trigger s.qps[l]} :: 0 <= l < |s.qps| && s.qps[l] != [] ==> Enabled(c, s, Execute(l)))
  }

  lemma WorkersShake(c: Setup, s: State, t: nat)
    requires Outline(c, s) && t < c.workers
    ensures |s.workers[t].queue| <= 1 && s.workers[t].offset <= 1
    ensures s.workers[t].pc.Admitted? ==> s.workers[t].queue != []
    ensures s.workers[t].pc.Erased? ==> s.workers[t].offset == 1
    ensures s.workers[t].pc.Holding? ==> s.workers[t].pc.ptr < |s.tasks| && s.tasks[s.workers[t].pc.ptr].Some?
    ensures s.caller.Pushing? && s.caller.next == t ==> s.workers[t].pc.Spinning? && s.workers[t].offset == 0
    ensures s.caller.Idle? ==> Resting(s, t)
  {
    assert if InLarge(s) then WorkerShape(c, s, t) else Resting(s, t);
  }

  lemma RequestsEnabled(c: Setup, s: State, l: nat)
    requires |s.qps| == c.workers && l < c.workers && RequestsOk(c, s.mem, l, s.qps[l]) && s.qps[l] != []
    requires PoolAddr(c, c.workers) <= |s.mem.local|
    ensures Enabled(c, s, Execute(l))
  {
    PoolsApart(c, l, c.workers);
  }

  lemma OutlineHandshake(c: Setup, s: State)
    requires Outline(c, s)
    ensures Handshake(c, s)
  {
    forall t | 0 <= t <= c.workers && HamalOf(c, s, t).Some?
      ensures LaneOf(c, t) < |s.qps| && Mapped(c, s.mem, LaneOf(c, t), HamalOf(c, s, t).value.task)
    {
      ActiveShape(c, s, t);
    }
    forall l | 0 <= l < |s.qps| && s.qps[l] != [] ensures Enabled(c, s, Execute(l)) {
      assert RequestsOk(c, s.start, l, s.qps[l]);
      RequestsEnabled(c, s, l);
    }
    forall t | 0 <= t < |s.workers|
      ensures |s.workers[t].queue| <= 1 && s.workers[t].offset <= 1
      ensures s.workers[t].pc.Admitted? ==> s.workers[t].queue != []
      ensures s.workers[t].pc.Erased? ==> s.workers[t].offset == 1
      ensures s.workers[t].pc.Holding? ==> s.workers[t].pc.ptr < |s.tasks| && s.tasks[s.workers[t].pc.ptr].Some?
      ensures s.caller.Pushing? && s.caller.next == t ==> s.workers[t].pc.Spinning? && s.workers[t].offset == 0
      ensures s.caller.Idle? ==> Resting(s, t)
    {
      WorkersShake(c, s, t);
    }
  }

  lemma BetweenHandshake(c: Setup, s: State)
    requires Between(c, s)
    ensures Handshake(c, s)
  {
    forall t | 0 <= t < |s.workers| ensures Resting(s, t) { assert s.workers[t] == Worker([], 0, Spinning); }
    forall t | 0 <= t <= c.workers ensures HamalOf(c, s, t).None? {
      assert t < c.workers ==> s.workers[t] == Worker([], 0, Spinning);
    }
    forall l | 0 <= l < |s.qps| && s.qps[l] != [] ensures Enabled(c, s, Execute(l)) {
      assert RequestsOk(c, s.mem, l, s.qps[l]);
      RequestsEnabled(c, s, l);
    }
  }

  /** In every run of any number of calls, whichever completions polls take and whatever earlier calls have left
      over. */
  lemma {:induction false} RunHandshake(c: Setup, s: State, steps: seq<Step>, p: Policy)
    requires Between(c, s) && Run(c, s, steps, p)
    ensures Handshake(c, Exec(c, s, steps, p))
    ensures Exec(c, s, steps, p).caller.Idle? ==> Between(c, Exec(c, s, steps, p))
  {
    RunKept(c, s, steps, p);
    var e := Exec(c, s, steps, p);
    if e.caller.Idle? { BetweenHandshake(c, e); } else { OutlineHandshake(c, e); }
  }

  /** The tasks on the stack of a large call are there while it is in progress. */
  predicate TasksGone(s: State) { InLarge(s) || forall i :: 0 <= i < |s.tasks| ==> s.tasks[i].None? }

  lemma StepTasks(c: Setup, s: State, step: Step)
    requires TasksGone(s) && Enabled(c, s, step)
    ensures TasksGone(Apply(c, s, step))
  {
  }

  /** Between calls no task is left, in every run of any number of calls. */
  lemma {:induction false} NoTaskLeft(c: Setup, s: State, steps: seq<Step>, p: Policy)
    requires Between(c, s) && (forall i :: 0 <= i < |s.tasks| ==> s.tasks[i].None?) && Run(c, s, steps, p)
    ensures var e := Exec(c, s, steps, p); e.caller.Idle? ==> forall i :: 0 <= i < |e.tasks| ==> e.tasks[i].None?
    ensures TasksGone(Exec(c, s, steps, p))
    decreases |steps|
  {
    hide Apply, Enabled;
    if steps != [] {
      var n := |steps| - 1;
      NoTaskLeft(c, s, steps[..n], p);
      StepTasks(c, Exec(c, s, steps[..n], p), steps[n]);
    }
  }

  // ---------------------------------------------------------------- the steps that are left

  /** How many rounds the chunk loop makes over `n` bytes. */
  function Chunks(n: nat): nat {
    if n == 0 then 0 else 1 + Chunks(n - Min(CHUNK, n))
  }

  /** That is the number of 1 MiB chunks, rounded up. */
  lemma {:induction false} ChunksCeiling(n: nat)
    ensures Chunks(n) == (n + 1048575) / 1048576
  {
    if n > 0 { ChunksCeiling(n - Min(CHUNK, n)); }
  }

  /** Steps left in an activation: four a chunk (three of its own and one of the NIC) and the final one. A request
      that is posted is not counted here. */
  function HamalLeft(h: Hamal): int
    requires h.done <= h.task.size
  {
    4 * Chunks(h.task.size - h.done) + 1 -
    match h.stage
    case Top => 0
    case Staged => 1
    case Waiting => if h.task.write then 3 else 2
    case Arrived => 3
  }

  function FullLeft(task: Task): nat {
    4 * Chunks(task.size) + 1
  }

  lemma PollDrop(h: Hamal)
    requires h.done < h.task.size && h.stage.Waiting?
    ensures Polled(h).done <= Polled(h).task.size && HamalLeft(Polled(h)) == HamalLeft(h) - 1
  {
  }

  lemma CopyOutDrop(h: Hamal)
    requires h.done < h.task.size && h.stage.Arrived?
    ensures HamalLeft(Advanced(h)) == HamalLeft(h) - 1
  {
  }

  /** Steps left for worker `t`, counting the executions of requests that are not posted yet. */
  ghost function WorkerLeft(c: Setup, s: State, t: nat): int
    requires Outline(c, s) && InLarge(s) && t < c.workers
  {
    var full := FullLeft(Part(c, s.call, t));
    assert WorkerShape(c, s, t);
    match s.workers[t].pc
    case Spinning => if IsFinished(s, t) then 0 else full + 4
    case Admitted => full + 3
    case Erased(_) => full + 2
    case Holding(_) => full + 1
    case Busy(h) => HamalLeft(h)
  }

  ghost function WorkersLeft(c: Setup, s: State, n: nat): int
    requires Outline(c, s) && InLarge(s) && n <= c.workers
  {
    if n == 0 then 0 else WorkersLeft(c, s, n - 1) + WorkerLeft(c, s, n - 1)
  }

  /** Steps left for the threads, and for the NIC with the requests that they will still post. */
  ghost function ThreadsLeft(c: Setup, s: State): int
    requires Outline(c, s)
  {
    match s.caller
    case Idle => 0
    case Leaving => 1
    case Inline(h) => HamalLeft(h) + 1
    case Pushing(next, appended) => 2 * (c.workers - next) - (if appended then 1 else 0) + 1 + WorkersLeft(c, s,
        c.workers)
    case Awaiting => 1 + WorkersLeft(c, s, c.workers)
  }

  /** The same with the requests that are posted, also those of other queue pairs. */
  ghost function AllLeft(c: Setup, s: State): int
    requires Outline(c, s)
  {
    ThreadsLeft(c, s) + Posted(s.qps) + s.others
  }

  lemma {:induction false} LeftSame(c: Setup, s: State, s': State, n: nat)
    requires Outline(c, s) && InLarge(s) && Outline(c, s') && InLarge(s') && n <= c.workers
    requires forall u :: 0 <= u < n ==> WorkerLeft(c, s', u) == WorkerLeft(c, s, u)
    ensures WorkersLeft(c, s', n) == WorkersLeft(c, s, n)
  {
    if n > 0 { LeftSame(c, s, s', n - 1); }
  }

  lemma {:induction false} LeftOne(c: Setup, s: State, s': State, t: nat, n: nat)
    requires Outline(c, s) && InLarge(s) && Outline(c, s') && InLarge(s') && t < n <= c.workers
    requires forall u :: 0 <= u < n && u != t ==> WorkerLeft(c, s', u) == WorkerLeft(c, s, u)
    ensures WorkersLeft(c, s', n) == WorkersLeft(c, s, n) - WorkerLeft(c, s, t) + WorkerLeft(c, s', t)
  {
    if n == t + 1 { LeftSame(c, s, s', t); } else { LeftOne(c, s, s', t, n - 1); }
  }

  /** Only worker `t` moved, by `d`. */
  lemma WorkerMoved(c: Setup, s: State, s': State, t: nat)
    requires Outline(c, s) && InLarge(s) && Outline(c, s') && s'.caller == s.caller && s'.call == s.call
        && t < c.workers
    requires forall u :: 0 <= u < c.workers && u != t ==> s'.workers[u] == s.workers[u]
    ensures ThreadsLeft(c, s') == ThreadsLeft(c, s) - WorkerLeft(c, s, t) + WorkerLeft(c, s', t)
  {
    forall u | 0 <= u < c.workers && u != t
      ensures WorkerLeft(c, s', u) == WorkerLeft(c, s, u)
    {
      assert IsFinished(s', u) <==> IsFinished(s, u);
    }
    LeftOne(c, s, s', t, c.workers);
  }

  lemma CallerLeft(c: Setup, s: State, step: Step)
    requires Outline(c, s) && Enabled(c, s, step) && (step.PushItem? || step.PushCount?)
    ensures Outline(c, Apply(c, s, step)) && AllLeft(c, Apply(c, s, step)) == AllLeft(c, s) - 1
  {
    var s' := Apply(c, s, step);
    StepOutline(c, s, step);
    forall u | 0 <= u < c.workers
      ensures WorkerLeft(c, s', u) == WorkerLeft(c, s, u)
    {
      assert WorkerShape(c, s, u) && WorkerShape(c, s', u);
    }
    LeftSame(c, s, s', c.workers);
  }

  lemma {:induction false} AllFinishedLeft(c: Setup, s: State, n: nat)
    requires Outline(c, s) && InLarge(s) && n <= c.workers && forall t :: 0 <= t < n ==> IsFinished(s, t)
    ensures WorkersLeft(c, s, n) == 0
  {
    if n > 0 {
      AllFinishedLeft(c, s, n - 1);
      assert IsFinished(s, n - 1);
    }
  }

  lemma ReturnLeft(c: Setup, s: State, step: Step)
    requires Outline(c, s) && Enabled(c, s, step) && (step.AwaitExit? || step.LeaveInline?)
    ensures Outline(c, Apply(c, s, step)) && AllLeft(c, Apply(c, s, step)) == AllLeft(c, s) - 1
  {
    StepOutline(c, s, step);
    FinishedBound(c, s);
    if step.AwaitExit? { AllFinishedLeft(c, s, c.workers); }
  }

  lemma OutlineSizes(c: Setup, s: State)
    requires Outline(c, s)
    ensures Sizes(c, s)
  {
  }

  lemma PopsOne(c: Setup, s: State, step: Step)
    requires Outline(c, s) && Enabled(c, s, step) && (step.See? || step.Erase? || step.Decrement? || step.Dereference?)
    requires Outline(c, Apply(c, s, step)) && InLarge(s) && WorkerShape(c, s, step.t)
    ensures InLarge(Apply(c, s, step)) && Apply(c, s, step).call == s.call && step.t < c.workers
    ensures WorkerLeft(c, Apply(c, s, step), step.t) == WorkerLeft(c, s, step.t) - 1
  {
    hide RequestsOk, SameShape, Admissible;
  }

  lemma PopLeft(c: Setup, s: State, step: Step)
    requires Outline(c, s) && Enabled(c, s, step) && (step.See? || step.Erase? || step.Decrement? || step.Dereference?)
    ensures Outline(c, Apply(c, s, step)) && AllLeft(c, Apply(c, s, step)) == AllLeft(c, s) - 1
  {
    hide Outline, WorkerLeft, ThreadsLeft;
    OutlineSizes(c, s);
    StepOutline(c, s, step);
    PopsInLarge(c, s, step.t);
    PopsOne(c, s, step);
    WorkerMoved(c, s, Apply(c, s, step), step.t);
  }

  /** An activation moved from `h` to `h'`. */
  lemma ActiveLeft(c: Setup, s: State, s': State, t: nat, h: Hamal, h': Hamal)
    requires Outline(c, s) && Outline(c, s') && HamalOf(c, s, t) == Some(h) && OnlyLane(c, s, s', t, h')
    ensures h.done <= h.task.size && h'.done <= h'.task.size
    ensures ThreadsLeft(c, s') == ThreadsLeft(c, s) - HamalLeft(h) + HamalLeft(h')
  {
    ActiveShape(c, s, t);
    if t < c.workers {
      assert WorkerShape(c, s', t);
      WorkerMoved(c, s, s', t);
    }
  }

  lemma CopyLeft(c: Setup, s: State, step: Step)
    requires Outline(c, s) && Enabled(c, s, step) && (step.CopyIn? || step.CopyOut?)
    ensures Outline(c, Apply(c, s, step)) && AllLeft(c, Apply(c, s, step)) == AllLeft(c, s) - 1
  {
    hide RequestsOk, SameShape, Admissible, Mapped;
    StepOutline(c, s, step);
    ActiveShape(c, s, step.t);
    var h := HamalOf(c, s, step.t).value;
    if step.CopyIn? {
      ActiveLeft(c, s, Apply(c, s, step), step.t, h, h.(stage := Staged));
    } else {
      CopyOutDrop(h);
      ActiveLeft(c, s, Apply(c, s, step), step.t, h, Advanced(h));
    }
  }

  lemma PostLeft(c: Setup, s: State, t: nat)
    requires Outline(c, s) && Enabled(c, s, Post(t))
    ensures Outline(c, Apply(c, s, Post(t))) && AllLeft(c, Apply(c, s, Post(t))) == AllLeft(c, s) - 1
  {
    StepOutline(c, s, Post(t));
    ActiveShape(c, s, t);
    var h, l := HamalOf(c, s, t).value, LaneOf(c, t);
    ActiveLeft(c, s, Apply(c, s, Post(t)), t, h, h.(stage := Waiting));
    PostedUpdate(s.qps, l, s.qps[l] + [WrOf(c, l, h)]);
  }

  lemma PollLeft(c: Setup, s: State, t: nat, k: nat)
    requires Outline(c, s) && Enabled(c, s, Poll(t, k))
    ensures Outline(c, Apply(c, s, Poll(t, k))) && AllLeft(c, Apply(c, s, Poll(t, k))) == AllLeft(c, s) - 1
  {
    StepOutline(c, s, Poll(t, k));
    ActiveShape(c, s, t);
    var h := HamalOf(c, s, t).value;
    PollDrop(h);
    ActiveLeft(c, s, Apply(c, s, Poll(t, k)), t, h, Polled(h));
  }

  lemma FinishLeft(c: Setup, s: State, t: nat)
    requires Outline(c, s) && Enabled(c, s, Finish(t))
    ensures Outline(c, Apply(c, s, Finish(t))) && AllLeft(c, Apply(c, s, Finish(t))) == AllLeft(c, s) - 1
  {
    StepOutline(c, s, Finish(t));
    ActiveShape(c, s, t);
    if t < c.workers { WorkerMoved(c, s, Apply(c, s, Finish(t)), t); }
  }

  lemma NicLeft(c: Setup, s: State, step: Step)
    requires Outline(c, s) && Enabled(c, s, step) && (step.Execute? || step.ExecuteOther?)
    ensures Outline(c, Apply(c, s, step)) && AllLeft(c, Apply(c, s, step)) == AllLeft(c, s) - 1
  {
    var s' := Apply(c, s, step);
    StepOutline(c, s, step);
    if step.Execute? { PostedUpdate(s.qps, step.lane, s.qps[step.lane][1..]); }
    if InLarge(s) {
      forall u | 0 <= u < c.workers ensures WorkerLeft(c, s', u) == WorkerLeft(c, s, u) {
        assert IsFinished(s', u) <==> IsFinished(s, u);
      }
      LeftSame(c, s, s', c.workers);
    }
  }

  /** Every step inside a call, whichever completion a poll takes, is one of the steps left. */
  lemma StepLeft(c: Setup, s: State, step: Step)
    requires Outline(c, s) && Enabled(c, s, step) && !step.Begin?
    ensures Outline(c, Apply(c, s, step)) && AllLeft(c, Apply(c, s, step)) == AllLeft(c, s) - 1
  {
    hide Outline, Enabled, Apply, AllLeft;
    match step {
      case Begin(_) =>
      case PushItem => CallerLeft(c, s, step);
      case PushCount => CallerLeft(c, s, step);
      case AwaitExit => ReturnLeft(c, s, step);
      case LeaveInline => ReturnLeft(c, s, step);
      case CopyIn(_) => CopyLeft(c, s, step);
      case Post(t) => PostLeft(c, s, t);
      case Poll(t, k) => PollLeft(c, s, t, k);
      case CopyOut(_) => CopyLeft(c, s, step);
      case Finish(t) => FinishLeft(c, s, t);
      case Execute(_) => NicLeft(c, s, step);
      case ExecuteOther(_) => NicLeft(c, s, step);
      case See(_) => PopLeft(c, s, step);
      case Erase(_) => PopLeft(c, s, step);
      case Decrement(_) => PopLeft(c, s, step);
      case Dereference(_) => PopLeft(c, s, step);
    }
  }
}
