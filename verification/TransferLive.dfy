/** Every call returns, in every schedule and whichever completions polls take, after a number of steps that only the
    requests left unexecuted can change. */
module TransferLive {
  import opened PartSplit
  import opened Transfer
  import opened TransferSafety
  import opened TransferSteps
  import opened TransferRuns
  import opened TransferCount
  import opened TransferAny

  // ---------------------------------------------------------------- polls that take the poller's own completion

  /** Every thread that polls has a request of its lane posted, or a completion of it in the CQ. */
  ghost predicate Fed(c: Setup, s: State)
    requires |s.qps| == c.workers >= 1
  {
    forall t {:trigger HamalOf(c, s, t)} ::
      0 <= t <= c.workers && HamalOf(c, s, t).Some? && HamalOf(c, s, t).value.stage.Waiting? ==>
        s.qps[LaneOf(c, t)] != [] || LaneOf(c, t) in s.cq
  }

  lemma WithoutOther(cq: seq<nat>, k: nat, l: nat)
    requires k < |cq| && l in cq && l != cq[k]
    ensures l in Without(cq, k)
  {
    assert cq == cq[..k] + [cq[k]] + cq[k + 1..];
  }

  /** A thread that polls has just posted, or was polling already. */
  lemma PolledBefore(c: Setup, s: State, step: Step, t: nat)
    requires Enabled(c, s, step) && |s.workers| == c.workers && t <= c.workers && !step.Post?
    requires var h := HamalOf(c, Apply(c, s, step), t); h.Some? && h.value.stage.Waiting?
    ensures HamalOf(c, s, t) == HamalOf(c, Apply(c, s, step), t)
    ensures !(step.Poll? && step.t == t)
  {
  }

  lemma PostedBefore(c: Setup, s: State, t: nat, u: nat)
    requires Enabled(c, s, Post(t)) && |s.workers| == c.workers && u <= c.workers && u != t
    ensures HamalOf(c, s, u) == HamalOf(c, Apply(c, s, Post(t)), u)
  {
  }

  /** Requests and completions of a lane stay, but for what the thread of the lane polls. */
  lemma LaneStays(c: Setup, s: State, step: Step, l: nat)
    requires Enabled(c, s, step) && l < |s.qps| && (s.qps[l] != [] || l in s.cq)
    requires !(step.Poll? && s.cq[step.k] == l)
    ensures var s' := Apply(c, s, step); |s'.qps| == |s.qps| && (s'.qps[l] != [] || l in s'.cq)
  {
    if step.Poll? && l in s.cq { WithoutOther(s.cq, step.k, l); }
  }

  lemma StepFed(c: Setup, s: State, step: Step)
    requires Outline(c, s) && Fed(c, s) && Allowed(c, s, step, Own) && !step.Begin? && Outline(c, Apply(c, s, step))
    ensures Fed(c, Apply(c, s, step))
  {
    var s' := Apply(c, s, step);
    OutlineSizes(c, s);
    forall t | 0 <= t <= c.workers && HamalOf(c, s', t).Some? && HamalOf(c, s', t).value.stage.Waiting?
      ensures s'.qps[LaneOf(c, t)] != [] || LaneOf(c, t) in s'.cq
    {
      FedAfter(c, s, step, t);
    }
  }

  lemma FedAfter(c: Setup, s: State, step: Step, t: nat)
    requires Outline(c, s) && Fed(c, s) && Allowed(c, s, step, Own) && t <= c.workers && |s.workers| == c.workers
    requires var h := HamalOf(c, Apply(c, s, step), t); h.Some? && h.value.stage.Waiting?
    requires |Apply(c, s, step).qps| == c.workers >= 1
    ensures Apply(c, s, step).qps[LaneOf(c, t)] != [] || LaneOf(c, t) in Apply(c, s, step).cq
  {
    hide Outline;
    if step != Post(t) {
      if step.Post? { PostedBefore(c, s, step.t, t); } else { PolledBefore(c, s, step, t); }
      if step.Poll? { OneThreadPerLane(c, s, step.t, t); }
      LaneStays(c, s, step, LaneOf(c, t));
    }
  }

  lemma OneThreadPerLane(c: Setup, s: State, t: nat, u: nat)
    requires Outline(c, s) && t <= c.workers && u <= c.workers && t != u
    requires HamalOf(c, s, t).Some? && HamalOf(c, s, u).Some?
    ensures LaneOf(c, t) != LaneOf(c, u)
  {
    ActiveShape(c, s, t);
    ActiveShape(c, s, u);
  }

  /** In every run, whatever was posted or left over at its start. */
  lemma {:induction false} RunFed(c: Setup, s: State, steps: seq<Step>)
    requires Between(c, s) && Run(c, s, steps, Own)
    ensures |Exec(c, s, steps, Own).qps| == c.workers && Fed(c, Exec(c, s, steps, Own))
    decreases |steps|
  {
    if steps == [] {
      IdleFed(c, s);
    } else {
      var n := |steps| - 1;
      RunFed(c, s, steps[..n]);
      RunKept(c, s, steps[..n], Own);
      StepKeptFed(c, Exec(c, s, steps[..n], Own), steps[n]);
    }
  }

  lemma StepKeptFed(c: Setup, s: State, step: Step)
    requires Kept(c, s) && |s.qps| == c.workers && Fed(c, s) && Allowed(c, s, step, Own)
    ensures |Apply(c, s, step).qps| == c.workers && Fed(c, Apply(c, s, step))
  {
    hide Outline, Between, Apply, Fed;
    if step.Begin? {
      BeginsIdle(c, s, step.task);
      BeginOutline(c, s, step.task);
      BeginFed(c, s, step.task);
    } else if s.caller.Idle? {
      NicBetween(c, s, step);
      IdleFed(c, Apply(c, s, step));
    } else {
      StepOutline(c, s, step);
      OutlineSizes(c, Apply(c, s, step));
      StepFed(c, s, step);
    }
  }

  lemma IdleFed(c: Setup, s: State)
    requires Between(c, s)
    ensures |s.qps| == c.workers && Fed(c, s)
  {
    forall t | 0 <= t <= c.workers ensures HamalOf(c, s, t).None? {
      assert t < c.workers ==> s.workers[t] == Worker([], 0, Spinning);
    }
  }

  lemma BeginFed(c: Setup, s: State, call: Task)
    requires Between(c, s) && Enabled(c, s, Begin(call))
    ensures |Apply(c, s, Begin(call)).qps| == c.workers && Fed(c, Apply(c, s, Begin(call)))
  {
    var e := Apply(c, s, Begin(call));
    forall t | 0 <= t < c.workers ensures HamalOf(c, e, t).None? {
      assert s.workers[t] == Worker([], 0, Spinning);
    }
  }

  // ---------------------------------------------------------------- no schedule gets stuck

  /** The CQ is fed: who waits finds a completion or a request still to execute, of its own lane if polls take their
      own. */
  ghost predicate CanPoll(c: Setup, s: State, p: Policy)
    requires |s.qps| == c.workers >= 1
  {
    if p.Own? then Fed(c, s) else Outstanding(s) >= Pollers(s)
  }

  lemma ActiveMoves(c: Setup, s: State, t: nat, p: Policy) returns (step: Step)
    requires Outline(c, s) && HamalOf(c, s, t).Some? && CanPoll(c, s, p)
    ensures Allowed(c, s, step, p) && !step.Begin?
  {
    ActiveShape(c, s, t);
    var h := HamalOf(c, s, t).value;
    match h.stage {
      case Top => step := if h.done == h.task.size then Finish(t) else if h.task.write then CopyIn(t) else Post(t);
      case Staged => step := Post(t);
      case Arrived => step := CopyOut(t);
      case Waiting => if p.Own? { step := FindOwn(c, s, t); } else { step := FindAny(c, s, t, p); }
    }
  }

  lemma LaneEnabled(c: Setup, s: State, l: nat)
    requires Outline(c, s) && l < c.workers && s.qps[l] != []
    ensures Enabled(c, s, Execute(l))
  {
    assert RequestsOk(c, s.start, l, s.qps[l]);
    PoolsApart(c, l, c.workers);
  }

  lemma FindOwn(c: Setup, s: State, t: nat) returns (step: Step)
    requires Outline(c, s) && HamalOf(c, s, t).Some? && HamalOf(c, s, t).value.stage.Waiting? && Fed(c, s)
    ensures Allowed(c, s, step, Own) && !step.Begin?
  {
    ActiveShape(c, s, t);
    var l := LaneOf(c, t);
    if s.qps[l] != [] {
      LaneEnabled(c, s, l);
      step := Execute(l);
    } else {
      var k :| 0 <= k < |s.cq| && s.cq[k] == l;
      step := Poll(t, k);
    }
  }

  lemma FindAny(c: Setup, s: State, t: nat, p: Policy) returns (step: Step)
    requires Outline(c, s) && HamalOf(c, s, t).Some? && HamalOf(c, s, t).value.stage.Waiting?
    requires Outstanding(s) >= Pollers(s) && !p.Own?
    ensures Allowed(c, s, step, p) && !step.Begin?
  {
    ActiveShape(c, s, t);
    if s.cq != [] {
      step := Poll(t, 0);
    } else if s.others > 0 {
      step := ExecuteOther(0);
    } else {
      if t < c.workers { PollerCounts(s.workers, t); }
      var l := SomePosted(s.qps);
      LaneEnabled(c, s, l);
      step := Execute(l);
    }
  }

  lemma WorkerMoves(c: Setup, s: State, t: nat, p: Policy) returns (step: Step)
    requires Outline(c, s) && s.caller.Awaiting? && t < c.workers && !IsFinished(s, t) && CanPoll(c, s, p)
    ensures Allowed(c, s, step, p) && !step.Begin?
  {
    assert WorkerShape(c, s, t);
    match s.workers[t].pc {
      case Spinning => step := See(t);
      case Admitted => step := Erase(t);
      case Erased(_) => step := Decrement(t);
      case Holding(_) => step := Dereference(t);
      case Busy(h) => step := ActiveMoves(c, s, t, p);
    }
  }

  /** While a call is in progress some step of it is possible, whichever completions polls take. */
  lemma AnyProgress(c: Setup, s: State, p: Policy) returns (step: Step)
    requires Outline(c, s) && !s.caller.Idle? && CanPoll(c, s, p)
    ensures Allowed(c, s, step, p) && !step.Begin?
  {
    match s.caller {
      case Idle =>
      case Leaving => step := LeaveInline;
      case Inline(_) => step := ActiveMoves(c, s, c.workers, p);
      case Pushing(_, appended) => step := if appended then PushCount else PushItem;
      case Awaiting =>
        if forall t :: 0 <= t < c.workers ==> IsFinished(s, t) {
          assert FinishedSet(s) == Below(c.workers);
          step := AwaitExit;
        } else {
          var t :| 0 <= t < c.workers && !IsFinished(s, t);
          step := WorkerMoves(c, s, t, p);
        }
    }
  }

  // ---------------------------------------------------------------- the length of every schedule

  ghost predicate NoBegin(steps: seq<Step>) {
    forall i :: 0 <= i < |steps| ==> !steps[i].Begin?
  }

  ghost function PartSteps(c: Setup, call: Task, n: nat): nat
    requires ValidSetup(c) && FitsInt(call.size, c.workers) && n <= c.workers
  {
    if n == 0 then 0 else PartSteps(c, call, n - 1) + FullLeft(Part(c, call, n - 1)) + 4
  }

  /** The number of steps of a call, from its size and the number of workers only. */
  ghost function CallLength(c: Setup, call: Task): nat
    requires ValidSetup(c) && (Large(call) ==> FitsInt(call.size, c.workers))
  {
    if Large(call) then 2 * c.workers + 1 + PartSteps(c, call, c.workers) else 4 * Chunks(call.size) + 2
  }

  lemma {:induction false} StartLeft(c: Setup, e: State, n: nat)
    requires Outline(c, e) && e.caller == Pushing(0, false) && n <= c.workers
    ensures WorkersLeft(c, e, n) == PartSteps(c, e.call, n)
  {
    if n > 0 {
      StartLeft(c, e, n - 1);
      assert WorkerShape(c, e, n - 1);
    }
  }

  /** Requests that are posted or still to execute on other queue pairs. */
  function Unexecuted(s: State): nat { Posted(s.qps) + s.others }

  /** A call that begins has all its steps left, and the requests that it finds posted. */
  lemma BeginLeft(c: Setup, s: State, call: Task)
    requires Between(c, s) && Admissible(c, s.mem, call)
    ensures Enabled(c, s, Begin(call)) && Outline(c, Apply(c, s, Begin(call)))
    ensures AllLeft(c, Apply(c, s, Begin(call))) == CallLength(c, call) + Unexecuted(s)
  {
    BeginOutline(c, s, call);
    if Large(call) { StartLeft(c, Apply(c, s, Begin(call)), c.workers); }
  }

  lemma {:induction false} RanksNonnegative(c: Setup, s: State, n: nat)
    requires Outline(c, s) && InLarge(s) && n <= c.workers
    ensures WorkersLeft(c, s, n) >= 0
  {
    if n > 0 {
      RanksNonnegative(c, s, n - 1);
      assert WorkerShape(c, s, n - 1);
      if s.workers[n - 1].pc.Busy? { HamalLeftPositive(s.workers[n - 1].pc.h); }
    }
  }

  lemma HamalLeftPositive(h: Hamal)
    requires h.done <= h.task.size && (h.stage.Top? || h.done < h.task.size)
    ensures HamalLeft(h) >= 1
  {
  }

  lemma LeftPositive(c: Setup, s: State)
    requires Outline(c, s)
    ensures if s.caller.Idle? then ThreadsLeft(c, s) == 0 else ThreadsLeft(c, s) > 0
  {
    match s.caller {
      case Idle =>
      case Leaving =>
      case Inline(h) => HamalLeftPositive(h);
      case _ => RanksNonnegative(c, s, c.workers);
    }
  }

  /** Inside a call, the steps taken and the steps left always add up to the same number. */
  lemma {:induction false} RunLength(c: Setup, s: State, call: Task, steps: seq<Step>, p: Policy)
    requires Between(c, s) && Run(c, s, [Begin(call)] + steps, p) && NoBegin(steps)
    ensures Admissible(c, s.mem, call)
    ensures var e := Exec(c, s, [Begin(call)] + steps, p);
      Outline(c, e) && AllLeft(c, e) == CallLength(c, call) + Unexecuted(s) - |steps|
    decreases |steps|
  {
    hide Outline, AllLeft, CallLength, Apply, Between;
    var all := [Begin(call)] + steps;
    if steps == [] {
      assert all[..0] == [] && all == [Begin(call)];
      assert Enabled(c, s, Begin(call));
      BeginLeft(c, s, call);
    } else {
      var n := |steps| - 1;
      assert all[..n + 1] == [Begin(call)] + steps[..n];
      RunLength(c, s, call, steps[..n], p);
      StepLeft(c, Exec(c, s, all[..n + 1], p), steps[n]);
    }
  }

  /** Whichever completions its polls take and whatever earlier calls have left over: with the requests that it finds
      still to execute, a call is never longer than the given number of steps, has returned when it has that length,
      and can be continued until it has returned. It is shorter exactly by the requests that it leaves unexecuted;
      that are at most as many as were outstanding, and none of a lane if polls take their own completions and found
      nothing posted. */
  lemma {:induction false} CallReturns(c: Setup, s: State, call: Task, steps: seq<Step>, p: Policy)
    requires Between(c, s) && Run(c, s, [Begin(call)] + steps, p) && NoBegin(steps)
    ensures Admissible(c, s.mem, call) && |steps| <= CallLength(c, call) + Unexecuted(s)
    ensures var e := Exec(c, s, [Begin(call)] + steps, p);
      && (e.caller.Idle? ==>
            && |steps| == CallLength(c, call) + Unexecuted(s) - Unexecuted(e)
            && Unexecuted(e) <= Outstanding(s)
            && (Quiet(c, s) && OthersOnly(c, s) && p.Own? ==> Unexecuted(e) == e.others))
      && (|steps| == CallLength(c, call) + Unexecuted(s) ==> e.caller.Idle?)
      && (!e.caller.Idle? ==> exists step :: Allowed(c, e, step, p) && !step.Begin?)
  {
    hide Outline, AllLeft, CallLength, Apply, Between;
    var all := [Begin(call)] + steps;
    RunLength(c, s, call, steps, p);
    Conservation(c, s, all, p);
    var e := Exec(c, s, all, p);
    AllLeftIs(c, e);
    LeftPositive(c, e);
    if e.caller.Idle? {
      IdleLeaves(c, s, all, p);
    } else {
      if p.Own? { RunFed(c, s, all); }
      OutlineSizes(c, e);
      var step := AnyProgress(c, e, p);
    }
  }

  lemma AllLeftIs(c: Setup, s: State)
    requires Outline(c, s)
    ensures AllLeft(c, s) == ThreadsLeft(c, s) + Unexecuted(s)
  {
  }

  /** What a call that has returned leaves to execute. */
  lemma IdleLeaves(c: Setup, s: State, steps: seq<Step>, p: Policy)
    requires Between(c, s) && Run(c, s, steps, p)
    requires Outline(c, Exec(c, s, steps, p)) && Exec(c, s, steps, p).caller.Idle?
    ensures Unexecuted(Exec(c, s, steps, p)) <= Outstanding(s)
    ensures Quiet(c, s) && OthersOnly(c, s) && p.Own? ==> Posted(Exec(c, s, steps, p).qps) == 0
  {
    var e := Exec(c, s, steps, p);
    Conservation(c, s, steps, p);
    forall t | 0 <= t < |e.workers| ensures !WaitingWorker(e.workers[t]) { assert Resting(e, t); }
    NoPoller(e.workers);
    if Quiet(c, s) && OthersOnly(c, s) && p.Own? {
      ReturnsQuiet(c, s, steps);
      NonePostedYet(e.qps);
    }
  }

  lemma {:induction false} NonePostedYet(qps: seq<seq<Wr>>)
    requires forall l :: 0 <= l < |qps| ==> qps[l] == []
    ensures Posted(qps) == 0
  {
    if qps != [] { NonePostedYet(qps[..|qps| - 1]); }
  }
}
