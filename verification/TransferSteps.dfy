/** Each step of the transfer engine keeps the invariant. */
module TransferSteps {
  import opened Memory
  import opened Wrappers
  import opened Transfer
  import opened TransferSafety

  predicate InLarge(s: State) {
    s.caller.Pushing? || s.caller.Awaiting?
  }

  lemma RemoveCount(cq: seq<nat>, k: nat)
    requires k < |cq|
    ensures forall x :: multiset(Without(cq, k))[x] == multiset(cq)[x] - if x == cq[k] then 1 else 0
    ensures multiset(cq)[cq[k]] > 0
  {
    assert cq == cq[..k] + [cq[k]] + cq[k + 1..];
    assert multiset(Without(cq, k)) == multiset(cq) - multiset{cq[k]};
  }

  /** The first `n` thread numbers. */
  ghost function Below(n: nat): (r: set<nat>)
    ensures |r| == n
    ensures forall t: nat :: t in r <==> t < n
  {
    if n == 0 then {} else Below(n - 1) + {n - 1}
  }

  lemma SubsetCard(a: set<nat>, b: set<nat>)
    requires a <= b
    ensures |a| <= |b|
    ensures |a| == |b| ==> a == b
  {
    assert |b - a| == |b| - |a|;
    assert a == b || exists x :: x in b - a;
  }

  lemma FinishedBound(c: Setup, s: State)
    requires |s.workers| == c.workers
    ensures |FinishedSet(s)| <= c.workers
    ensures |FinishedSet(s)| == c.workers ==> forall t :: 0 <= t < c.workers ==> IsFinished(s, t)
  {
    SubsetCard(FinishedSet(s), Below(c.workers));
    if |FinishedSet(s)| == c.workers {
      forall t | 0 <= t < c.workers ensures IsFinished(s, t) { assert t in Below(c.workers); }
    }
  }

  // ---------------------------------------------------------------- the caller

  lemma BeginInv(c: Setup, s: State, task: Task)
    requires Inv(c, s) && Enabled(c, s, Begin(task))
    ensures Inv(c, Apply(c, s, Begin(task)))
  {
    var s' := Apply(c, s, Begin(task));
    forall t | 0 <= t < c.workers
      ensures Resting(s', t) && Calm(s', t)
    {
      assert Resting(s, t) && Calm(s, t);
    }
    assert Frame(c, s'.mem, s'.start, s'.call);
    assert Calm(s', 0);
    if Large(task) {
      forall t | 0 <= t < c.workers
        ensures WorkerOk(c, s', t)
      {
        assert Resting(s', t);
      }
      assert FinishedSet(s') == {};
    }
  }

  /** A step of the caller that is not about worker `u` leaves it as it was. */
  lemma SameWorker(c: Setup, s: State, s': State, u: nat)
    requires Inv(c, s) && InLarge(s) && Shape(c, s') && u < c.workers
    requires s'.mem == s.mem && s'.start == s.start && s'.call == s.call && s'.qps == s.qps && s'.cq == s.cq
    requires s'.workers[u] == s.workers[u] && s'.tasks[u] == s.tasks[u] && PushState(s', u) == PushState(s, u)
    ensures WorkerOk(c, s', u) && (IsFinished(s', u) <==> IsFinished(s, u))
  {
    assert WorkerOk(c, s, u);
  }

  lemma PushItemInv(c: Setup, s: State)
    requires Inv(c, s) && Enabled(c, s, PushItem)
    ensures Inv(c, Apply(c, s, PushItem))
  {
    var s', i := Apply(c, s, PushItem), s.caller.next;
    assert WorkerOk(c, s, i);
    assert WorkerOk(c, s', i);
    forall u | 0 <= u < c.workers
      ensures WorkerOk(c, s', u) && (IsFinished(s', u) <==> IsFinished(s, u))
    {
      if u != i { SameWorker(c, s, s', u); }
    }
    assert FinishedSet(s') == FinishedSet(s);
  }

  lemma PushCountInv(c: Setup, s: State)
    requires Inv(c, s) && Enabled(c, s, PushCount)
    ensures Inv(c, Apply(c, s, PushCount))
  {
    var s', i := Apply(c, s, PushCount), s.caller.next;
    assert WorkerOk(c, s, i);
    assert WorkerOk(c, s', i);
    forall u | 0 <= u < c.workers
      ensures WorkerOk(c, s', u) && (IsFinished(s', u) <==> IsFinished(s, u))
    {
      if u != i { SameWorker(c, s, s', u); }
    }
    assert FinishedSet(s') == FinishedSet(s);
  }

  lemma ReturnInv(c: Setup, s: State, step: Step)
    requires Inv(c, s) && Enabled(c, s, step) && (step.AwaitExit? || step.LeaveInline?)
    ensures Inv(c, Apply(c, s, step))
  {
    var s' := Apply(c, s, step);
    FinishedBound(c, s);
    forall t | 0 <= t < c.workers
      ensures Resting(s', t) && Calm(s', t)
    {
      if step.AwaitExit? {
        assert IsFinished(s, t) && WorkerOk(c, s, t);
      } else {
        assert Resting(s, t);
      }
    }
  }

  // ---------------------------------------------------------------- PopPolling

  /** A worker leaves PopPolling's spin only during a large call. */
  lemma PoppingIn(c: Setup, s: State, t: nat)
    requires Inv(c, s) && t < c.workers
    requires s.workers[t].offset != 0 || !s.workers[t].pc.Spinning?
    ensures InLarge(s) && WorkerOk(c, s, t) && !IsFinished(s, t)
    ensures Mapped(c, s.mem, t, Part(c, s.call, t))
    ensures Frame(c, s.mem, s.start, s.call)
  {
    assert InLarge(s) || Resting(s, t);
    assert WorkerOk(c, s, t);
    PartIn(c, s.start, s.call, t);
  }

  lemma SeeInv(c: Setup, s: State, t: nat)
    requires Inv(c, s) && Enabled(c, s, See(t))
    ensures Inv(c, Apply(c, s, See(t)))
  {
    PoppingIn(c, s, t);
    WorkerStep(c, s, Apply(c, s, See(t)), t);
  }

  lemma EraseInv(c: Setup, s: State, t: nat)
    requires Inv(c, s) && Enabled(c, s, Erase(t))
    ensures Inv(c, Apply(c, s, Erase(t)))
  {
    PoppingIn(c, s, t);
    WorkerStep(c, s, Apply(c, s, Erase(t)), t);
  }

  lemma DecrementInv(c: Setup, s: State, t: nat)
    requires Inv(c, s) && Enabled(c, s, Decrement(t))
    ensures Inv(c, Apply(c, s, Decrement(t)))
  {
    PoppingIn(c, s, t);
    WorkerStep(c, s, Apply(c, s, Decrement(t)), t);
  }

  lemma DereferenceInv(c: Setup, s: State, t: nat)
    requires Inv(c, s) && Enabled(c, s, Dereference(t))
    ensures Inv(c, Apply(c, s, Dereference(t)))
  {
    PoppingIn(c, s, t);
    WorkerStep(c, s, Apply(c, s, Dereference(t)), t);
  }

  // ---------------------------------------------------------------- one activation, in a worker or in the caller

  /** Which thread can be inside the chunk loop. */
  lemma ActiveWhere(c: Setup, s: State, t: nat)
    requires Inv(c, s) && HamalOf(c, s, t).Some?
    ensures (t < c.workers && InLarge(s)) || (t == c.workers && s.caller.Inline?)
  {
    assert t < c.workers ==> InLarge(s) || Resting(s, t);
  }

  /** The lane facts of whichever thread runs the activation. */
  lemma ActiveOk(c: Setup, s: State, t: nat)
    requires Inv(c, s) && HamalOf(c, s, t).Some?
    ensures (t < c.workers && InLarge(s)) || (t == c.workers && s.caller.Inline?)
    ensures LaneOf(c, t) < c.workers && Frame(c, s.mem, s.start, s.call)
    ensures var h, l := HamalOf(c, s, t).value, LaneOf(c, t);
      && h.task == (if t < c.workers then Part(c, s.call, t) else s.call)
      && HamalOk(c, l, h, s.qps[l], multiset(s.cq)[l], s.mem, s.start)
      && OffPools(c, h.task) && h.task.write == s.call.write
      && s.call.user <= h.task.user && h.task.user + h.task.size <= s.call.user + CopiedSize(c, s.call)
      && s.call.remote <= h.task.remote && h.task.remote + h.task.size <= s.call.remote + CopiedSize(c, s.call)
      && (t < c.workers ==> !IsFinished(s, t) && Mapped(c, s.mem, t, h.task))
  {
    if t < c.workers {
      assert InLarge(s) || Resting(s, t);
      if InLarge(s) {
        assert WorkerOk(c, s, t);
        PartIn(c, s.start, s.call, t);
      }
    }
  }

  /** The lane goes from one good state to another and the rest of the state stays. */
  ghost predicate LaneStep(c: Setup, s: State, s': State, l: nat, h: Hamal, h': Hamal) {
    && Shape(c, s') && l < c.workers && |s.qps| == c.workers
    && s'.call == s.call && s'.start == s.start && s'.tasks == s.tasks && s'.signal == s.signal
    && h'.task == h.task
    && Touches(c, l, h.task, s.mem, s'.mem)
    && HamalOk(c, l, h', s'.qps[l], multiset(s'.cq)[l], s'.mem, s.start)
    && forall u :: 0 <= u < c.workers && u != l ==> s'.qps[u] == s.qps[u] && multiset(s'.cq)[u] == multiset(s.cq)[u]
  }

  lemma ActiveWorkerStep(c: Setup, s: State, s': State, t: nat, h: Hamal, h': Hamal)
    requires Inv(c, s) && t < c.workers && HamalOf(c, s, t) == Some(h)
    requires s'.caller == s.caller && s'.workers == s.workers[t := s.workers[t].(pc := Busy(h'))]
    requires LaneStep(c, s, s', t, h, h')
    ensures Inv(c, s')
  {
    ActiveOk(c, s, t);
    assert WorkerOk(c, s, t);
    WorkerStep(c, s, s', t);
  }

  lemma ActiveInlineStep(c: Setup, s: State, s': State, h: Hamal, h': Hamal)
    requires Inv(c, s) && s.caller == Inline(h)
    requires s'.caller == Inline(h') && s'.workers == s.workers
    requires LaneStep(c, s, s', 0, h, h')
    ensures Inv(c, s')
  {
    FrameStep(c, 0, h.task, s.call, s.mem, s'.mem, s.start);
    forall u | 0 <= u < c.workers
      ensures Resting(s', u) && (u > 0 ==> Calm(s', u))
    {
      assert Resting(s, u) && (u > 0 ==> Calm(s, u));
    }
  }

  /** The activation of `t` became `h'`, and nothing else changed but requests, completions and memory. */
  ghost predicate OnlyLane(c: Setup, s: State, s': State, t: nat, h': Hamal)
    requires HamalOf(c, s, t).Some?
  {
    s' == WithHamal(c, s, t, h').(qps := s'.qps, cq := s'.cq, mem := s'.mem)
  }

  /** The shape shared by all steps of an activation, whoever runs it. */
  lemma ActiveStep(c: Setup, s: State, s': State, t: nat, h': Hamal)
    requires Inv(c, s) && HamalOf(c, s, t).Some?
    requires OnlyLane(c, s, s', t, h')
    requires LaneStep(c, s, s', LaneOf(c, t), HamalOf(c, s, t).value, h')
    ensures Inv(c, s')
  {
    ActiveOk(c, s, t);
    var h := HamalOf(c, s, t).value;
    if t < c.workers {
      ActiveWorkerStep(c, s, s', t, h, h');
    } else {
      ActiveInlineStep(c, s, s', h, h');
    }
  }

  lemma TouchesNothing(c: Setup, lane: nat, task: Task, m: Mem)
    ensures Touches(c, lane, task, m, m)
  {
  }

  lemma CopyInLane(c: Setup, s: State, t: nat) returns (h': Hamal)
    requires Inv(c, s) && Enabled(c, s, CopyIn(t))
    ensures HamalOf(c, s, t).Some? && OnlyLane(c, s, Apply(c, s, CopyIn(t)), t, h')
    ensures LaneStep(c, s, Apply(c, s, CopyIn(t)), LaneOf(c, t), HamalOf(c, s, t).value, h')
  {
    ActiveOk(c, s, t);
    var h, l := HamalOf(c, s, t).value, LaneOf(c, t);
    CopyInOk(c, l, h, s.mem, s.start);
    h' := h.(stage := Staged);
  }

  lemma CopyInInv(c: Setup, s: State, t: nat)
    requires Inv(c, s) && Enabled(c, s, CopyIn(t))
    ensures Inv(c, Apply(c, s, CopyIn(t)))
  {
    var h' := CopyInLane(c, s, t);
    ActiveStep(c, s, Apply(c, s, CopyIn(t)), t, h');
  }

  lemma PostLane(c: Setup, s: State, t: nat) returns (h': Hamal)
    requires Inv(c, s) && Enabled(c, s, Post(t))
    ensures HamalOf(c, s, t).Some? && OnlyLane(c, s, Apply(c, s, Post(t)), t, h')
    ensures LaneStep(c, s, Apply(c, s, Post(t)), LaneOf(c, t), HamalOf(c, s, t).value, h')
  {
    ActiveOk(c, s, t);
    var h, l := HamalOf(c, s, t).value, LaneOf(c, t);
    PostOk(c, l, h, s.mem, s.start);
    TouchesNothing(c, l, h.task, s.mem);
    assert s.qps[l] + [WrOf(c, l, h)] == [WrOf(c, l, h)];
    h' := h.(stage := Waiting);
  }

  lemma PostInv(c: Setup, s: State, t: nat)
    requires Inv(c, s) && Enabled(c, s, Post(t))
    ensures Inv(c, Apply(c, s, Post(t)))
  {
    var h' := PostLane(c, s, t);
    ActiveStep(c, s, Apply(c, s, Post(t)), t, h');
  }

  /** The lane side of taking a completion. */
  lemma PollMem(c: Setup, s: State, t: nat, k: nat, h: Hamal)
    requires Inv(c, s) && Allowed(c, s, Poll(t, k), Own) && HamalOf(c, s, t) == Some(h)
    ensures var l := LaneOf(c, t);
      && Shape(c, s) && l < c.workers && s.qps[l] == [] && multiset(s.cq)[l] == 1
      && HamalOk(c, l, Polled(h), [], 0, s.mem, s.start) && Touches(c, l, h.task, s.mem, s.mem)
  {
    ActiveOk(c, s, t);
    var l := LaneOf(c, t);
    InCount(s.cq, k);
    PollOk(c, l, h, s.qps[l], multiset(s.cq)[l], s.mem, s.start);
    TouchesNothing(c, l, h.task, s.mem);
  }

  lemma InCount(cq: seq<nat>, k: nat)
    requires k < |cq|
    ensures multiset(cq)[cq[k]] > 0
  {
  }

  lemma PollLane(c: Setup, s: State, t: nat, k: nat) returns (h': Hamal)
    requires Inv(c, s) && Allowed(c, s, Poll(t, k), Own)
    ensures HamalOf(c, s, t).Some? && OnlyLane(c, s, Apply(c, s, Poll(t, k)), t, h')
    ensures LaneStep(c, s, Apply(c, s, Poll(t, k)), LaneOf(c, t), HamalOf(c, s, t).value, h')
  {
    hide Inv, HamalOk, Touches, Frame, WorkerOk;
    PollMem(c, s, t, k, HamalOf(c, s, t).value);
    RemoveCount(s.cq, k);
    h' := Polled(HamalOf(c, s, t).value);
  }

  lemma PollInv(c: Setup, s: State, t: nat, k: nat)
    requires Inv(c, s) && Allowed(c, s, Poll(t, k), Own)
    ensures Inv(c, Apply(c, s, Poll(t, k)))
  {
    var h' := PollLane(c, s, t, k);
    ActiveStep(c, s, Apply(c, s, Poll(t, k)), t, h');
  }

  lemma CopyOutLane(c: Setup, s: State, t: nat) returns (h': Hamal)
    requires Inv(c, s) && Enabled(c, s, CopyOut(t))
    ensures HamalOf(c, s, t).Some? && OnlyLane(c, s, Apply(c, s, CopyOut(t)), t, h')
    ensures LaneStep(c, s, Apply(c, s, CopyOut(t)), LaneOf(c, t), HamalOf(c, s, t).value, h')
  {
    ActiveOk(c, s, t);
    var h, l := HamalOf(c, s, t).value, LaneOf(c, t);
    CopyOutOk(c, l, h, s.mem, s.start);
    h' := Advanced(h);
  }

  lemma CopyOutInv(c: Setup, s: State, t: nat)
    requires Inv(c, s) && Enabled(c, s, CopyOut(t))
    ensures Inv(c, Apply(c, s, CopyOut(t)))
  {
    var h' := CopyOutLane(c, s, t);
    ActiveStep(c, s, Apply(c, s, CopyOut(t)), t, h');
  }

  /** The state of a worker that has left the chunk loop. */
  lemma FinishedOk(c: Setup, s: State, t: nat)
    requires Inv(c, s) && Enabled(c, s, Finish(t)) && t < c.workers
    ensures var s' := Apply(c, s, Finish(t));
      && Shape(c, s') && InLarge(s) && Frame(c, s'.mem, s'.start, s'.call) && Large(s'.call)
      && WorkerOk(c, s', t) && IsFinished(s', t) && !IsFinished(s, t)
      && Touches(c, t, Part(c, s.call, t), s.mem, s'.mem)
  {
    ActiveOk(c, s, t);
    assert WorkerOk(c, s, t);
  }

  lemma FinishWorkerInv(c: Setup, s: State, t: nat)
    requires Inv(c, s) && Enabled(c, s, Finish(t)) && t < c.workers
    ensures Inv(c, Apply(c, s, Finish(t)))
  {
    FinishedOk(c, s, t);
    FinishedBound(c, s);
    var s' := Apply(c, s, Finish(t));
    assert s'.signal == s.signal + 1;
    WorkerStep(c, s, s', t);
  }

  lemma FinishInlineInv(c: Setup, s: State)
    requires Inv(c, s) && Enabled(c, s, Finish(c.workers))
    ensures Inv(c, Apply(c, s, Finish(c.workers)))
  {
    ActiveOk(c, s, c.workers);
    var s' := Apply(c, s, Finish(c.workers));
    forall u | 0 <= u < c.workers
      ensures Resting(s', u) && Calm(s', u)
    {
      assert Resting(s, u) && (u > 0 ==> Calm(s, u));
    }
  }

  lemma FinishInv(c: Setup, s: State, t: nat)
    requires Inv(c, s) && Enabled(c, s, Finish(t))
    ensures Inv(c, Apply(c, s, Finish(t)))
  {
    ActiveWhere(c, s, t);
    if t < c.workers { FinishWorkerInv(c, s, t); } else { FinishInlineInv(c, s); }
  }

  lemma InvShape(c: Setup, s: State)
    requires Inv(c, s)
    ensures Shape(c, s)
  {
  }

  // ---------------------------------------------------------------- the NIC

  /** The thread whose request waits on a lane. */
  lemma PostedBy(c: Setup, s: State, lane: nat) returns (t: nat)
    requires Inv(c, s) && lane < c.workers && (s.qps[lane] != [] || multiset(s.cq)[lane] > 0)
    ensures HamalOf(c, s, t).Some? && LaneOf(c, t) == lane && HamalOf(c, s, t).value.stage.Waiting?
  {
    if InLarge(s) {
      t := lane;
      assert WorkerOk(c, s, t);
    } else {
      t := c.workers;
      assert !Calm(s, lane);
    }
  }

  lemma RemoteKept(c: Setup, s: State)
    requires Frame(c, s.mem, s.start, s.call) && !s.call.write
    ensures s.mem.remote == s.start.remote
  {
  }

  /** The memory side of executing a request. */
  lemma ExecuteMem(c: Setup, s: State, lane: nat, t: nat, h: Hamal)
    requires Inv(c, s) && Enabled(c, s, Execute(lane)) && HamalOf(c, s, t) == Some(h) && LaneOf(c, t) == lane
    ensures lane < c.workers && |s.qps| == c.workers && |s.qps[lane]| == 1 && multiset(s.cq)[lane] == 0
    ensures HamalOk(c, lane, h, [], 1, NicCopy(s.mem, s.qps[lane][0]), s.start)
    ensures Touches(c, lane, h.task, s.mem, NicCopy(s.mem, s.qps[lane][0]))
  {
    ActiveOk(c, s, t);
    if !h.task.write { RemoteKept(c, s); }
    ExecuteOk(c, lane, h, s.qps[lane], s.mem, s.start);
  }

  lemma ExecuteLane(c: Setup, s: State, lane: nat) returns (t: nat)
    requires Inv(c, s) && Enabled(c, s, Execute(lane))
    ensures HamalOf(c, s, t).Some? && LaneOf(c, t) == lane
    ensures LaneStep(c, s, Apply(c, s, Execute(lane)), lane, HamalOf(c, s, t).value, HamalOf(c, s, t).value)
  {
    hide HamalOk, Touches, Frame, WorkerOk;
    var s' := Apply(c, s, Execute(lane));
    t := PostedBy(c, s, lane);
    ExecuteMem(c, s, lane, t, HamalOf(c, s, t).value);
    assert s'.qps[lane] == [] && multiset(s'.cq)[lane] == 1;
  }

  lemma ExecuteInv(c: Setup, s: State, lane: nat)
    requires Inv(c, s) && Enabled(c, s, Execute(lane))
    ensures Inv(c, Apply(c, s, Execute(lane)))
  {
    hide HamalOk, Frame, WorkerOk, Touches, Mapped, Admissible;
    var t := ExecuteLane(c, s, lane);
    ActiveStep(c, s, Apply(c, s, Execute(lane)), t, HamalOf(c, s, t).value);
  }

  lemma OtherCompletion(c: Setup, cq: seq<nat>, from: nat)
    ensures forall l :: 0 <= l < c.workers ==> multiset(cq + [c.workers + from])[l] == multiset(cq)[l]
  {
  }

  lemma OtherWorker(c: Setup, s: State, s': State, u: nat)
    requires Inv(c, s) && InLarge(s) && u < c.workers && s' == s.(cq := s'.cq, others := s'.others)
    requires multiset(s'.cq)[u] == multiset(s.cq)[u]
    ensures WorkerOk(c, s', u) && (IsFinished(s', u) <==> IsFinished(s, u))
  {
    assert WorkerOk(c, s, u);
  }

  /** A completion of another queue pair is none of a lane. */
  lemma ExecuteOtherInv(c: Setup, s: State, from: nat)
    requires Inv(c, s) && Enabled(c, s, ExecuteOther(from))
    ensures Inv(c, Apply(c, s, ExecuteOther(from)))
  {
    hide WorkerOk, HamalOk, Frame;
    var s' := Apply(c, s, ExecuteOther(from));
    OtherCompletion(c, s.cq, from);
    if InLarge(s) {
      forall u | 0 <= u < c.workers ensures WorkerOk(c, s', u) && (IsFinished(s', u) <==> IsFinished(s, u)) {
        OtherWorker(c, s, s', u);
      }
      assert FinishedSet(s') == FinishedSet(s);
    } else {
      forall u | 0 <= u < c.workers ensures Resting(s', u) && (u > 0 || !s.caller.Inline? ==> Calm(s', u)) {
        assert Resting(s, u) && (u > 0 || !s.caller.Inline? ==> Calm(s, u));
      }
    }
  }

  /** Every step that the premise allows keeps the invariant. */
  lemma StepInv(c: Setup, s: State, step: Step)
    requires Inv(c, s) && Allowed(c, s, step, Own)
    ensures Inv(c, Apply(c, s, step))
  {
    hide Inv, Enabled, Apply;
    match step {
      case Begin(task) => BeginInv(c, s, task);
      case PushItem => PushItemInv(c, s);
      case PushCount => PushCountInv(c, s);
      case AwaitExit => ReturnInv(c, s, step);
      case LeaveInline => ReturnInv(c, s, step);
      case CopyIn(t) => CopyInInv(c, s, t);
      case Post(t) => PostInv(c, s, t);
      case Poll(t, k) => PollInv(c, s, t, k);
      case CopyOut(t) => CopyOutInv(c, s, t);
      case Finish(t) => FinishInv(c, s, t);
      case Execute(lane) => ExecuteInv(c, s, lane);
      case ExecuteOther(from) => ExecuteOtherInv(c, s, from);
      case See(t) => SeeInv(c, s, t);
      case Erase(t) => EraseInv(c, s, t);
      case Decrement(t) => DecrementInv(c, s, t);
      case Dereference(t) => DereferenceInv(c, s, t);
    }
  }
}
