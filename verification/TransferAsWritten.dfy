/** The engine with PollCompletion as it is written: a poll takes whichever completion is first in the one CQ of the
    client. A small call that finds nothing outstanding is right, because only one lane is in use. The completion of
    another request, left over from an earlier call or posted by the other worker, makes a poll return before its own
    request has executed. */
module TransferAsWritten {
  import opened Memory
  import opened PartSplit
  import opened Wrappers
  import opened Transfer
  import opened TransferSafety
  import opened TransferSteps
  import opened TransferRuns
  import opened TransferCount
  import opened TransferLive

  /** A pool may be copied into or out of only while no posted request uses it. */
  ghost predicate PoolSafe(c: Setup, s: State) {
    forall t {:trigger HamalOf(c, s, t)} ::
      0 <= t <= c.workers && LaneOf(c, t) < |s.qps| && UsesPool(c, s, t) ==> s.qps[LaneOf(c, t)] == []
  }

  /** The thread's next step copies into or out of its staging pool. */
  ghost predicate UsesPool(c: Setup, s: State, t: nat) {
    Enabled(c, s, CopyIn(t)) || Enabled(c, s, CopyOut(t))
  }

  // ---------------------------------------------------------------- one lane in use

  predicate LanesOnly(c: Setup, s: State) { s.others == 0 && forall k :: 0 <= k < |s.cq| ==> s.cq[k] < c.workers }

  /** With a single lane in use and nothing left over the first completion is the poller's own. */
  lemma FirstIsOwn(c: Setup, s: State, step: Step)
    requires Inv(c, s) && Allowed(c, s, step, FirstCome) && LanesOnly(c, s) && (c.workers == 1 || !InLarge(s))
    ensures Allowed(c, s, step, Own)
  {
    if step.Poll? {
      ActiveWhere(c, s, step.t);
      HeadCounts(s.cq);
      var t := PostedBy(c, s, s.cq[0]);
      ActiveWhere(c, s, t);
    }
  }

  lemma StaysLanes(c: Setup, s: State, step: Step)
    requires LanesOnly(c, s) && Enabled(c, s, step) && |s.qps| == c.workers
    ensures LanesOnly(c, Apply(c, s, step))
  {
  }

  /** Every run that starts with nothing outstanding and makes no large call, or has one worker, meets the premise of
      the content theorems. */
  lemma {:induction false} OneLaneRuns(c: Setup, s: State, steps: seq<Step>)
    requires Quiet(c, s) && s.cq == [] && s.others == 0 && Run(c, s, steps, FirstCome)
    requires c.workers == 1 || forall i :: 0 <= i < |steps| && steps[i].Begin? ==> !Large(steps[i].task)
    ensures Run(c, s, steps, Own) && Exec(c, s, steps, Own) == Exec(c, s, steps, FirstCome)
    ensures LanesOnly(c, Exec(c, s, steps, Own)) && (c.workers == 1 || !InLarge(Exec(c, s, steps, Own)))
    decreases |steps|
  {
    if steps != [] {
      var n := |steps| - 1;
      OneLaneRuns(c, s, steps[..n]);
      QuietInv(c, s);
      RunInv(c, s, steps[..n]);
      var e := Exec(c, s, steps[..n], Own);
      InvShape(c, e);
      FirstIsOwn(c, e, steps[n]);
      StaysLanes(c, e, steps[n]);
      if c.workers != 1 && !InLarge(e) { StaysSmall(c, e, steps[n]); }
    }
  }

  lemma StaysSmall(c: Setup, s: State, step: Step)
    requires Inv(c, s) && Enabled(c, s, step) && !InLarge(s) && (step.Begin? ==> !Large(step.task))
    ensures !InLarge(Apply(c, s, step))
  {
    if step.CopyIn? || step.Post? || step.Poll? || step.CopyOut? || step.Finish? {
      ActiveWhere(c, s, step.t);
    }
  }

  // ---------------------------------------------------------------- schedules of one call

  ghost predicate RunsTo(c: Setup, s: State, call: Task, steps: seq<Step>, e: State) {
    Run(c, s, [Begin(call)] + steps, FirstCome) && Exec(c, s, [Begin(call)] + steps, FirstCome) == e
  }

  /** Some schedule of the call, with polls as they are written, leads to `e`. */
  ghost predicate Reaches(c: Setup, s: State, call: Task, e: State) {
    exists steps :: NoBegin(steps) && RunsTo(c, s, call, steps, e)
  }

  lemma ReachBegin(c: Setup, s: State, call: Task)
    requires Enabled(c, s, Begin(call))
    ensures Reaches(c, s, call, Apply(c, s, Begin(call)))
  {
    var b := [Begin(call)];
    var none: seq<Step> := [];
    assert b[..|b| - 1] == none && b + none == b;
    assert Run(c, s, none, FirstCome) && Exec(c, s, none, FirstCome) == s;
    assert Allowed(c, s, Begin(call), FirstCome);
    assert NoBegin(none) && RunsTo(c, s, call, none, Apply(c, s, Begin(call)));
  }

  lemma ReachStep(c: Setup, s: State, call: Task, e: State, step: Step)
    requires Reaches(c, s, call, e) && Allowed(c, e, step, FirstCome) && !step.Begin?
    ensures Reaches(c, s, call, Apply(c, e, step))
  {
    hide Apply, Enabled;
    var steps :| NoBegin(steps) && RunsTo(c, s, call, steps, e);
    var longer := steps + [step];
    var all := [Begin(call)] + longer;
    assert all[..|all| - 1] == [Begin(call)] + steps && all[|all| - 1] == step;
    assert NoBegin(longer) && RunsTo(c, s, call, longer, Apply(c, e, step));
  }

  lemma ReachPushItem(c: Setup, s: State, call: Task, e: State, i: nat) returns (e': State)
    requires Reaches(c, s, call, e) && e.caller == Pushing(i, false) && |e.workers| == c.workers
    requires i < c.workers && i < |e.tasks| && ValidSetup(c) && FitsInt(e.call.size, c.workers)
        && e.workers[i] == Worker([], 0, Spinning)
    ensures Reaches(c, s, call, e')
    ensures e' == e.(caller := Pushing(i, true), tasks := e.tasks[i := Some(Part(c, e.call, i))],
                     workers := e.workers[i := Worker([i], 0, Spinning)])
  {
    hide Reaches;
    ReachStep(c, s, call, e, PushItem);
    e' := Apply(c, e, PushItem);
    assert [] + [i] == [i];
  }

  lemma ReachPushCount(c: Setup, s: State, call: Task, e: State, i: nat) returns (e': State)
    requires Reaches(c, s, call, e) && e.caller == Pushing(i, true) && i < c.workers && |e.workers| == c.workers
    requires e.workers[i] == Worker([i], 0, Spinning)
    ensures Reaches(c, s, call, e')
    ensures e' == e.(caller := if i + 1 < c.workers then Pushing(i + 1, false) else Awaiting,
                     workers := e.workers[i := Worker([i], 1, Spinning)])
  {
    hide Reaches;
    var w := Worker([i], 1, Spinning);
    ReachStep(c, s, call, e, PushCount);
    if i + 1 < c.workers {
      e' := e.(caller := Pushing(i + 1, false), workers := e.workers[i := w]);
      assert e' == Apply(c, e, PushCount);
    } else {
      e' := e.(caller := Awaiting, workers := e.workers[i := w]);
      assert e' == Apply(c, e, PushCount);
    }
  }

  /** The caller hands out both tasks. */
  lemma ReachPushed(c: Setup, s: State, call: Task) returns (e: State)
    requires Between(c, s) && c.workers == 2 && Admissible(c, s.mem, call) && Large(call)
    ensures Reaches(c, s, call, e)
    ensures e.caller.Awaiting? && e.mem == s.mem && e.qps == s.qps && e.others == s.others && e.cq == s.cq
    ensures |e.tasks| == 4
    ensures e.workers == [Worker([0], 1, Spinning), Worker([1], 1, Spinning)]
    ensures e.tasks[0] == Some(Part(c, call, 0)) && e.tasks[1] == Some(Part(c, call, 1))
  {
    hide Reaches;
    ReachBegin(c, s, call);
    assert s.workers == [Worker([], 0, Spinning), Worker([], 0, Spinning)];
    e := ReachPushItem(c, s, call, Apply(c, s, Begin(call)), 0);
    e := ReachPushCount(c, s, call, e, 0);
    e := ReachPushItem(c, s, call, e, 1);
    e := ReachPushCount(c, s, call, e, 1);
  }

  /** Worker `t` takes its task. */
  lemma ReachBusy(c: Setup, s: State, call: Task, e: State, t: nat, task: Task) returns (e': State)
    requires Reaches(c, s, call, e) && t < |e.workers| && t < |e.tasks|
    requires e.workers[t] == Worker([t], 1, Spinning) && e.tasks[t] == Some(task)
    ensures Reaches(c, s, call, e')
    ensures e' == e.(workers := e.workers[t := Worker([], 0, Busy(Hamal(task, 0, Top)))])
  {
    hide Reaches;
    ReachStep(c, s, call, e, See(t));
    var e1 := Apply(c, e, See(t));
    ReachStep(c, s, call, e1, Erase(t));
    var e2 := Apply(c, e1, Erase(t));
    assert [t][1..] == [];
    assert e2.workers[t] == Worker([], 1, Erased(t));
    ReachStep(c, s, call, e2, Decrement(t));
    var e3 := Apply(c, e2, Decrement(t));
    ReachStep(c, s, call, e3, Dereference(t));
    e' := Apply(c, e3, Dereference(t));
    assert e'.workers == e.workers[t := Worker([], 0, Busy(Hamal(task, 0, Top)))];
  }

  /** Each of two parts of a large range is at least two chunks long and starts inside its range. */
  lemma TwoParts(c: Setup, m: Mem, call: Task)
    requires c.workers == 2 && Admissible(c, m, call) && Large(call)
    ensures var p0, p1 := Part(c, call, 0), Part(c, call, 1);
      && p0.size >= 2 * CHUNK && p1.size >= 2 * CHUNK
      && p0.write == p1.write == call.write && p0.user == call.user && p0.remote == call.remote
      && Mapped(c, m, 0, p0) && Mapped(c, m, 1, p1) && OffPools(c, p0) && OffPools(c, p1)
  {
    ShipSizeBounds(call.size, 2);
    PartIn(c, m, call, 0);
    PartIn(c, m, call, 1);
    assert ShipSize(call.size, 2) >= 2 * CHUNK by { AlignMono(2 * CHUNK, call.size / 2); }
  }

  lemma AlignMono(a: int, b: int)
    requires a <= b && a % 4096 == 0
    ensures a <= Align(b)
  {
  }

  // ---------------------------------------------------------------- the NIC works off what was left over

  /** Memory after the NIC has executed the requests of one lane, in order. */
  ghost function Executed(m: Mem, qp: seq<Wr>): (r: Mem)
    requires forall j :: 0 <= j < |qp| ==> WrMapped(m, qp[j])
    ensures SameShape(m, r)
    decreases |qp|
  {
    if qp == [] then m
    else
      assert WrMapped(m, qp[|qp| - 1]);
      NicCopy(Executed(m, qp[..|qp| - 1]), qp[|qp| - 1])
  }

  lemma OkMapped(c: Setup, m: Mem, l: nat, qp: seq<Wr>)
    requires l < c.workers && PoolAddr(c, c.workers) <= |m.local| && RequestsOk(c, m, l, qp)
    ensures forall j :: 0 <= j < |qp| ==> WrMapped(m, qp[j])
  {
    PoolsApart(c, l, c.workers);
  }

  /** Local memory outside the pool of lane `l` is the same. */
  ghost predicate OnlyPool(c: Setup, l: nat, m: Mem, r: Mem) {
    && SameShape(m, r)
    && forall a {:trigger r.local[a]} :: 0 <= a < |m.local| && !(PoolAddr(c, l) <= a < PoolAddr(c, l) + CHUNK) ==>
         r.local[a] == m.local[a]
  }

  lemma {:induction false} ExecutedPool(c: Setup, m: Mem, l: nat, qp: seq<Wr>)
    requires (forall j :: 0 <= j < |qp| ==> WrMapped(m, qp[j])) && RequestsOk(c, m, l, qp)
    ensures OnlyPool(c, l, m, Executed(m, qp))
    decreases |qp|
  {
    if qp != [] {
      var n := |qp| - 1;
      ExecutedPool(c, m, l, qp[..n]);
      assert RequestOk(c, m, l, qp[n]);
    }
  }

  /** The NIC executes the first `j` requests of a lane. */
  lemma {:induction false} ReachDrain(c: Setup, s: State, call: Task, e: State, l: nat, j: nat) returns (e': State)
    requires Reaches(c, s, call, e) && l < |e.qps| && j <= |e.qps[l]|
    requires forall i :: 0 <= i < |e.qps[l]| ==> WrMapped(e.mem, e.qps[l][i])
    ensures Reaches(c, s, call, e') && |e'.cq| == |e.cq| + j
    ensures e' == e.(qps := e.qps[l := e.qps[l][j..]], cq := e'.cq, mem := Executed(e.mem, e.qps[l][..j]))
    decreases j
  {
    hide Reaches;
    var q := e.qps[l];
    if j == 0 {
      e' := e;
      assert e.qps[l := q[0..]] == e.qps;
    } else {
      var e1 := ReachDrain(c, s, call, e, l, j - 1);
      assert q[j - 1..][1..] == q[j..] && q[..j][..j - 1] == q[..j - 1];
      ReachStep(c, s, call, e1, Execute(l));
      e' := Apply(c, e1, Execute(l));
    }
  }

  /** The NIC executes the requests of other queue pairs. */
  lemma {:induction false} ReachOthers(c: Setup, s: State, call: Task, e: State) returns (e': State)
    requires Reaches(c, s, call, e)
    ensures Reaches(c, s, call, e') && |e'.cq| == |e.cq| + e.others
    ensures e' == e.(others := 0, cq := e'.cq)
    decreases e.others
  {
    hide Reaches;
    if e.others == 0 {
      e' := e;
    } else {
      ReachStep(c, s, call, e, ExecuteOther(0));
      e' := ReachOthers(c, s, call, Apply(c, e, ExecuteOther(0)));
    }
  }

  /** What both lanes hold is well posted. */
  ghost predicate BothOk(c: Setup, m: Mem, qps: seq<seq<Wr>>) {
    && c.workers == 2 == |qps| && PoolAddr(c, 2) <= |m.local|
    && RequestsOk(c, m, 0, qps[0]) && RequestsOk(c, m, 1, qps[1])
  }

  lemma BetweenBothOk(c: Setup, s: State)
    requires Between(c, s) && c.workers == 2
    ensures BothOk(c, s.mem, s.qps)
  {
  }

  /** Memory after the NIC has executed what both lanes hold. */
  ghost function Drained(c: Setup, m: Mem, qps: seq<seq<Wr>>): (r: Mem)
    requires BothOk(c, m, qps)
    ensures SameShape(m, r)
  {
    OkMapped(c, m, 0, qps[0]);
    OkMapped(c, m, 1, qps[1]);
    Executed(Executed(m, qps[0]), qps[1])
  }

  lemma DrainedUser(c: Setup, m: Mem, qps: seq<seq<Wr>>, call: Task)
    requires BothOk(c, m, qps) && OffPools(c, call) && call.user + call.size <= |m.local|
    ensures Same(Drained(c, m, qps).local, call.user, m.local, call.user, call.size)
  {
    OkMapped(c, m, 0, qps[0]);
    OkMapped(c, m, 1, qps[1]);
    ExecutedPool(c, m, 0, qps[0]);
    ExecutedPool(c, Executed(m, qps[0]), 1, qps[1]);
  }

  lemma PostedTwo(qps: seq<seq<Wr>>)
    requires |qps| == 2
    ensures Posted(qps) == |qps[0]| + |qps[1]|
  {
    var one, none: seq<seq<Wr>> := qps[..1], [];
    assert one[..0] == none && one[0] == qps[0];
    assert Posted(one) == Posted(none) + |qps[0]|;
  }

  /** The NIC executes everything that is posted. */
  lemma ReachDrained(c: Setup, s: State, call: Task, e: State) returns (e': State)
    requires Reaches(c, s, call, e) && BothOk(c, e.mem, e.qps)
    ensures Reaches(c, s, call, e') && |e'.cq| == Outstanding(e)
    ensures e' == e.(qps := [[], []], others := 0, cq := e'.cq, mem := Drained(c, e.mem, e.qps))
  {
    hide Reaches;
    var q0, q1 := e.qps[0], e.qps[1];
    OkMapped(c, e.mem, 0, q0);
    OkMapped(c, e.mem, 1, q1);
    PostedTwo(e.qps);
    assert q0[..|q0|] == q0 && q1[..|q1|] == q1 && q0[|q0|..] == [] && q1[|q1|..] == [];
    var e1 := ReachDrain(c, s, call, e, 0, |q0|);
    assert e1.qps[1] == q1;
    var e2 := ReachDrain(c, s, call, e1, 1, |q1|);
    assert e2.qps == [[], []];
    e' := ReachOthers(c, s, call, e2);
  }

  /** The NIC provides a completion, from lane 0 only when nothing else is outstanding. */
  lemma ReachFed(c: Setup, s: State, call: Task, e: State) returns (e': State)
    requires Reaches(c, s, call, e) && BothOk(c, e.mem, e.qps) && Outstanding(e) > 0
    ensures Reaches(c, s, call, e') && e'.cq != [] && |e'.qps| == 2 && SameShape(e'.mem, e.mem)
    ensures e' == e.(qps := e'.qps, others := e'.others, cq := e'.cq, mem := e'.mem)
    ensures Elsewhere(e) ==> OnlyPool(c, 1, e.mem, e'.mem)
  {
    hide Reaches;
    PostedTwo(e.qps);
    OkMapped(c, e.mem, 0, e.qps[0]);
    OkMapped(c, e.mem, 1, e.qps[1]);
    if e.cq != [] {
      e' := e;
    } else if e.others > 0 {
      ReachStep(c, s, call, e, ExecuteOther(0));
      e' := Apply(c, e, ExecuteOther(0));
    } else {
      var l := if e.qps[1] != [] then 1 else 0;
      e' := ReachDrain(c, s, call, e, l, 1);
      ExecutedPool(c, e.mem, l, e.qps[l][..1]);
    }
  }

  /** A completion can come without lane 0. */
  predicate Elsewhere(s: State) {
    s.cq != [] || s.others > 0 || exists l :: 0 < l < |s.qps| && s.qps[l] != []
  }

  // ---------------------------------------------------------------- a poll that returns too early

  /** Thread `t` of lane 0 is about to begin its first chunk, and there is a completion to take. */
  ghost predicate Ready(c: Setup, s: State, call: Task, e: State, t: nat, task: Task) {
    && ValidSetup(c) && (t == 0 || t == c.workers) && HamalOf(c, e, t) == Some(Hamal(task, 0, Top))
    && |e.qps| == c.workers && e.cq != []
    && Admissible(c, s.mem, call) && SameShape(e.mem, s.mem) && FirstTask(call, task)
  }

  /** For a write nothing else is posted; for a read the pool is as it was before the call. */
  ghost predicate Slips(c: Setup, s: State, call: Task, e: State, t: nat, task: Task) {
    && Ready(c, s, call, e, t, task)
    && (if call.write then
          && (forall l :: 0 <= l < c.workers ==> e.qps[l] == [])
          && Same(e.mem.local, call.user, s.mem.local, call.user, call.size)
        else Same(e.mem.local, PoolAddr(c, 0), s.mem.local, PoolAddr(c, 0), CHUNK))
  }

  /** The task begins as the call does, and has the same first two chunks. */
  predicate FirstTask(call: Task, task: Task) {
    && task.write == call.write && task.user == call.user && task.remote == call.remote
    && 0 < task.size <= call.size && Min(2 * CHUNK, task.size) == Min(2 * CHUNK, call.size)
  }

  /** A small call whose poll finds a completion ... */
  lemma SmallReady(c: Setup, s: State, call: Task) returns (e: State)
    requires Between(c, s) && c.workers == 2 && Admissible(c, s.mem, call) && !Large(call) && call.size > 0
        && Outstanding(s) > 0
    ensures Reaches(c, s, call, e) && Ready(c, s, call, e, c.workers, call)
    ensures !call.write && Elsewhere(s) ==> Slips(c, s, call, e, c.workers, call)
  {
    hide Reaches, Admissible;
    BetweenBothOk(c, s);
    ReachBegin(c, s, call);
    e := ReachFed(c, s, call, Apply(c, s, Begin(call)));
    PoolsApart(c, 0, 1);
  }

  /** ... a small write before which everything has executed ... */
  lemma SmallDrained(c: Setup, s: State, call: Task) returns (e: State)
    requires Between(c, s) && c.workers == 2 && Admissible(c, s.mem, call) && !Large(call) && call.size > 0
        && Outstanding(s) > 0 && call.write
    ensures BothOk(c, s.mem, s.qps)
    ensures Reaches(c, s, call, e) && Slips(c, s, call, e, c.workers, call) && e.mem == Drained(c, s.mem, s.qps)
        && e.caller == Inline(Hamal(call, 0, Top))
  {
    hide Reaches;
    BetweenBothOk(c, s);
    ReachBegin(c, s, call);
    e := ReachDrained(c, s, call, Apply(c, s, Begin(call)));
    DrainedUser(c, s.mem, s.qps, call);
  }

  /** ... and a large call in which a request of the second worker's lane has executed: the first worker sees its
      completion. */
  lemma LargeSlips(c: Setup, s: State, call: Task) returns (e: State)
    requires Between(c, s) && c.workers == 2 && Admissible(c, s.mem, call) && Large(call)
    ensures Reaches(c, s, call, e) && Slips(c, s, call, e, 0, Part(c, call, 0))
  {
    hide Reaches;
    TwoParts(c, s.mem, call);
    BetweenBothOk(c, s);
    var p0, p1 := Part(c, call, 0), Part(c, call, 1);
    var e1 := ReachPushed(c, s, call);
    var e2 := ReachBusy(c, s, call, e1, 0, p0);
    var e3 := ReachBusy(c, s, call, e2, 1, p1);
    if call.write {
      e3 := ReachDrained(c, s, call, e3);
      DrainedUser(c, s.mem, s.qps, call);
    }
    e := SecondExecutes(c, s, call, e3, p1);
  }

  /** The second worker posts its first chunk and the NIC executes a request of its lane. */
  lemma SecondExecutes(c: Setup, s: State, call: Task, e: State, p: Task) returns (w: State)
    requires Reaches(c, s, call, e) && |e.workers| == 2 && BothOk(c, e.mem, e.qps) && SameShape(e.mem, s.mem)
    requires e.workers[1] == Worker([], 0, Busy(Hamal(p, 0, Top))) && p.write == call.write && p.size > 0
    requires Admissible(c, s.mem, call) && Mapped(c, s.mem, 1, p) && (call.write ==> e.qps == [[], []])
    ensures Reaches(c, s, call, w) && w.caller == e.caller && |w.workers| == 2 && w.workers[0] == e.workers[0]
    ensures w.cq != [] && |w.qps| == 2 && (call.write ==> w.qps == [[], []]) && OnlyPool(c, 1, e.mem, w.mem)
  {
    hide Reaches;
    var h := Hamal(p, 0, Top);
    var e1 := e;
    if call.write {
      ReachStep(c, s, call, e, CopyIn(1));
      e1 := Apply(c, e, CopyIn(1));
      h := h.(stage := Staged);
    }
    ReachStep(c, s, call, e1, Post(1));
    var e2 := Apply(c, e1, Post(1));
    var wr, q := WrOf(c, 1, h), e.qps[1] + [WrOf(c, 1, h)];
    assert e2.qps[1] == q && RequestOk(c, e1.mem, 1, wr);
    assert RequestsOk(c, e1.mem, 1, q);
    OkMapped(c, e1.mem, 1, q);
    w := ReachDrain(c, s, call, e2, 1, 1);
    ExecutedPool(c, e1.mem, 1, q[..1]);
    if call.write { assert q == [wr] && q[1..] == []; }
  }

  /** The thread posts its first chunk and takes the completion, while its own request still has to execute. */
  lemma Early(c: Setup, s: State, call: Task, e: State, t: nat, h: Hamal) returns (u: State)
    requires Reaches(c, s, call, e) && HamalOf(c, e, t) == Some(h) && LaneOf(c, t) == 0 && c.workers >= 1
    requires h.done == 0 < h.task.size && h.stage == (if h.task.write then Staged else Top)
    requires |e.qps| == c.workers && e.cq != []
    ensures Reaches(c, s, call, u) && u.mem == e.mem && HamalOf(c, u, t) == Some(Polled(h.(stage := Waiting)))
    ensures u.qps == e.qps[0 := e.qps[0] + [WrOf(c, 0, h)]]
  {
    hide Reaches;
    ReachStep(c, s, call, e, Post(t));
    var e1 := Apply(c, e, Post(t));
    ReachStep(c, s, call, e1, Poll(t, 0));
    u := Apply(c, e1, Poll(t, 0));
  }

  // ---------------------------------------------------------------- a read

  /** The next step of the thread copies out of a pool that its request has yet to fill. */
  lemma SlipRead(c: Setup, s: State, call: Task, e: State, t: nat, task: Task) returns (u: State)
    requires Reaches(c, s, call, e) && Ready(c, s, call, e, t, task) && !call.write
    ensures Reaches(c, s, call, u) && u.mem == e.mem && HamalOf(c, u, t) == Some(Hamal(task, 0, Arrived))
    ensures Enabled(c, u, CopyOut(t)) && |u.qps| == c.workers && u.qps[0] != []
  {
    hide Reaches;
    u := Early(c, s, call, e, t, Hamal(task, 0, Top));
    PoolsApart(c, 0, c.workers);
  }

  /** It reports what the pool held before the call. */
  lemma StaleRead(c: Setup, s: State, call: Task, e: State, t: nat, task: Task) returns (w: State)
    requires Reaches(c, s, call, e) && Slips(c, s, call, e, t, task) && !call.write
    ensures Reaches(c, s, call, w) && HamalOf(c, w, t) == Some(Hamal(task, Min(CHUNK, task.size), Top))
        && SameShape(w.mem, s.mem)
    ensures Same(w.mem.local, call.user, s.mem.local, PoolAddr(c, 0), Min(CHUNK, task.size))
  {
    hide Reaches;
    var u := SlipRead(c, s, call, e, t, task);
    ReachStep(c, s, call, u, CopyOut(t));
    w := Apply(c, u, CopyOut(t));
    StaleCopy(c, e.mem, s.mem, Hamal(task, 0, Arrived));
    assert w.mem == CopiedOut(c, e.mem, 0, Hamal(task, 0, Arrived));
  }

  lemma StaleCopy(c: Setup, m: Mem, start: Mem, h: Hamal)
    requires h.done == 0 && Mapped(c, m, 0, h.task) && SameShape(m, start)
    requires Same(m.local, PoolAddr(c, 0), start.local, PoolAddr(c, 0), CHUNK)
    ensures SameShape(CopiedOut(c, m, 0, h), start)
    ensures Same(CopiedOut(c, m, 0, h).local, h.task.user, start.local, PoolAddr(c, 0), ChunkLen(h))
  {
  }

  // ---------------------------------------------------------------- a write

  /** Staging a chunk leaves the user buffer alone. */
  lemma StageKeeps(c: Setup, m: Mem, start: Mem, t: nat, h: Hamal, call: Task)
    requires t < c.workers && Mapped(c, m, t, h.task) && h.done <= h.task.size && SameShape(m, start)
    requires OffPools(c, call) && call.user + call.size <= |m.local|
    requires Same(m.local, call.user, start.local, call.user, call.size)
    ensures SameShape(CopiedIn(c, m, t, h), start)
    ensures Same(CopiedIn(c, m, t, h).local, call.user, start.local, call.user, call.size)
  {
    PoolsApart(c, t, c.workers);
    if 0 < t { PoolsApart(c, 0, t); }
  }

  /** The thread goes on to its second chunk, or to its end, while the first one is still to be sent from the pool. */
  lemma SlipWrite(c: Setup, s: State, call: Task, e: State, t: nat, task: Task) returns (u: State)
    requires Reaches(c, s, call, e) && Slips(c, s, call, e, t, task) && call.write
    ensures Reaches(c, s, call, u) && HamalOf(c, u, t) == Some(Hamal(task, Min(CHUNK, task.size), Top))
        && SameShape(u.mem, s.mem)
    ensures u.mem.remote == e.mem.remote && Same(u.mem.local, call.user, s.mem.local, call.user, call.size)
    ensures |u.qps| == c.workers && u.qps[0] == [Wr(true, PoolAddr(c, 0), call.remote, Min(CHUNK, task.size))]
    ensures forall l :: 0 < l < c.workers ==> u.qps[l] == []
    ensures task.size > CHUNK ==> Enabled(c, u, CopyIn(t))
  {
    hide Reaches;
    var h := Hamal(task, 0, Top);
    PoolsApart(c, 0, c.workers);
    StageKeeps(c, e.mem, s.mem, 0, h, call);
    ReachStep(c, s, call, e, CopyIn(t));
    var e1 := Apply(c, e, CopyIn(t));
    assert e1.mem == CopiedIn(c, e.mem, 0, h);
    u := Early(c, s, call, e1, t, h.(stage := Staged));
    assert [] + [WrOf(c, 0, h)] == [WrOf(c, 0, h)];
  }

  /** The second chunk of the source is sent where the first belongs. */
  lemma SwappedWrite(c: Setup, s: State, call: Task, e: State, t: nat, task: Task) returns (w: State)
    requires Reaches(c, s, call, e) && Slips(c, s, call, e, t, task) && call.write && call.size > CHUNK
    ensures Reaches(c, s, call, w) && HamalOf(c, w, t) == Some(Hamal(task, CHUNK, Staged)) && SameShape(w.mem, s.mem)
    ensures |w.qps| == c.workers && forall l :: 0 <= l < c.workers ==> w.qps[l] == []
    ensures Same(w.mem.remote, call.remote, s.mem.local, call.user + CHUNK, Min(CHUNK, call.size - CHUNK))
  {
    hide Reaches;
    var u := SlipWrite(c, s, call, e, t, task);
    var h, wr := Hamal(task, CHUNK, Top), Wr(true, PoolAddr(c, 0), call.remote, CHUNK);
    ReachStep(c, s, call, u, CopyIn(t));
    var u1 := Apply(c, u, CopyIn(t));
    assert u1.mem == CopiedIn(c, u.mem, 0, h) && u1.qps == u.qps;
    LateExecution(c, u.mem, s.mem, h, wr, call);
    ReachStep(c, s, call, u1, Execute(0));
    w := Apply(c, u1, Execute(0));
    assert w.mem == NicCopy(u1.mem, wr);
    assert [wr][1..] == [];
  }

  lemma LateExecution(c: Setup, m: Mem, start: Mem, h: Hamal, wr: Wr, call: Task)
    requires FirstTask(call, h.task) && call.write && call.size > CHUNK && h.done == CHUNK
    requires Mapped(c, m, 0, h.task) && SameShape(m, start) && OffPools(c, call) && c.workers >= 1
    requires call.user + call.size <= |m.local| && wr == Wr(true, PoolAddr(c, 0), call.remote, CHUNK)
    requires Same(m.local, call.user, start.local, call.user, call.size)
    ensures WrMapped(CopiedIn(c, m, 0, h), wr) && SameShape(NicCopy(CopiedIn(c, m, 0, h), wr), start)
    ensures Same(NicCopy(CopiedIn(c, m, 0, h), wr).remote, call.remote, start.local, call.user + CHUNK, Min(CHUNK,
        call.size - CHUNK))
  {
    var m1, n := CopiedIn(c, m, 0, h), Min(CHUNK, call.size - CHUNK);
    assert ChunkLen(h) == n;
    assert Same(m1.local, PoolAddr(c, 0), start.local, call.user + CHUNK, n);
  }
}
