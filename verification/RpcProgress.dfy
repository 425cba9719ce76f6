/** Progress between servers with test messages: a call under way never waits for nothing, and without new calls every
    schedule returns all of them after the same number of steps. */
module RpcProgress {
  import opened Addressing
  import opened RpcServer
  import opened RpcServerSafety
  import opened RpcTests
  import opened RpcCredits

  // ---------------------------------------------------------------- what a call waits for

  /** The step that the call of `t` needs next: its own, or that of the wire or the responder that it is queued at. */
  predicate Awaits(s: State, t: Tid, step: Step)
    requires PhaseOf(s, t).Rest? || PhaseOf(s, t).Ready? || !CallerOf(s, t).Idle?
  {
    match PhaseOf(s, t)
    case Rest => false
    case Ready => step == Post(t)
    case OnWire => step == Execute(Pair(t.node, CallerOf(s, t).dest))
    case Arrived => OfResponder(step, CallerOf(s, t).dest)
    case Serving => OfResponder(step, CallerOf(s, t).dest)
    case Replying => OfResponder(step, CallerOf(s, t).dest)
    case OnWayBack => step == Execute(Pair(CallerOf(s, t).dest, t.node))
    case Back => step == Return(t)
    case Silent => false
  }

  predicate OfResponder(step: Step,
      y: nat) { step == Poll(y) || step == Handle(y) || step == Reply(y) || step == Repost(y) }

  /** Whatever a responder is at, it can go on, if a completion waits or it holds one. */
  lemma ResponderMoves(n: nat, s: State, y: nat) returns (step: Step)
    requires ResponderOk(n, s, y) && (ResponderOf(s, y).Polling? ==> Cq(s, y) != [])
    ensures Enabled(n, s, step) && OfResponder(step, y)
  {
    hide RecvSlot, SendSlot, Imm;
    match ResponderOf(s, y) {
      case Polling => step := Poll(y);
      case Got(imm) => step := Handle(y);
      case Overwritten(a, o) => step := Reply(y);
      case Sent(a, o) => step := Repost(y);
    }
  }

  /** In every run of test traffic a call that is under way has its next step enabled, or that of what it is queued
      behind. */
  lemma {:induction false} NeverWaitsForNothing(n: nat, steps: seq<Step>, t: Tid) returns (step: Step)
    requires Run(n, Start, steps) && TestsOnly(steps) && IsTid(n, t) && !PhaseOf(Exec(n, Start, steps), t).Rest?
    ensures var s := Exec(n, Start, steps);
      && !CallerOf(s, t).Idle? && Enabled(n, s, step) && Awaits(s, t, step)
  {
    hide RecvSlot, SendSlot, Imm, ImmNode, ImmOffset, UnlockMark, Apply;
    RunInv(n, steps);
    RunAllTests(n, steps);
    var s := Exec(n, Start, steps);
    assert TidOk(n, s, t);
    var d := CallerOf(s, t).dest;
    assert ResponderOk(n, s, d);
    match PhaseOf(s, t) {
      case Rest =>
      case Silent =>
      case Ready => step := Post(t);
      case OnWire => ReceiveAlwaysPosted(n, steps, Pair(t.node, d)); step := Execute(Pair(t.node, d));
      case OnWayBack => ReceiveAlwaysPosted(n, steps, Pair(d, t.node)); step := Execute(Pair(d, t.node));
      case Back => step := Return(t);
      case Arrived => step := ResponderMoves(n, s, d);
      case Serving => step := ResponderMoves(n, s, d);
      case Replying => step := ResponderMoves(n, s, d);
    }
  }

  // ---------------------------------------------------------------- the steps that are left

  /** Steps left for a call; answering leaves one more to its responder. */
  function PhaseLeft(ph: Phase): nat {
    match ph
    case Rest => 0
    case Ready => 8
    case OnWire => 7
    case Arrived => 6
    case Serving => 5
    case Replying => 4
    case OnWayBack => 2
    case Back => 1
    case Silent => 0
  }

  function SentLeft(r: Responder): nat { if r.Sent? then 1 else 0 }

  /** Over the first `k` threads of node `a`; over the first `m` nodes. */
  function NodeLeft(s: State, a: nat, k: nat): nat {
    if k == 0 then 0 else NodeLeft(s, a, k - 1) + PhaseLeft(PhaseOf(s, Tid(a, k - 1)))
  }

  function Left(s: State, m: nat): nat {
    if m == 0 then 0 else Left(s, m - 1) + NodeLeft(s, m, SERVER_MESSAGE_NUM) + SentLeft(ResponderOf(s, m))
  }

  lemma {:induction false} LeftBound(s: State, m: nat)
    ensures Left(s, m) <= 65 * m
  {
    if m > 0 {
      LeftBound(s, m - 1);
      NodeBound(s, m, SERVER_MESSAGE_NUM);
    }
  }

  lemma {:induction false} NodeBound(s: State, a: nat, k: nat)
    ensures NodeLeft(s, a, k) <= 8 * k
  {
    if k > 0 { NodeBound(s, a, k - 1); }
  }

  lemma {:induction false} NodeMoved(s: State, s': State, t: Tid, a: nat, k: nat)
    requires OnlyTid(s, s', t)
    ensures NodeLeft(s', a, k) == NodeLeft(s, a, k) +
      if a == t.node && t.off < k then PhaseLeft(PhaseOf(s', t)) - PhaseLeft(PhaseOf(s, t)) else 0
  {
    if k > 0 { NodeMoved(s, s', t, a, k - 1); }
  }

  /** Only `t` and the responder `y` moved. */
  lemma {:induction false} LeftMoved(s: State, s': State, t: Tid, y: nat, m: nat)
    requires OnlyTid(s, s', t) && RespondersBut(s, s', y) && t.off < SERVER_MESSAGE_NUM
    ensures Left(s', m) == Left(s, m)
      + (if 1 <= t.node <= m then PhaseLeft(PhaseOf(s', t)) - PhaseLeft(PhaseOf(s, t)) else 0)
      + (if 1 <= y <= m then SentLeft(ResponderOf(s', y)) - SentLeft(ResponderOf(s, y)) else 0)
  {
    if m > 0 {
      LeftMoved(s, s', t, y, m - 1);
      NodeMoved(s, s', t, m, SERVER_MESSAGE_NUM);
    }
  }

  lemma CallerLeft(n: nat, s: State, step: Step, t: Tid)
    requires IsTid(n, t) && TidOk(n, s, t) && Enabled(n, s, step) && (step == Post(t) || step == Return(t))
    ensures Left(Apply(n, s, step), n) == Left(s, n) - 1
  {
    hide RecvSlot, SendSlot, Imm, Left;
    var s' := Apply(n, s, step);
    CallerMoves(n, s, step, t);
    Views(s, s');
    LeftMoved(s, s', t, 0, n);
  }

  lemma ExecuteLeft(n: nat, s: State, p: Pair)
    requires WireOk(n, s, p) && Enabled(n, s, Execute(p))
    ensures Left(Apply(n, s, Execute(p)), n) == Left(s, n) - 1
  {
    hide RecvSlot, SendSlot, Imm, Left, Apply;
    var s', w := Apply(n, s, Execute(p)), Wire(s, p)[0];
    assert EntryOk(n, s, p, w);
    if w.imm.Some? { ExecuteRequestViews(n, s, p, w); } else { ExecuteReplyViews(n, s, p, w); }
    LeftMoved(s, s', w.of, 0, n);
  }

  lemma PollLeft(n: nat, s: State, y: nat)
    requires CqOk(n, s, y) && Enabled(n, s, Poll(y))
    ensures Left(Apply(n, s, Poll(y)), n) == Left(s, n) - 1
  {
    hide RecvSlot, SendSlot, Imm, ImmNode, ImmOffset, UnlockMark, Left;
    var s', t := Apply(n, s, Poll(y)), TidOf(Cq(s, y)[0]);
    assert ImmAt(n, s, y, Cq(s, y)[0], Arrived);
    TidUpdated(s, s', t);
    ResponderUpdated(s, s', y);
    LeftMoved(s, s', t, y, n);
  }

  lemma HandleLeft(n: nat, s: State, y: nat, t: Tid)
    requires ResponderOk(n, s, y) && AllTests(s) && Enabled(n, s, Handle(y)) && t == TidOf(ResponderOf(s, y).imm)
    requires IsNode(n, y) && IsTid(n, t) && TidOk(n, s, t)
    ensures Left(Apply(n, s, Handle(y)), n) == Left(s, n) - 1
  {
    hide RecvSlot, SendSlot, Imm, ImmNode, ImmOffset, UnlockMark, Left, Apply;
    assert Mem(s, SlotLoc(n, t, y)) == SentBy(s, t) && PhaseOf(s, t).Serving?;
    HandleTestViews(n, s, y, t);
    LeftMoved(s, Apply(n, s, Handle(y)), t, y, n);
  }

  lemma ReplyLeft(n: nat, s: State, y: nat, t: Tid)
    requires ResponderOk(n, s, y) && Enabled(n, s, Reply(y)) && ResponderOf(s, y) == Overwritten(t.node, t.off)
        && IsNode(n, y)
    ensures Left(Apply(n, s, Reply(y)), n) == Left(s, n) - 1
  {
    hide RecvSlot, SendSlot, Imm, Left;
    var s' := Apply(n, s, Reply(y));
    TidUpdated(s, s', t);
    ResponderUpdated(s, s', y);
    LeftMoved(s, s', t, y, n);
  }

  lemma RepostLeft(n: nat, s: State, y: nat)
    requires Enabled(n, s, Repost(y)) && 1 <= y <= n
    ensures Left(Apply(n, s, Repost(y)), n) == Left(s, n) - 1
  {
    hide Left;
    var s' := Apply(n, s, Repost(y));
    TidUpdated(s, s', Tid(0, 0));
    ResponderUpdated(s, s', y);
    LeftMoved(s, s', Tid(0, 0), y, n);
  }

  // ---------------------------------------------------------------- every schedule returns

  lemma ResponderNode(n: nat, s: State, y: nat, t: Tid)
    requires ResponderOk(n, s, y) && IsTid(n, t) && TidOk(n, s, t)
    requires (ResponderOf(s, y).Got?
        && t == TidOf(ResponderOf(s, y).imm)) || ResponderOf(s, y) == Overwritten(t.node, t.off)
    ensures IsNode(n, y)
  {
  }

  /** With test messages every step but the start of a call is one of the steps left. */
  lemma StepLeft(n: nat, s: State, step: Step)
    requires Inv(n, s) && AllTests(s) && Enabled(n, s, step) && !step.Prepare?
    ensures Left(Apply(n, s, step), n) == Left(s, n) - 1
  {
    hide RecvSlot, SendSlot, Imm, ImmNode, ImmOffset, UnlockMark, TidOk, WireOk, CqOk, AllTests, Left, Apply;
    match step {
      case Post(t) => assert TidOk(n, s, t); CallerLeft(n, s, step, t);
      case Return(t) => assert TidOk(n, s, t); CallerLeft(n, s, step, t);
      case Execute(p) => assert WireOk(n, s, p); ExecuteLeft(n, s, p);
      case Poll(y) => assert CqOk(n, s, y); PollLeft(n, s, y);
      case Handle(y) =>
        var t := TidOf(ResponderOf(s, y).imm);
        assert ResponderOk(n, s, y);
        assert TidOk(n, s, t);
        ResponderNode(n, s, y, t);
        HandleLeft(n, s, y, t);
      case Reply(y) =>
        var t := Tid(ResponderOf(s, y).node, ResponderOf(s, y).off);
        assert ResponderOk(n, s, y);
        assert TidOk(n, s, t);
        ResponderNode(n, s, y, t);
        ReplyLeft(n, s, y, t);
      case Repost(y) => assert ResponderOk(n, s, y); RepostLeft(n, s, y);
    }
  }

  predicate NoPrepare(steps: seq<Step>) { forall k :: 0 <= k < |steps| ==> !steps[k].Prepare? }

  lemma {:induction false} Continued(n: nat, steps: seq<Step>, more: seq<Step>)
    requires Run(n, Start, steps + more) && TestsOnly(steps) && NoPrepare(more)
    ensures Run(n, Start, steps) && TestsOnly(steps + more)
    ensures Left(Exec(n, Start, steps + more), n) == Left(Exec(n, Start, steps), n) - |more|
    decreases |more|
  {
    if more == [] {
      assert steps + more == steps;
    } else {
      hide Left, Enabled, Apply, Inv;
      var k := |more| - 1;
      var all := steps + more;
      assert all[..|all| - 1] == steps + more[..k] && all[|all| - 1] == more[k];
      Continued(n, steps, more[..k]);
      RunInv(n, steps + more[..k]);
      RunAllTests(n, steps + more[..k]);
      StepLeft(n, Exec(n, Start, steps + more[..k]), more[k]);
    }
  }

  lemma {:induction false} NodeRests(s: State, a: nat, k: nat, o: nat)
    requires NodeLeft(s, a, k) == 0 && o < k
    ensures PhaseOf(s, Tid(a, o)).Rest? || PhaseOf(s, Tid(a, o)).Silent?
  {
    if o < k - 1 { NodeRests(s, a, k - 1, o); }
  }

  lemma {:induction false} AllRest(s: State, m: nat, t: Tid)
    requires Left(s, m) == 0 && 1 <= t.node <= m && t.off < SERVER_MESSAGE_NUM
    ensures PhaseOf(s, t).Rest? || PhaseOf(s, t).Silent?
  {
    if t.node < m { AllRest(s, m - 1, t); } else { NodeRests(s, m, SERVER_MESSAGE_NUM, t.off); }
  }

  /** From any reachable state of test traffic, and without new calls: a schedule is never longer than a number fixed by
      that state, at most 65 for each server; when it has that length every call has returned; and as long as one has
      not, it can be continued. */
  lemma {:induction false} CallsReturn(n: nat, steps: seq<Step>, more: seq<Step>, t: Tid)
    requires Run(n, Start, steps + more) && TestsOnly(steps) && NoPrepare(more) && IsTid(n, t)
    ensures Run(n, Start, steps) && |more| <= Left(Exec(n, Start, steps), n) <= 65 * n
    ensures var e := Exec(n, Start, steps + more);
      && (|more| == Left(Exec(n, Start, steps), n) ==> CallerOf(e, t).Idle?)
      && (!CallerOf(e, t).Idle? ==> exists step :: Enabled(n, e, step) && !step.Prepare? && Awaits(e, t, step))
  {
    hide Left, Enabled, Apply, TidOk;
    Continued(n, steps, more);
    LeftBound(Exec(n, Start, steps), n);
    var all := steps + more;
    var e := Exec(n, Start, all);
    RunInv(n, all);
    RunAllTests(n, all);
    assert TidOk(n, e, t);
    PhaseCaller(n, e, t);
    if !CallerOf(e, t).Idle? {
      var step := NeverWaitsForNothing(n, all, t);
    }
    if Left(e, n) == 0 { AllRest(e, n, t); }
  }

  lemma PhaseCaller(n: nat, s: State, t: Tid)
    requires IsTid(n, t) && TidOk(n, s, t) && AllTests(s)
    ensures PhaseOf(s, t).Rest? <==> CallerOf(s, t).Idle?
    ensures !PhaseOf(s, t).Silent?
  {
  }
}
