/** Traffic between servers that consists of test messages only: nothing is dropped and every request is answered
    exactly once. */
module RpcTests {
  import opened Addressing
  import opened RpcServer
  import opened RpcServerSafety

  predicate TestsOnly(steps: seq<Step>) {
    forall k :: 0 <= k < |steps| && steps[k].Prepare? ==> steps[k].msg.Test?
  }

  ghost predicate AllTests(s: State) {
    && (forall t {:trigger s.sent[t]} :: t in s.sent ==> s.sent[t].message.Test?)
    && (forall t {:trigger PhaseOf(s, t)} :: !PhaseOf(s, t).Silent? && (!PhaseOf(s, t).Rest? ==> t in s.sent))
    && s.lost == map[]
  }

  // Steps that neither start a call nor handle a request drop nothing.

  /** Only `t` moves, it is dropped neither before nor after, and it does not leave its rest. */
  ghost predicate Moves(s: State, s': State, t: Tid) {
    && OnlyTid(s, s', t) && s'.lost == s.lost && s'.sent == s.sent
    && ((PhaseOf(s', t) == PhaseOf(s, t) && CallerOf(s', t) == CallerOf(s, t))
     || (!PhaseOf(s, t).Silent? && !PhaseOf(s', t).Silent? && (!PhaseOf(s', t).Rest? ==> !PhaseOf(s, t).Rest?)))
  }

  lemma CallerMoves(n: nat, s: State, step: Step, t: Tid)
    requires IsTid(n, t) && TidOk(n, s, t) && Enabled(n, s, step) && (step == Post(t) || step == Return(t))
    ensures Moves(s, Apply(n, s, step), t)
  {
    hide RecvSlot, SendSlot, Imm;
    TidUpdated(s, Apply(n, s, step), t);
  }

  lemma ExecuteMoves(n: nat, s: State, p: Pair)
    requires WireOk(n, s, p) && Enabled(n, s, Execute(p))
    ensures Moves(s, Apply(n, s, Execute(p)), Wire(s, p)[0].of)
  {
    hide RecvSlot, SendSlot, Imm, Apply;
    var w := Wire(s, p)[0];
    assert EntryOk(n, s, p, w);
    if w.imm.Some? { ExecuteRequestViews(n, s, p, w); } else { ExecuteReplyViews(n, s, p, w); }
  }

  lemma PollMoves(n: nat, s: State, y: nat)
    requires CqOk(n, s, y) && Enabled(n, s, Poll(y))
    ensures Moves(s, Apply(n, s, Poll(y)), TidOf(Cq(s, y)[0]))
  {
    hide RecvSlot, SendSlot, Imm, ImmNode, ImmOffset, UnlockMark;
    assert ImmAt(n, s, y, Cq(s, y)[0], Arrived);
    TidUpdated(s, Apply(n, s, Poll(y)), TidOf(Cq(s, y)[0]));
  }

  lemma ReplyMoves(n: nat, s: State, y: nat, t: Tid)
    requires ResponderOk(n, s, y) && Enabled(n, s, Reply(y)) && ResponderOf(s, y) == Overwritten(t.node, t.off)
    ensures Moves(s, Apply(n, s, Reply(y)), t)
  {
    hide RecvSlot, SendSlot, Imm;
    TidUpdated(s, Apply(n, s, Reply(y)), t);
  }

  lemma RepostMoves(n: nat, s: State, y: nat)
    requires Enabled(n, s, Repost(y))
    ensures Moves(s, Apply(n, s, Repost(y)), Tid(0, 0))
  {
    TidUpdated(s, Apply(n, s, Repost(y)), Tid(0, 0));
  }

  lemma StepMoves(n: nat, s: State, step: Step) returns (t: Tid)
    requires Inv(n, s) && Enabled(n, s, step) && !step.Prepare? && !step.Handle?
    ensures Moves(s, Apply(n, s, step), t)
  {
    hide Moves, TidOk, WireOk, CqOk, RecvSlot, SendSlot, Apply;
    match step {
      case Post(u) => t := u; assert TidOk(n, s, u); CallerMoves(n, s, step, u);
      case Return(u) => t := u; assert TidOk(n, s, u); CallerMoves(n, s, step, u);
      case Execute(p) => t := Wire(s, p)[0].of; assert WireOk(n, s, p); ExecuteMoves(n, s, p);
      case Poll(y) => t := TidOf(Cq(s, y)[0]); assert CqOk(n, s, y); PollMoves(n, s, y);
      case Reply(y) =>
        t := Tid(ResponderOf(s, y).node, ResponderOf(s, y).off);
        assert ResponderOk(n, s, y);
        ReplyMoves(n, s, y, t);
      case Repost(y) => t := Tid(0, 0); RepostMoves(n, s, y);
    }
  }

  lemma AllTestsKept(s: State, s': State, t: Tid)
    requires AllTests(s) && Moves(s, s', t)
    ensures AllTests(s')
  {
    forall u ensures !PhaseOf(s', u).Silent? && (!PhaseOf(s', u).Rest? ==> u in s'.sent) {
      assert !PhaseOf(s, u).Silent? && (!PhaseOf(s, u).Rest? ==> u in s.sent);
    }
  }

  lemma PrepareAllTests(n: nat, s: State, step: Step)
    requires AllTests(s) && Enabled(n, s, step) && step.Prepare? && step.msg.Test?
    ensures AllTests(Apply(n, s, step))
  {
    hide RecvSlot, SendSlot;
    var s' := Apply(n, s, step);
    forall u ensures !PhaseOf(s', u).Silent? && (!PhaseOf(s', u).Rest? ==> u in s'.sent) {
      assert !PhaseOf(s, u).Silent? && (!PhaseOf(s, u).Rest? ==> u in s.sent);
    }
  }

  /** A request that is served under these conditions is a test message, so it is answered. */
  lemma HandleAllTests(n: nat, s: State, y: nat, t: Tid)
    requires ResponderOk(n, s, y) && AllTests(s) && Enabled(n, s, Handle(y)) && t == TidOf(ResponderOf(s, y).imm)
    requires IsNode(n, y) && IsTid(n, t) && TidOk(n, s, t)
    ensures AllTests(Apply(n, s, Handle(y)))
  {
    hide RecvSlot, SendSlot, Imm, ImmNode, ImmOffset, UnlockMark;
    assert Mem(s, SlotLoc(n, t, y)) == SentBy(s, t);
    assert PhaseOf(s, t).Serving?;
    HandleTestViews(n, s, y, t);
    assert Apply(n, s, Handle(y)).sent == s.sent;
    AllTestsKept(s, Apply(n, s, Handle(y)), t);
  }

  lemma StepAllTests(n: nat, s: State, step: Step)
    requires Inv(n, s) && AllTests(s) && Enabled(n, s, step) && (step.Prepare? ==> step.msg.Test?)
    ensures AllTests(Apply(n, s, step))
  {
    hide RecvSlot, SendSlot, Imm, ImmNode, ImmOffset, UnlockMark, AllTests, TidOk, Moves, Apply;
    match step {
      case Prepare(_, _, _, _) => PrepareAllTests(n, s, step);
      case Handle(y) =>
        var t := TidOf(ResponderOf(s, y).imm);
        assert ResponderOk(n, s, y);
        assert TidOk(n, s, t);
        ServingNode(n, s, y);
        HandleAllTests(n, s, y, t);
      case _ =>
        var t := StepMoves(n, s, step);
        AllTestsKept(s, Apply(n, s, step), t);
    }
  }

  lemma ServingNode(n: nat, s: State, y: nat)
    requires ResponderOk(n, s, y) && ResponderOf(s, y).Got?
    requires IsTid(n, TidOf(ResponderOf(s, y).imm)) && TidOk(n, s, TidOf(ResponderOf(s, y).imm))
    ensures IsNode(n, y)
  {
  }

  lemma {:induction false} RunAllTests(n: nat, steps: seq<Step>)
    requires Run(n, Start, steps) && TestsOnly(steps)
    ensures AllTests(Exec(n, Start, steps))
    decreases |steps|
  {
    if steps != [] {
      var k := |steps| - 1;
      assert TestsOnly(steps[..k]);
      RunAllTests(n, steps[..k]);
      RunInv(n, steps[..k]);
      assert steps[k].Prepare? ==> steps[k].msg.Test?;
      StepAllTests(n, Exec(n, Start, steps[..k]), steps[k]);
    }
  }

  /** With test messages only, no request is dropped: every request of a thread was answered exactly once, except
      the one it is waiting for, which is on its way or being served. */
  lemma {:induction false} TestsAnsweredExactlyOnce(n: nat, steps: seq<Step>, t: Tid)
    requires Run(n, Start, steps) && TestsOnly(steps) && IsTid(n, t)
    ensures var s := Exec(n, Start, steps);
      && (forall p :: Lost(s, p) == 0)
      && Calls(s, t) == Answered(s, t) + if PhaseOf(s, t).OnWire? || PhaseOf(s, t).Arrived? || PhaseOf(s,
          t).Serving? then 1 else 0
  {
    RunAllTests(n, steps);
    RunInv(n, steps);
    assert TidOk(n, Exec(n, Start, steps), t);
  }
}
