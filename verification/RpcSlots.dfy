/** Who may write a message slot: in every reachable state the phase of a call names the only step that can change
    one of its slots. */
module RpcSlots {
  import opened Addressing
  import opened RpcServer
  import opened RpcServerSafety

  predicate UnderWay(n: nat, s: State, t: Tid) {
    IsTid(n, t) && !CallerOf(s, t).Idle? && IsNode(n, CallerOf(s, t).dest) && CallerOf(s, t).dest != t.node
  }

  /** `l` is a slot of the call that `t` has under way. */
  predicate OfCall(n: nat, s: State, t: Tid, l: Loc)
    requires IsTid(n, t) && !CallerOf(s, t).Idle? && IsNode(n, CallerOf(s, t).dest)
  {
    !Foreign(n, l, t, CallerOf(s, t).dest)
  }

  /** The step is the one that the phase of the call allows to write `l`. */
  predicate Owns(n: nat, s: State, t: Tid, l: Loc, step: Step)
    requires IsTid(n, t) && !CallerOf(s, t).Idle? && IsNode(n, CallerOf(s, t).dest)
  {
    var d := CallerOf(s, t).dest;
    || (PhaseOf(s, t).OnWire? && step == Execute(Pair(t.node, d)) && l == SlotLoc(n, t, d))
    || (PhaseOf(s, t).Serving? && step == Handle(d) && l == SlotLoc(n, t, d))
    || (PhaseOf(s, t).OnWayBack? && step == Execute(Pair(d, t.node)) && l == BackLoc(n, t))
  }

  lemma PrepareForeign(n: nat, s: State, t: Tid, l: Loc, step: Step)
    requires Inv(n, s) && Enabled(n, s, step) && step.Prepare?
    requires UnderWay(n, s, t) && OfCall(n, s, t, l)
    ensures Mem(Apply(n, s, step), l) == Mem(s, l)
  {
    hide RecvSlot, SendSlot;
    PrepareLocal(n, s, step.t, step.dest, step.msg, step.path);
    SlotsPrivate(n, step.t, step.dest, t, CallerOf(s, t).dest);
  }

  lemma ExecuteOwned(n: nat, s: State, t: Tid, l: Loc, p: Pair)
    requires Inv(n, s) && Enabled(n, s, Execute(p)) && Executed(s, Apply(n, s, Execute(p)), p)
    requires UnderWay(n, s, t) && OfCall(n, s, t, l)
    ensures Mem(Apply(n, s, Execute(p)), l) == Mem(s, l) || Owns(n, s, t, l, Execute(p))
  {
    hide RecvSlot, SendSlot, Imm, Apply;
    var s', w := Apply(n, s, Execute(p)), Wire(s, p)[0];
    assert WireOk(n, s, p);
    ExecuteOwn(n, s, s', p);
    assert TidOk(n, s, w.of);
    if w.of != t { SlotsPrivate(n, w.of, CallerOf(s, w.of).dest, t, CallerOf(s, t).dest); }
  }

  lemma HandleOwned(n: nat, s: State, t: Tid, l: Loc, y: nat)
    requires Inv(n, s) && Enabled(n, s, Handle(y))
    requires UnderWay(n, s, t) && OfCall(n, s, t, l)
    ensures Mem(Apply(n, s, Handle(y)), l) == Mem(s, l) || Owns(n, s, t, l, Handle(y))
  {
    hide RecvSlot, SendSlot, Imm, ImmNode, ImmOffset, UnlockMark, Apply;
    assert ResponderOk(n, s, y);
    var u := TidOf(ResponderOf(s, y).imm);
    assert TidOk(n, s, u);
    if Mem(s, SlotLoc(n, u, y)).message.Test? { HandleTestViews(n, s, y, u); } else { HandleOtherViews(n, s, y, u); }
    if u != t { SlotsPrivate(n, u, y, t, CallerOf(s, t).dest); }
  }

  lemma StepOwned(n: nat, s: State, t: Tid, l: Loc, step: Step)
    requires Inv(n, s) && Enabled(n, s, step)
    requires UnderWay(n, s, t) && OfCall(n, s, t, l)
    ensures Mem(Apply(n, s, step), l) == Mem(s, l) || Owns(n, s, t, l, step)
  {
    hide RecvSlot, SendSlot, Imm, ImmNode, ImmOffset, UnlockMark, Owns, OfCall;
    match step {
      case Prepare(_, _, _, _) => PrepareForeign(n, s, t, l, step);
      case Execute(p) =>
        var w := Wire(s, p)[0];
        if w.imm.Some? { ExecuteRequestViews(n, s, p, w); } else { ExecuteReplyViews(n, s, p, w); }
        ExecuteOwned(n, s, t, l, p);
      case Handle(y) => HandleOwned(n, s, t, l, y);
      case _ => Views(s, Apply(n, s, step));
    }
  }

  /** In every run, whatever the other threads and servers do: while `t` has a call under way, its three slots (the
      request at the sender, the slot at the responder, the slot where the reply lands) change only by the one step
      that the phase of the call names: the request arriving, the responder answering in place, the reply landing. */
  lemma {:induction false} SlotsOwned(n: nat, steps: seq<Step>, t: Tid, l: Loc, step: Step)
    requires Run(n, Start, steps) && Enabled(n, Exec(n, Start, steps), step)
    requires IsTid(n, t) && !CallerOf(Exec(n, Start, steps), t).Idle?
    ensures var s := Exec(n, Start, steps);
      && IsNode(n, CallerOf(s, t).dest)
      && (OfCall(n, s, t, l) && Mem(Apply(n, s, step), l) != Mem(s, l) ==> Owns(n, s, t, l, step))
  {
    RunInv(n, steps);
    var s := Exec(n, Start, steps);
    assert TidOk(n, s, t);
    hide TidOk, Inv, OfCall, Owns, Apply, Enabled;
    if OfCall(n, s, t, l) { StepOwned(n, s, t, l, step); }
  }
}
