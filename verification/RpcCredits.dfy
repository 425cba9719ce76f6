/** Receive credits between servers: every posted receive is available, or consumed by a request that is being
    served, or lost to a request that the responder dropped without posting a new one. */
module RpcCredits {
  import opened Addressing
  import opened RpcServer
  import opened RpcServerSafety
  import opened RpcTests

  function CountFrom(cq: seq<nat>, from: nat): nat {
    if cq == [] then 0 else CountFrom(cq[..|cq| - 1], from) + if ImmNode(cq[|cq| - 1]) == from then 1 else 0
  }

  /** The responder of `p.to` has taken a request of `p.from` and not yet posted a receive for it. */
  function InService(s: State, p: Pair): nat {
    match ResponderOf(s, p.to)
    case Polling => 0
    case Got(imm) => if ImmNode(imm) == p.from then 1 else 0
    case Overwritten(a, _) => if a == p.from then 1 else 0
    case Sent(a, _) => if a == p.from then 1 else 0
  }

  function Total(s: State, p: Pair): int {
    Credits(s, p) + CountFrom(Cq(s, p.to), p.from) + InService(s, p) + Lost(s, p)
  }

  // ---------------------------------------------------------------- conservation

  lemma CountTail(cq: seq<nat>, from: nat)
    requires cq != []
    ensures CountFrom(cq, from) == CountFrom(cq[1..], from) + if ImmNode(cq[0]) == from then 1 else 0
  {
    if |cq| > 1 {
      var k := |cq| - 1;
      CountTail(cq[..k], from);
      assert cq[1..][..k - 1] == cq[..k][1..];
    }
  }

  lemma CountAppend(cq: seq<nat>, imm: nat, from: nat)
    ensures CountFrom(cq + [imm], from) == CountFrom(cq, from) + if ImmNode(imm) == from then 1 else 0
  {
    assert (cq + [imm])[..|cq|] == cq;
  }

  ghost predicate SameTotals(s: State, s': State) { forall p {:trigger Total(s', p)} :: Total(s', p) == Total(s, p) }

  ghost predicate SameCredits(s: State, s': State) { forall q {:trigger Credits(s', q)} ::
      Credits(s', q) == Credits(s, q) }
  ghost predicate SameLost(s: State, s': State) { forall q {:trigger Lost(s', q)} :: Lost(s', q) == Lost(s, q) }

  lemma CreditViews(s: State, s': State)
    ensures s'.credits == s.credits ==> SameCredits(s, s')
    ensures s'.lost == s.lost ==> SameLost(s, s')
  {
  }

  lemma CreditSet(s: State, s': State, p: Pair, v: int)
    requires s'.credits == s.credits[p := v]
    ensures forall q {:trigger Credits(s', q)} :: Credits(s', q) == if q == p then v else Credits(s, q)
  {
  }

  lemma LostSet(s: State, s': State, p: Pair, v: nat)
    requires s'.lost == s.lost[p := v]
    ensures forall q {:trigger Lost(s', q)} :: Lost(s', q) == if q == p then v else Lost(s, q)
  {
  }

  lemma ExecuteTotals(n: nat, s: State, p: Pair, w: Wr)
    requires Enabled(n, s, Execute(p)) && EntryOk(n, s, p, w) && w == Wire(s, p)[0]
    ensures SameTotals(s, Apply(n, s, Execute(p)))
  {
    hide RecvSlot, SendSlot, Imm, ImmNode, ImmOffset, Total;
    if w.imm.Some? {
      var imm := w.imm.value;
      TidImm(n, w.of);
      assert ImmNode(imm) == p.from;
      var s' := s.(wires := s.wires[p := Wire(s, p)[1..]], mem := s.mem[Loc(p.to, w.dst) := Mem(s, Loc(p.from, w.src))],
                   phase := s.phase[w.of := Arrived],
                   credits := s.credits[p := Credits(s, p) - 1], cqs := s.cqs[p.to := Cq(s, p.to) + [imm]]);
      assert s' == Apply(n, s, Execute(p));
      ArrivalTotals(s, s', p, imm);
    } else {
      var s' := s.(wires := s.wires[p := Wire(s, p)[1..]], mem := s.mem[Loc(p.to, w.dst) := Mem(s, Loc(p.from, w.src))],
                   phase := s.phase[w.of := Back]);
      assert s' == Apply(n, s, Execute(p));
      OtherTotals(s, s');
    }
  }

  /** A request that arrives takes a receive and adds a completion. */
  lemma ArrivalTotals(s: State, s': State, p: Pair, imm: nat)
    requires ImmNode(imm) == p.from && s'.lost == s.lost && s'.responders == s.responders
    requires s'.credits == s.credits[p := Credits(s, p) - 1] && s'.cqs == s.cqs[p.to := Cq(s, p.to) + [imm]]
    ensures SameTotals(s, s')
  {
    hide CountFrom, ImmNode;
    Views(s, s');
    CreditViews(s, s');
    CreditSet(s, s', p, Credits(s, p) - 1);
    CqUpdated(s, s', p.to);
    forall q ensures Total(s', q) == Total(s, q) {
      CountAppend(Cq(s, p.to), imm, q.from);
    }
  }

  lemma OtherTotals(s: State, s': State)
    requires s'.credits == s.credits && s'.lost == s.lost && s'.responders == s.responders && s'.cqs == s.cqs
    ensures SameTotals(s, s')
  {
    hide CountFrom, ImmNode;
    Views(s, s');
    CreditViews(s, s');
  }

  lemma PollTotals(n: nat, s: State, y: nat)
    requires Enabled(n, s, Poll(y))
    ensures SameTotals(s, Apply(n, s, Poll(y)))
  {
    hide CountFrom, Imm, ImmNode, ImmOffset;
    var s' := Apply(n, s, Poll(y));
    Views(s, s');
    CreditViews(s, s');
    CqUpdated(s, s', y);
    ResponderUpdated(s, s', y);
    forall q ensures Total(s', q) == Total(s, q) {
      CountTail(Cq(s, y), q.from);
    }
  }

  /** A request in service is answered, or dropped and lost; or its receive is posted again. */
  lemma ServiceTotals(s: State, s': State, y: nat, t: Tid)
    requires s'.cqs == s.cqs && s'.responders == s.responders[y := ResponderOf(s', y)]
    requires var p := Pair(t.node, y);
      || (ResponderOf(s, y).Got? && ImmNode(ResponderOf(s, y).imm) == t.node && s'.credits == s.credits
          && ((ResponderOf(s', y) == Overwritten(t.node, t.off) && s'.lost == s.lost)
           || (ResponderOf(s', y).Polling? && s'.lost == s.lost[p := Lost(s, p) + 1])))
      || (ResponderOf(s, y) == Overwritten(t.node, t.off) && ResponderOf(s', y) == Sent(t.node, t.off)
          && s'.credits == s.credits && s'.lost == s.lost)
      || (ResponderOf(s, y) == Sent(t.node, t.off) && ResponderOf(s', y).Polling?
          && s'.credits == s.credits[p := Credits(s, p) + 1] && s'.lost == s.lost)
    ensures SameTotals(s, s')
  {
    hide CountFrom, ImmNode;
    var p := Pair(t.node, y);
    Views(s, s');
    CreditViews(s, s');
    ResponderUpdated(s, s', y);
    if s'.credits == s.credits[p := Credits(s, p) + 1] { CreditSet(s, s', p, Credits(s, p) + 1); }
    if s'.lost == s.lost[p := Lost(s, p) + 1] { LostSet(s, s', p, Lost(s, p) + 1); }
  }

  lemma HandleTestTotals(n: nat, s: State, y: nat, t: Tid, slot: Loc)
    requires Enabled(n, s, Handle(y)) && UnlockMark(ResponderOf(s, y).imm) != 0xFFF && IsTid(n, t)
    requires t == TidOf(ResponderOf(s, y).imm) && slot == Loc(y, RecvSlot(n, t.node, t.off))
        && Mem(s, slot).message.Test?
    ensures SameTotals(s, Apply(n, s, Handle(y)))
  {
    hide RecvSlot, SendSlot, Imm, ImmNode, ImmOffset, UnlockMark, SameTotals;
    var s' := s.(mem := s.mem[slot := ReplyTo(Mem(s, slot))], responders := s.responders[y := Overwritten(t.node,
        t.off)],
                 phase := s.phase[t := Replying], answered := s.answered[t := Answered(s, t) + 1]);
    assert s' == Apply(n, s, Handle(y));
    ServiceTotals(s, s', y, t);
  }

  lemma HandleOtherTotals(n: nat, s: State, y: nat, t: Tid, slot: Loc)
    requires Enabled(n, s, Handle(y)) && UnlockMark(ResponderOf(s, y).imm) != 0xFFF && IsTid(n, t)
    requires t == TidOf(ResponderOf(s, y).imm) && slot == Loc(y, RecvSlot(n, t.node, t.off))
        && !Mem(s, slot).message.Test?
    ensures SameTotals(s, Apply(n, s, Handle(y)))
  {
    hide RecvSlot, SendSlot, Imm, ImmNode, ImmOffset, UnlockMark, SameTotals;
    var p := Pair(t.node, y);
    var s' := s.(responders := s.responders[y := Polling], phase := s.phase[t := Silent], lost := s.lost[p := Lost(s,
        p) + 1]);
    assert s' == Apply(n, s, Handle(y));
    ServiceTotals(s, s', y, t);
  }

  lemma HandleTotals(n: nat, s: State, y: nat)
    requires ResponderOk(n, s, y) && Enabled(n, s, Handle(y))
    ensures SameTotals(s, Apply(n, s, Handle(y)))
  {
    hide RecvSlot, SendSlot, Imm, ImmNode, ImmOffset, UnlockMark, SameTotals, Apply;
    var t := TidOf(ResponderOf(s, y).imm);
    var slot := Loc(y, RecvSlot(n, t.node, t.off));
    if Mem(s, slot).message.Test? { HandleTestTotals(n, s, y, t, slot); } else { HandleOtherTotals(n, s, y, t, slot); }
  }

  lemma StepTotals(n: nat, s: State, step: Step)
    requires Inv(n, s) && Enabled(n, s, step)
    ensures SameTotals(s, Apply(n, s, step))
  {
    hide RecvSlot, SendSlot, Imm, ImmNode, ImmOffset, SameTotals, EntryOk;
    var s' := Apply(n, s, step);
    match step {
      case Execute(p) =>
        assert WireOk(n, s, p);
        assert EntryOk(n, s, p, Wire(s, p)[0]);
        ExecuteTotals(n, s, p, Wire(s, p)[0]);
      case Poll(y) => PollTotals(n, s, y);
      case Handle(y) => HandleTotals(n, s, y);
      case Reply(y) => ServiceTotals(s, s', y, Tid(ResponderOf(s, y).node, ResponderOf(s, y).off));
      case Repost(y) => ServiceTotals(s, s', y, Tid(ResponderOf(s, y).node, ResponderOf(s, y).off));
      case _ => OtherTotals(s, s');
    }
  }

  /** In every reachable state and for every pair of servers: receives still posted, requests that wait in the
      completion queue or are being served, and requests dropped without a new receive, make up 128. */
  lemma {:induction false} CreditsConserved(n: nat, steps: seq<Step>, p: Pair)
    requires Run(n, Start, steps)
    ensures var s := Exec(n, Start, steps);
      Credits(s, p) + CountFrom(Cq(s, p.to), p.from) + InService(s, p) + Lost(s, p) == 128
    decreases |steps|
  {
    if steps != [] {
      var k := |steps| - 1;
      CreditsConserved(n, steps[..k], p);
      RunInv(n, steps[..k]);
      StepTotals(n, Exec(n, Start, steps[..k]), steps[k]);
      assert Total(Exec(n, Start, steps), p) == Total(Exec(n, Start, steps[..k]), p);
    }
  }

  // ---------------------------------------------------------------- a request never finds the queue empty

  /** The offsets at which `p.from` has a call to `p.to` in one of the given phases. */
  ghost function Offsets(s: State, p: Pair, phases: set<Phase>): set<nat> {
    set o: nat | o < SERVER_MESSAGE_NUM && PhaseOf(s, Tid(p.from, o)) in phases
                 && !CallerOf(s, Tid(p.from, o)).Idle? && CallerOf(s, Tid(p.from, o)).dest == p.to
  }

  ghost predicate LostAreSilent(s: State) {
    forall p {:trigger Lost(s, p)} :: Lost(s, p) == |Offsets(s, p, {Silent})|
  }

  lemma SilentKept(s: State, s': State, t: Tid)
    requires LostAreSilent(s) && OnlyTid(s, s', t) && s'.lost == s.lost
    requires (PhaseOf(s', t) == PhaseOf(s, t) && CallerOf(s', t) == CallerOf(s, t))
          || (!PhaseOf(s, t).Silent? && !PhaseOf(s', t).Silent?)
    ensures LostAreSilent(s')
  {
    forall p ensures Lost(s', p) == |Offsets(s', p, {Silent})| {
      assert Lost(s, p) == Lost(s', p);
      assert Offsets(s', p, {Silent}) == Offsets(s, p, {Silent});
    }
  }

  lemma DropOffsets(s: State, s': State, t: Tid, y: nat, p: Pair)
    requires OnlyTid(s, s', t) && t.off < SERVER_MESSAGE_NUM && CallerOf(s', t) == CallerOf(s, t)
    requires !PhaseOf(s, t).Silent? && PhaseOf(s', t).Silent? && !CallerOf(s, t).Idle? && CallerOf(s, t).dest == y
    ensures p != Pair(t.node, y) ==> Offsets(s', p, {Silent}) == Offsets(s, p, {Silent})
    ensures p == Pair(t.node, y) ==> Offsets(s', p, {Silent}) == Offsets(s, p, {Silent}) + {t.off}
    ensures p == Pair(t.node, y) ==> t.off !in Offsets(s, p, {Silent})
  {
  }

  /** A request that is dropped moves its offset into the set of silent ones. */
  lemma DropSilent(s: State, s': State, t: Tid, y: nat)
    requires LostAreSilent(s) && OnlyTid(s, s', t) && t.off < SERVER_MESSAGE_NUM && CallerOf(s', t) == CallerOf(s, t)
    requires !PhaseOf(s, t).Silent? && PhaseOf(s', t).Silent? && !CallerOf(s, t).Idle? && CallerOf(s, t).dest == y
    requires s'.lost == s.lost[Pair(t.node, y) := Lost(s, Pair(t.node, y)) + 1]
    ensures LostAreSilent(s')
  {
    hide Offsets, OnlyTid;
    LostSet(s, s', Pair(t.node, y), Lost(s, Pair(t.node, y)) + 1);
    forall p ensures Lost(s', p) == |Offsets(s', p, {Silent})| {
      assert Lost(s, p) == |Offsets(s, p, {Silent})|;
      DropOffsets(s, s', t, y, p);
    }
  }

  lemma HandleSilent(n: nat, s: State, y: nat)
    requires ResponderOk(n, s, y) && LostAreSilent(s) && Enabled(n, s, Handle(y)) && IsNode(n, y)
    ensures LostAreSilent(Apply(n, s, Handle(y)))
  {
    hide RecvSlot, SendSlot, Imm, ImmNode, ImmOffset, UnlockMark, LostAreSilent, Apply;
    var s', t := Apply(n, s, Handle(y)), TidOf(ResponderOf(s, y).imm);
    if Mem(s, SlotLoc(n, t, y)).message.Test? {
      HandleTestViews(n, s, y, t);
      SilentKept(s, s', t);
    } else {
      HandleOtherViews(n, s, y, t);
      DropSilent(s, s', t, y);
    }
  }

  lemma PrepareSilent(n: nat, s: State, step: Step)
    requires LostAreSilent(s) && Enabled(n, s, step) && step.Prepare? && TidOk(n, s, step.t)
    ensures LostAreSilent(Apply(n, s, step))
  {
    hide RecvSlot, SendSlot, LostAreSilent;
    TidUpdated(s, Apply(n, s, step), step.t);
    SilentKept(s, Apply(n, s, step), step.t);
  }

  lemma StepSilent(n: nat, s: State, step: Step)
    requires Inv(n, s) && LostAreSilent(s) && Enabled(n, s, step)
    ensures LostAreSilent(Apply(n, s, step))
  {
    hide RecvSlot, SendSlot, Imm, ImmNode, ImmOffset, UnlockMark, LostAreSilent, TidOk, Apply;
    match step {
      case Prepare(t, _, _, _) => assert TidOk(n, s, t); PrepareSilent(n, s, step);
      case Handle(y) =>
        assert ResponderOk(n, s, y);
        assert TidOk(n, s, TidOf(ResponderOf(s, y).imm));
        ServingNode(n, s, y);
        HandleSilent(n, s, y);
      case _ =>
        var t := StepMoves(n, s, step);
        SilentKept(s, Apply(n, s, step), t);
    }
  }

  /** The requests that wait in a completion queue have distinct offsets. */
  lemma {:induction false} WaitingOffsets(n: nat, s: State, p: Pair, k: nat) returns (os: set<nat>)
    requires CqOk(n, s, p.to) && k <= |Cq(s, p.to)|
    ensures os <= Offsets(s, p, {Arrived}) && |os| == CountFrom(Cq(s, p.to)[..k], p.from)
    ensures forall o :: o in os ==> exists j :: 0 <= j < k && TidOf(Cq(s, p.to)[j]) == Tid(p.from, o)
  {
    hide RecvSlot, SendSlot, Imm, ImmNode, ImmOffset, UnlockMark;
    os := {};
    if k > 0 {
      var cq := Cq(s, p.to);
      os := WaitingOffsets(n, s, p, k - 1);
      assert cq[..k][..k - 1] == cq[..k - 1];
      assert ImmAt(n, s, p.to, cq[k - 1], Arrived);
      if ImmNode(cq[k - 1]) == p.from {
        var o := ImmOffset(cq[k - 1]);
        assert TidOf(cq[k - 1]) == Tid(p.from, o);
        forall j | 0 <= j < k - 1 ensures TidOf(cq[j]) != Tid(p.from, o) {
          assert ImmAt(n, s, p.to, cq[j], Arrived);
        }
        assert o !in os;
        os := os + {o};
      }
    }
  }

  lemma CardAtMost(s: set<nat>, k: nat)
    requires forall o :: o in s ==> o < k
    ensures |s| <= k
  {
    if k > 0 {
      CardAtMost(s - {k - 1}, k - 1);
    } else {
      assert s == {};
    }
  }

  /** At most eight requests of one server to another are waiting, being served or dropped. */
  lemma Occupied(n: nat, s: State, p: Pair)
    requires Inv(n, s) && LostAreSilent(s)
    ensures CountFrom(Cq(s, p.to), p.from) + Lost(s, p) <= SERVER_MESSAGE_NUM
  {
    hide CountFrom;
    assert CqOk(n, s, p.to);
    var cq := Cq(s, p.to);
    assert cq[..|cq|] == cq;
    var os := WaitingOffsets(n, s, p, |cq|);
    var silent := Offsets(s, p, {Silent});
    assert os * silent == {} by { assert Offsets(s, p, {Arrived}) * silent == {}; }
    CardAtMost(os + silent, SERVER_MESSAGE_NUM);
    assert Lost(s, p) == |silent|;
  }

  lemma {:induction false} RunSilent(n: nat, steps: seq<Step>)
    requires Run(n, Start, steps)
    ensures LostAreSilent(Exec(n, Start, steps))
    decreases |steps|
  {
    if steps == [] {
      forall p ensures Lost(Start, p) == |Offsets(Start, p, {Silent})| { assert Offsets(Start, p, {Silent}) == {}; }
    } else {
      var k := |steps| - 1;
      RunSilent(n, steps[..k]);
      RunInv(n, steps[..k]);
      StepSilent(n, Exec(n, Start, steps[..k]), steps[k]);
    }
  }

  /** With at most one outstanding call per worker the receive queue never runs empty, whatever messages are
      sent: at least 119 of the 128 receives stay posted, so the head of every wire can execute. A reply
      consumes none. */
  lemma {:induction false} ReceiveAlwaysPosted(n: nat, steps: seq<Step>, p: Pair)
    requires Run(n, Start, steps)
    ensures var s := Exec(n, Start, steps);
      && Credits(s, p) >= 119
      && (Wire(s, p) != [] ==> Enabled(n, s, Execute(p)))
      && (Wire(s, p) != [] && Wire(s, p)[0].imm.None? ==>
            forall q :: Credits(Apply(n, s, Execute(p)), q) == Credits(s, q))
  {
    CreditsConserved(n, steps, p);
    RunInv(n, steps);
    RunSilent(n, steps);
    Occupied(n, Exec(n, Start, steps), p);
  }
}
