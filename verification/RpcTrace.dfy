/** What the calls between servers carry, where and in which order, read from the steps of a run alone: the sizes of the
    source are written out and no history field is used. */
module RpcTrace {
  import opened Addressing
  import opened Messages
  import opened RpcServer
  import opened RpcServerSafety

  // ---------------------------------------------------------------- addresses and task ids

  function SendAt(dest: nat, off: nat): int { 24576 + (dest - 1) * 8192 + off * 1024 }
  function RecvAt(n: nat, node: nat, off: nat): int { 24576 + n * 8192 + (node - 1) * 8192 + off * 1024 }

  lemma SlotsAt(n: nat, t: Tid, dest: nat)
    requires IsTid(n, t) && dest >= 1
    ensures SendSlot(n, dest, t.off) == SendAt(dest, t.off) && RecvSlot(n, t.node, t.off) == RecvAt(n, t.node, t.off)
  {
  }

  /** Calls that node `a` has begun. */
  function CallsOf(steps: seq<Step>, a: nat): nat {
    if steps == [] then 0
    else
      var k := |steps| - 1;
      CallsOf(steps[..k], a) + if steps[k].Prepare? && steps[k].t.node == a then 1 else 0
  }

  /** The task id of the next call of the node: ids start at 1 and wrap around at 32 bits. */
  function NextId(steps: seq<Step>, a: nat): nat { (1 + CallsOf(steps, a)) % 4294967296 }

  /** The message of the call that step `k` begins: what the caller gave, under its task id. */
  function Carried(steps: seq<Step>, k: nat): Msg
    requires k < |steps| && steps[k].Prepare?
  {
    Msg(steps[k].msg, NextId(steps[..k], steps[k].t.node), steps[k].path)
  }

  lemma {:induction false} Counter(n: nat, steps: seq<Step>, a: nat)
    requires Run(n, Start, steps)
    ensures var s := Exec(n, Start, steps); (if a in s.taskIDs then s.taskIDs[a] else 1) == NextId(steps, a)
    decreases |steps|
  {
    hide Apply, Enabled;
    if steps != [] {
      var k := |steps| - 1;
      Counter(n, steps[..k], a);
      KeepsIds(n, Exec(n, Start, steps[..k]), steps[k]);
    }
  }

  // The two steps with more than one outcome leave these parts of the state alone.

  lemma ExecuteRequest(n: nat, s: State, p: Pair, w: Wr)
    requires Enabled(n, s, Execute(p)) && w == Wire(s, p)[0] && w.imm.Some?
    ensures var s' := Apply(n, s, Execute(p));
      && SameCalls(s, s') && s'.lost == s.lost && s'.phase == s.phase[w.of := Arrived]
      && s'.wires == s.wires[p := Wire(s, p)[1..]] && s'.cqs == s.cqs[p.to := Cq(s, p.to) + [w.imm.value]]
  {
    var s' := s.(wires := s.wires[p := Wire(s, p)[1..]], mem := s.mem[Loc(p.to, w.dst) := Mem(s, Loc(p.from, w.src))],
                 phase := s.phase[w.of := Arrived],
                 credits := s.credits[p := Credits(s, p) - 1], cqs := s.cqs[p.to := Cq(s, p.to) + [w.imm.value]]);
    assert s' == Apply(n, s, Execute(p));
  }

  lemma ExecuteReply(n: nat, s: State, p: Pair, w: Wr)
    requires Enabled(n, s, Execute(p)) && w == Wire(s, p)[0] && w.imm.None?
    ensures var s' := Apply(n, s, Execute(p));
      && SameCalls(s, s') && s'.lost == s.lost && s'.phase == s.phase[w.of := Back]
      && s'.wires == s.wires[p := Wire(s, p)[1..]] && s'.cqs == s.cqs
  {
    var s' := s.(wires := s.wires[p := Wire(s, p)[1..]], mem := s.mem[Loc(p.to, w.dst) := Mem(s, Loc(p.from, w.src))],
                 phase := s.phase[w.of := Back]);
    assert s' == Apply(n, s, Execute(p));
  }

  lemma ExecuteForm(n: nat, s: State, p: Pair)
    requires Enabled(n, s, Execute(p))
    ensures var s', w := Apply(n, s, Execute(p)), Wire(s, p)[0];
      && SameCalls(s, s') && s'.lost == s.lost && s'.phase == s.phase[w.of := if w.imm.Some? then Arrived else Back]
      && s'.wires == s.wires[p := Wire(s, p)[1..]]
      && s'.cqs == if w.imm.Some? then s.cqs[p.to := Cq(s, p.to) + [w.imm.value]] else s.cqs
  {
    hide Apply;
    var w := Wire(s, p)[0];
    if w.imm.Some? { ExecuteRequest(n, s, p, w); } else { ExecuteReply(n, s, p, w); }
  }

  lemma HandleTest(n: nat, s: State, y: nat, t: Tid)
    requires t.node >= 1 && Enabled(n, s, Handle(y)) && UnlockMark(ResponderOf(s, y).imm) != 0xFFF
    requires t == Tid(ImmNode(ResponderOf(s, y).imm), ImmOffset(ResponderOf(s, y).imm))
    requires Mem(s, Loc(y, RecvSlot(n, t.node, t.off))).message.Test?
    ensures var s' := Apply(n, s, Handle(y));
      && SameCalls(s, s') && s'.lost == s.lost && s'.phase == s.phase[t := Replying]
      && s'.wires == s.wires && s'.cqs == s.cqs
  {
    hide RecvSlot, ImmNode, ImmOffset, UnlockMark;
    var slot := Loc(y, RecvSlot(n, t.node, t.off));
    var s' := s.(mem := s.mem[slot := ReplyTo(Mem(s, slot))],
                 responders := s.responders[y := Overwritten(t.node, t.off)],
                 phase := s.phase[t := Replying], answered := s.answered[t := Answered(s, t) + 1]);
    assert s' == Apply(n, s, Handle(y));
  }

  lemma HandleOther(n: nat, s: State, y: nat, t: Tid)
    requires t.node >= 1 && Enabled(n, s, Handle(y)) && UnlockMark(ResponderOf(s, y).imm) != 0xFFF
    requires t == Tid(ImmNode(ResponderOf(s, y).imm), ImmOffset(ResponderOf(s, y).imm))
    requires !Mem(s, Loc(y, RecvSlot(n, t.node, t.off))).message.Test?
    ensures var s' := Apply(n, s, Handle(y));
      && SameCalls(s, s') && s'.phase == s.phase[t := Silent] && s'.wires == s.wires && s'.cqs == s.cqs
      && s'.lost == s.lost[Pair(t.node, y) := Lost(s, Pair(t.node, y)) + 1]
  {
    hide RecvSlot, ImmNode, ImmOffset, UnlockMark;
    var s' := s.(responders := s.responders[y := Polling], phase := s.phase[t := Silent],
                 lost := s.lost[Pair(t.node, y) := Lost(s, Pair(t.node, y)) + 1]);
    assert s' == Apply(n, s, Handle(y));
  }

  lemma HandleForm(n: nat, s: State, y: nat, t: Tid)
    requires Enabled(n, s, Handle(y)) && UnlockMark(ResponderOf(s, y).imm) != 0xFFF
        && t == Tid(ImmNode(ResponderOf(s, y).imm), ImmOffset(ResponderOf(s, y).imm))
    ensures var s' := Apply(n, s, Handle(y));
      && t.node >= 1 && SameCalls(s, s') && s'.wires == s.wires && s'.cqs == s.cqs
      && if Mem(s, Loc(y, RecvSlot(n, t.node, t.off))).message.Test? then
           s'.lost == s.lost && s'.phase == s.phase[t := Replying]
         else
           s'.lost == s.lost[Pair(t.node, y) := Lost(s, Pair(t.node, y)) + 1] && s'.phase == s.phase[t := Silent]
  {
    hide Apply, RecvSlot, ImmNode, ImmOffset, UnlockMark;
    if Mem(s, Loc(y, RecvSlot(n, t.node, t.off))).message.Test? {
      HandleTest(n, s, y, t);
    } else {
      HandleOther(n, s, y, t);
    }
  }

  lemma UnlockForm(n: nat, s: State, y: nat)
    requires Enabled(n, s, Handle(y)) && UnlockMark(ResponderOf(s, y).imm) == 0xFFF
    ensures Apply(n, s, Handle(y)) == s.(responders := s.responders[y := Polling])
  {
  }

  /** What they have in common. */
  ghost predicate SameCalls(s: State, s': State) {
    s'.taskIDs == s.taskIDs && s'.callers == s.callers && s'.sent == s.sent
  }

  lemma NicCalls(n: nat, s: State, step: Step)
    requires Enabled(n, s, step) && (step.Execute? || step.Handle?)
    ensures SameCalls(s, Apply(n, s, step))
  {
    hide Apply, Enabled;
    if step.Execute? {
      ExecuteForm(n, s, step.p);
    } else {
      GotOne(n, s, step.y);
      var imm := ResponderOf(s, step.y).imm;
      if UnlockMark(imm) == 0xFFF {
        UnlockForm(n, s, step.y);
      } else {
        HandleForm(n, s, step.y, Tid(ImmNode(imm), ImmOffset(imm)));
      }
    }
  }

  lemma GotOne(n: nat, s: State, y: nat)
    requires Enabled(n, s, Handle(y))
    ensures ResponderOf(s, y).Got?
  {
  }

  lemma KeepsIds(n: nat, s: State, step: Step)
    requires Enabled(n, s, step)
    ensures var ids := Apply(n, s, step).taskIDs;
      if step.Prepare? then
        var a := step.t.node;
        ids == s.taskIDs[a := ((if a in s.taskIDs then s.taskIDs[a] else 1) + 1) % 4294967296]
      else ids == s.taskIDs
  {
    hide RecvSlot, SendSlot, Imm, ImmNode, ImmOffset, UnlockMark;
    if step.Execute? || step.Handle? { NicCalls(n, s, step); }
  }

  lemma {:induction false} CallsGrow(steps: seq<Step>, j: nat, a: nat)
    requires j <= |steps|
    ensures CallsOf(steps[..j], a) <= CallsOf(steps, a)
    decreases |steps|
  {
    if j == |steps| {
      assert steps[..j] == steps;
    } else {
      assert steps[..|steps| - 1][..j] == steps[..j];
      CallsGrow(steps[..|steps| - 1], j, a);
    }
  }

  /** Two of fewer than 2^32 calls of a node never have the same task id. */
  lemma {:induction false} IdsDiffer(steps: seq<Step>, j: nat, k: nat)
    requires j < k < |steps| && steps[j].Prepare? && steps[k].Prepare? && steps[j].t.node == steps[k].t.node
    requires CallsOf(steps, steps[k].t.node) < 4294967296
    ensures Carried(steps, j).taskID != Carried(steps, k).taskID
  {
    hide NextId;
    var a := steps[k].t.node;
    assert steps[..j + 1][..j] == steps[..j] && steps[..k][..j + 1] == steps[..j + 1];
    assert steps[..k + 1][..k] == steps[..k];
    CallsGrow(steps[..k], j + 1, a);
    CallsGrow(steps, k + 1, a);
    NextIds(steps[..j], steps[..k], a);
  }

  lemma NextIds(before: seq<Step>, after: seq<Step>, a: nat)
    requires CallsOf(before, a) < CallsOf(after, a) < 4294967296
    ensures NextId(before, a) != NextId(after, a)
  {
    hide CallsOf;
  }

  // ---------------------------------------------------------------- what is served and returned

  /** Step `k` begins the last call of the thread so far. */
  ghost predicate IsLast(steps: seq<Step>, t: Tid, k: nat) {
    && k < |steps| && steps[k].Prepare? && steps[k].t == t
    && forall j :: k < j < |steps| ==> !(steps[j].Prepare? && steps[j].t == t)
  }

  /** What the state knows of the last call of the thread. */
  ghost predicate Remembers(s: State, t: Tid, step: Step, m: Msg)
    requires step.Prepare?
  {
    && SentBy(s, t) == m
    && (CallerOf(s, t).Idle? || (CallerOf(s, t).dest == step.dest && CallerOf(s, t).id == m.taskID))
  }

  lemma BeginsCall(n: nat, s: State, step: Step, id: nat)
    requires Enabled(n, s, step) && step.Prepare?
    requires id == if step.t.node in s.taskIDs then s.taskIDs[step.t.node] else 1
    ensures Remembers(Apply(n, s, step), step.t, step, Msg(step.msg, id, step.path))
    ensures step.dest >= 1 && IsTid(n, step.t)
    ensures Mem(Apply(n, s, step), Loc(step.t.node, SendSlot(n, step.dest, step.t.off)))
            == Msg(step.msg, id, step.path)
  {
  }

  lemma KeepsCall(n: nat, s: State, step: Step, t: Tid, begin: Step, m: Msg)
    requires Enabled(n, s, step) && begin.Prepare? && Remembers(s, t, begin, m) && !(step.Prepare? && step.t == t)
    ensures Remembers(Apply(n, s, step), t, begin, m)
  {
    hide RecvSlot, SendSlot, Imm, ImmNode, ImmOffset, UnlockMark;
    if step.Execute? || step.Handle? { NicCalls(n, s, step); }
  }

  lemma StaysIdle(n: nat, s: State, step: Step, t: Tid)
    requires Enabled(n, s, step) && CallerOf(s, t).Idle? && !(step.Prepare? && step.t == t)
    ensures CallerOf(Apply(n, s, step), t).Idle?
  {
    hide RecvSlot, SendSlot, Imm, ImmNode, ImmOffset, UnlockMark;
    if step.Execute? || step.Handle? { NicCalls(n, s, step); }
  }

  lemma {:induction false} LastCall(n: nat, steps: seq<Step>, t: Tid, k: nat)
    requires Run(n, Start, steps) && IsLast(steps, t, k)
    ensures Remembers(Exec(n, Start, steps), t, steps[k], Carried(steps, k))
    decreases |steps|
  {
    var j := |steps| - 1;
    if k == j {
      Counter(n, steps[..j], t.node);
      BeginsCall(n, Exec(n, Start, steps[..j]), steps[j], NextId(steps[..j], t.node));
    } else {
      assert steps[..j][..k] == steps[..k];
      assert IsLast(steps[..j], t, k);
      LastCall(n, steps[..j], t, k);
      KeepsCall(n, Exec(n, Start, steps[..j]), steps[j], t, steps[k], Carried(steps, k));
    }
  }

  /** A thread that is in a call has begun one. */
  lemma {:induction false} HasBegun(n: nat, steps: seq<Step>, t: Tid) returns (k: nat)
    requires Run(n, Start, steps) && !CallerOf(Exec(n, Start, steps), t).Idle?
    ensures IsLast(steps, t, k)
    decreases |steps|
  {
    hide Apply, Enabled;
    var j := |steps| - 1;
    if steps[j].Prepare? && steps[j].t == t {
      k := j;
    } else {
      if CallerOf(Exec(n, Start, steps[..j]), t).Idle? {
        StaysIdle(n, Exec(n, Start, steps[..j]), steps[j], t);
      }
      k := HasBegun(n, steps[..j], t);
    }
  }

  /** Right after a call has begun, the send slot of its thread for that server holds the message: kind, task id and
      path. */
  lemma {:induction false} PreparedAsGiven(n: nat, steps: seq<Step>, k: nat)
    requires Run(n, Start, steps) && |steps| == k + 1 && steps[k].Prepare?
    ensures SendAt(steps[k].dest, steps[k].t.off) >= 0
    ensures Mem(Exec(n, Start, steps), Loc(steps[k].t.node, SendAt(steps[k].dest, steps[k].t.off)))
            == Carried(steps, k)
  {
    var step := steps[k];
    Counter(n, steps[..k], step.t.node);
    BeginsCall(n, Exec(n, Start, steps[..k]), step, NextId(steps[..k], step.t.node));
    SlotsAt(n, step.t, step.dest);
  }

  /** The step that begins a call writes this slot and the kind of the message in the receive slot of its thread, and
      no other memory. */
  lemma PrepareWrites(n: nat, s: State, step: Step, l: Loc)
    requires Enabled(n, s, step) && step.Prepare? && step.dest <= n
    ensures SendAt(step.dest, step.t.off) >= 0 && RecvAt(n, step.t.node, step.t.off) >= 0
    ensures var s', t := Apply(n, s, step), step.t;
      if l == Loc(t.node, RecvAt(n, t.node, t.off)) then Mem(s', l) == Mem(s, l).(message := Invalid)
      else l != Loc(t.node, SendAt(step.dest, t.off)) ==> Mem(s', l) == Mem(s, l)
  {
    hide SendAt, RecvAt, RecvSlot, SendSlot;
    SlotsAt(n, step.t, step.dest);
    SendNotRecv(n, step.dest, step.t.off, step.t.node, step.t.off);
    SlotsPositive(n, step.t, step.dest);
  }

  lemma SlotsPositive(n: nat, t: Tid, dest: nat)
    requires IsTid(n, t) && dest >= 1
    ensures SendAt(dest, t.off) >= 0 && RecvAt(n, t.node, t.off) >= 0
  {
  }

  /** What a responder serves is the message of the last call of the thread that the immediate names, which was to
      this server, whole: the slot is the one of that thread. */
  lemma {:induction false} ServedIsLastCall(n: nat, steps: seq<Step>, y: nat) returns (t: Tid, k: nat)
    requires Run(n, Start, steps) && Enabled(n, Exec(n, Start, steps), Handle(y))
    ensures ResponderOf(Exec(n, Start, steps), y) == Got(t.node + t.off * 65536)
    ensures 1 <= t.node < 65536 && t.off < 8
    ensures IsLast(steps, t, k) && steps[k].dest == y && RecvAt(n, t.node, t.off) >= 0
    ensures Mem(Exec(n, Start, steps), Loc(y, RecvAt(n, t.node, t.off))) == Carried(steps, k)
  {
    hide RecvAt, RecvSlot, Apply, ImmNode, ImmOffset;
    var s := Exec(n, Start, steps);
    RunInv(n, steps);
    t := Served(n, s, y);
    k := HasBegun(n, steps, t);
    LastCall(n, steps, t, k);
    SlotsAt(n, t, y);
  }

  lemma Served(n: nat, s: State, y: nat) returns (t: Tid)
    requires Inv(n, s) && Enabled(n, s, Handle(y))
    ensures IsTid(n, t) && y >= 1 && ResponderOf(s, y) == Got(t.node + t.off * 65536)
    ensures CallerOf(s, t).Waiting? && CallerOf(s, t).dest == y
    ensures Mem(s, Loc(y, RecvSlot(n, t.node, t.off))) == SentBy(s, t)
  {
    hide RecvSlot, SendSlot, Imm, ImmNode, ImmOffset;
    assert ResponderOk(n, s, y);
    t := TidOf(ResponderOf(s, y).imm);
    assert TidOk(n, s, t);
    ImmIs(t);
  }

  /** What a call returns is the answer to itself, and it was to a test message. */
  lemma {:induction false} ReturnsAnswer(n: nat, steps: seq<Step>, t: Tid) returns (k: nat)
    requires Run(n, Start, steps) && Enabled(n, Exec(n, Start, steps), Return(t))
    ensures IsLast(steps, t, k) && RecvAt(n, t.node, t.off) >= 0 && steps[k].msg.Test?
    ensures Mem(Exec(n, Start, steps), Loc(t.node, RecvAt(n, t.node, t.off)))
            == Msg(Response, Carried(steps, k).taskID, "4321")
  {
    var s := Exec(n, Start, steps);
    RunInv(n, steps);
    assert TidOk(n, s, t);
    k := HasBegun(n, steps, t);
    LastCall(n, steps, t, k);
    SlotsAt(n, t, t.node);
    RunAnswered(n, steps, t);
  }

  // ---------------------------------------------------------------- what becomes of a call, by kind of message

  predicate BeingAnswered(ph: Phase) { ph.Replying? || ph.OnWayBack? || ph.Back? }

  /** Only test messages are answered. */
  ghost predicate TestsAnswered(s: State, t: Tid) { BeingAnswered(PhaseOf(s, t)) ==> SentBy(s, t).message.Test? }

  lemma HandleAnswered(n: nat, s: State, y: nat, t: Tid)
    requires Inv(n, s) && Enabled(n, s, Handle(y)) && TestsAnswered(s, t)
    ensures TestsAnswered(Apply(n, s, Handle(y)), t)
  {
    hide RecvSlot, SendSlot, Imm, ImmNode, ImmOffset, UnlockMark, Apply;
    assert ResponderOk(n, s, y);
    var u := TidOf(ResponderOf(s, y).imm);
    assert TidOk(n, s, u);
    HandleForm(n, s, y, u);
  }

  lemma ExecuteAnswered(n: nat, s: State, p: Pair, t: Tid)
    requires WireOk(n, s, p) && Enabled(n, s, Execute(p)) && TestsAnswered(s, t)
    ensures TestsAnswered(Apply(n, s, Execute(p)), t)
  {
    hide RecvSlot, SendSlot, Imm, Apply;
    assert EntryOk(n, s, p, Wire(s, p)[0]);
    ExecuteForm(n, s, p);
  }

  lemma ReplyAnswered(n: nat, s: State, y: nat, t: Tid)
    requires ResponderOk(n, s, y) && Enabled(n, s, Reply(y)) && TestsAnswered(s, t)
    ensures TestsAnswered(Apply(n, s, Reply(y)), t)
  {
    hide RecvSlot, SendSlot, Imm;
  }

  lemma PlaceAnswered(n: nat, s: State, step: Step, t: Tid)
    requires Enabled(n, s, step) && TestsAnswered(s, t) && !step.Handle? && !step.Execute? && !step.Reply?
    ensures TestsAnswered(Apply(n, s, step), t)
  {
    hide RecvSlot, SendSlot, Imm, ImmNode, ImmOffset, UnlockMark;
  }

  lemma {:induction false} RunAnswered(n: nat, steps: seq<Step>, t: Tid)
    requires Run(n, Start, steps)
    ensures TestsAnswered(Exec(n, Start, steps), t)
    decreases |steps|
  {
    if steps != [] {
      var k := |steps| - 1;
      RunInv(n, steps[..k]);
      RunAnswered(n, steps[..k], t);
      var s := Exec(n, Start, steps[..k]);
      match steps[k] {
        case Handle(y) => HandleAnswered(n, s, y, t);
        case Execute(p) => assert WireOk(n, s, p); ExecuteAnswered(n, s, p, t);
        case Reply(y) => assert ResponderOk(n, s, y); ReplyAnswered(n, s, y, t);
        case _ => PlaceAnswered(n, s, steps[k], t);
      }
    }
  }

  /** RdmaCall returns at once for these three kinds, and for no other. */
  predicate AtOnce(m: Message) { m == Disconnect || m == UpdateMeta || m == ExtentReadEnd }

  /** After a call has begun, it is over exactly for these; otherwise its next step posts one request to its server. */
  lemma BegunOrOver(n: nat, s: State, step: Step)
    requires Enabled(n, s, step) && step.Prepare?
    ensures var s' := Apply(n, s, step);
      && (CallerOf(s', step.t).Idle? <==> AtOnce(step.msg))
      && s'.wires == s.wires && s'.cqs == s.cqs && s'.responders == s.responders && s'.credits == s.credits
      && (Enabled(n, s', Post(step.t)) <==> !AtOnce(step.msg))
      && (!AtOnce(step.msg) ==>
            var p, s'' := Pair(step.t.node, step.dest), Apply(n, s', Post(step.t));
            && |Wire(s'', p)| == |Wire(s', p)| + 1 && Wire(s'', p)[..|Wire(s', p)|] == Wire(s', p)
            && Wire(s'', p)[|Wire(s', p)|].imm.Some?
            && (forall q :: q != p ==> Wire(s'', q) == Wire(s', q)) && CallerOf(s'', step.t).Waiting?)
  {
    hide RecvSlot, SendSlot, Imm, ImmNode, ImmOffset, UnlockMark;
  }

  /** Requests from `p.from` that the responder of `p.to` took up and that were no test messages, by the calls that the
      steps of the run began. */
  ghost function Unanswered(n: nat, steps: seq<Step>, p: Pair): nat
    requires Run(n, Start, steps)
    decreases |steps|
  {
    if steps == [] then 0
    else
      var k := |steps| - 1;
      Unanswered(n, steps[..k], p) + if Drops(n, steps[..k], steps[k], p) then 1 else 0
  }

  /** The step takes up the last call of a thread of `p.from` at `p.to`, and it is no test message. */
  ghost predicate Drops(n: nat, steps: seq<Step>, step: Step, p: Pair)
    requires Run(n, Start, steps)
  {
    && step == Handle(p.to) && Enabled(n, Exec(n, Start, steps), step)
    && exists t: Tid, k: nat ::
         && ResponderOf(Exec(n, Start, steps), p.to) == Got(t.node + t.off * 65536)
         && t.node == p.from < 65536 && IsLast(steps, t, k) && !steps[k].msg.Test?
  }

  /** Such a request costs its server one receive for good. */
  lemma {:induction false} UnansweredLost(n: nat, steps: seq<Step>, p: Pair)
    requires Run(n, Start, steps)
    ensures Lost(Exec(n, Start, steps), p) == Unanswered(n, steps, p)
    decreases |steps|
  {
    if steps != [] {
      var k := |steps| - 1;
      var s := Exec(n, Start, steps[..k]);
      UnansweredLost(n, steps[..k], p);
      if steps[k].Handle? {
        HandleLost(n, steps[..k], steps[k].y, p);
      } else {
        OthersLose(n, s, steps[k], p);
      }
    }
  }

  lemma OthersLose(n: nat, s: State, step: Step, p: Pair)
    requires Enabled(n, s, step) && !step.Handle?
    ensures Lost(Apply(n, s, step), p) == Lost(s, p)
  {
    hide RecvSlot, SendSlot, Imm, ImmNode, ImmOffset, UnlockMark;
    if step.Execute? { ExecuteForm(n, s, step.p); }
  }

  lemma SameTid(t: Tid, u: Tid)
    requires t.node < 65536 && u.node < 65536 && t.node + t.off * 65536 == u.node + u.off * 65536
    ensures t == u
  {
  }

  lemma OneLast(steps: seq<Step>, t: Tid, j: nat, k: nat)
    requires IsLast(steps, t, j) && IsLast(steps, t, k)
    ensures j == k
  {
  }

  lemma HandleStep(n: nat, s: State, y: nat, t: Tid, p: Pair)
    requires Inv(n, s) && Enabled(n, s, Handle(y)) && t == TidOf(ResponderOf(s, y).imm)
    ensures IsTid(n, t)
    ensures Lost(Apply(n, s, Handle(y)), p) == Lost(s, p) +
      if p == Pair(t.node, y) && !Mem(s, Loc(y, RecvSlot(n, t.node, t.off))).message.Test? then 1 else 0
  {
    hide RecvSlot, SendSlot, Imm, ImmNode, ImmOffset, UnlockMark, Apply;
    assert ResponderOk(n, s, y);
    HandleForm(n, s, y, t);
  }

  lemma HandleLost(n: nat, steps: seq<Step>, y: nat, p: Pair)
    requires Run(n, Start, steps) && Enabled(n, Exec(n, Start, steps), Handle(y))
    ensures var s := Exec(n, Start, steps);
      Lost(Apply(n, s, Handle(y)), p) == Lost(s, p) + if Drops(n, steps, Handle(y), p) then 1 else 0
  {
    hide Apply, Drops, RecvAt, RecvSlot, ImmNode, ImmOffset, UnlockMark;
    var s := Exec(n, Start, steps);
    var t, k := ServedIsLastCall(n, steps, y);
    RunInv(n, steps);
    assert ResponderOk(n, s, y);
    var u := TidOf(ResponderOf(s, y).imm);
    TidImm(n, u);
    ImmIs(u);
    HandleStep(n, s, y, u, p);
    SlotsAt(n, u, y);
    SameTid(u, t);
    if p == Pair(t.node, y) { DropsLast(n, steps, y, t, k); } else { DropsNothing(n, steps, y, t, p); }
  }

  lemma DropsLast(n: nat, steps: seq<Step>, y: nat, t: Tid, k: nat)
    requires Run(n, Start, steps) && Enabled(n, Exec(n, Start, steps), Handle(y)) && IsLast(steps, t, k)
    requires ResponderOf(Exec(n, Start, steps), y) == Got(t.node + t.off * 65536) && t.node < 65536
    ensures Drops(n, steps, Handle(y), Pair(t.node, y)) <==> !steps[k].msg.Test?
  {
    hide Enabled, IsLast, Run;
    forall v: Tid, j: nat | ResponderOf(Exec(n, Start, steps), y) == Got(v.node + v.off * 65536) && v.node == t.node
        && IsLast(steps, v, j)
      ensures j == k
    {
      SameTid(t, v);
      OneLast(steps, t, j, k);
    }
  }

  lemma DropsNothing(n: nat, steps: seq<Step>, y: nat, t: Tid, p: Pair)
    requires Run(n, Start, steps) && Enabled(n, Exec(n, Start, steps), Handle(y)) && p != Pair(t.node, y)
    requires ResponderOf(Exec(n, Start, steps), y) == Got(t.node + t.off * 65536) && t.node < 65536
    ensures !Drops(n, steps, Handle(y), p)
  {
    hide Enabled, IsLast, Run;
    forall v: Tid | ResponderOf(Exec(n, Start, steps), y) == Got(v.node + v.off * 65536) && v.node < 65536
      ensures v == t
    {
      SameTid(t, v);
    }
  }

  lemma ImmIs(t: Tid)
    requires t.node < 65536 && t.off < 8
    ensures ImmOf(t) == t.node + t.off * 65536
  {
  }

  // ---------------------------------------------------------------- order

  /** The request that a step posts, by its numbers: from the send slot, or as a reply from the receive slot, to the
      receive slot of the calling thread, with node and worker in the immediate of a request and none in a reply. */
  ghost function Posts(n: nat, s: State, step: Step, p: Pair): seq<Wr>
    requires Enabled(n, s, step)
  {
    match step
    case Post(t) =>
      var dest := CallerOf(s, t).dest;
      SlotsAt(n, t, dest);
      if p == Pair(t.node, dest) then
        [Wr(SendAt(dest, t.off), RecvAt(n, t.node, t.off), Wrappers.Some(t.node + t.off * 65536), t)]
      else []
    case Reply(y) =>
      var t := Tid(ResponderOf(s, y).node, ResponderOf(s, y).off);
      SlotsAt(n, t, 1);
      if p == Pair(y, t.node) then [Wr(RecvAt(n, t.node, t.off), RecvAt(n, t.node, t.off), Wrappers.None, t)] else []
    case _ => []
  }

  ghost function PostedOn(n: nat, steps: seq<Step>, p: Pair): seq<Wr>
    requires Run(n, Start, steps)
    decreases |steps|
  {
    if steps == [] then []
    else
      var k := |steps| - 1;
      PostedOn(n, steps[..k], p) + Posts(n, Exec(n, Start, steps[..k]), steps[k], p)
  }

  function ExecutedOn(steps: seq<Step>, p: Pair): nat {
    if steps == [] then 0
    else ExecutedOn(steps[..|steps| - 1], p) + if steps[|steps| - 1] == Execute(p) then 1 else 0
  }

  lemma NicWires(n: nat, s: State, step: Step, p: Pair)
    requires Enabled(n, s, step) && (step.Execute? || step.Handle?)
    ensures Wire(Apply(n, s, step), p) == if step == Execute(p) then Wire(s, p)[1..] else Wire(s, p)
  {
    hide Apply, Enabled;
    if step.Execute? {
      ExecuteForm(n, s, step.p);
    } else {
      GotOne(n, s, step.y);
      var imm := ResponderOf(s, step.y).imm;
      if UnlockMark(imm) == 0xFFF {
        UnlockForm(n, s, step.y);
      } else {
        HandleForm(n, s, step.y, Tid(ImmNode(imm), ImmOffset(imm)));
      }
    }
  }

  lemma PostWires(n: nat, s: State, step: Step, p: Pair)
    requires Enabled(n, s, step) && (step.Post? || step.Reply?)
    ensures Wire(Apply(n, s, step), p) == Wire(s, p) + Posts(n, s, step, p)
  {
    hide RecvSlot, SendSlot, Imm, RecvAt, SendAt;
    var t := if step.Post? then step.t else Tid(ResponderOf(s, step.y).node, ResponderOf(s, step.y).off);
    ImmOfTid(t);
    SlotsAt(n, t, if step.Post? then CallerOf(s, t).dest else 1);
  }

  lemma ImmOfTid(t: Tid)
    requires t.node < 65536 && t.off < 8
    ensures Imm(t.node, t.off) == t.node + t.off * 65536
  {
    ImmIs(t);
  }

  lemma OtherWires(n: nat, s: State, step: Step, p: Pair)
    requires Enabled(n, s, step) && !step.Execute? && !step.Handle? && !step.Post? && !step.Reply?
    ensures Wire(Apply(n, s, step), p) == Wire(s, p)
  {
    hide RecvSlot, SendSlot, Imm, ImmNode, ImmOffset;
  }

  /** Each connection is a queue: what is on it is what was posted, in order, without what has executed. */
  lemma {:induction false} WiresInOrder(n: nat, steps: seq<Step>, p: Pair)
    requires Run(n, Start, steps)
    ensures ExecutedOn(steps, p) <= |PostedOn(n, steps, p)|
    ensures Wire(Exec(n, Start, steps), p) == PostedOn(n, steps, p)[ExecutedOn(steps, p)..]
    decreases |steps|
  {
    hide Apply, Posts;
    if steps != [] {
      var k := |steps| - 1;
      var s := Exec(n, Start, steps[..k]);
      WiresInOrder(n, steps[..k], p);
      match steps[k] {
        case Execute(_) => NicWires(n, s, steps[k], p); NoPosts(n, s, steps[k], p); NotEmpty(n, s, steps[k]);
        case Handle(_) => NicWires(n, s, steps[k], p); NoPosts(n, s, steps[k], p);
        case Post(_) => PostWires(n, s, steps[k], p);
        case Reply(_) => PostWires(n, s, steps[k], p);
        case _ => OtherWires(n, s, steps[k], p); NoPosts(n, s, steps[k], p);
      }
    }
  }

  lemma NoPosts(n: nat, s: State, step: Step, p: Pair)
    requires Enabled(n, s, step) && !step.Post? && !step.Reply?
    ensures Posts(n, s, step, p) == []
  {
  }

  lemma NotEmpty(n: nat, s: State, step: Step)
    requires Enabled(n, s, step) && step.Execute?
    ensures Wire(s, step.p) != []
  {
  }

  /** The immediates that have arrived at a server. */
  ghost function ArrivedAt(n: nat, steps: seq<Step>, y: nat): seq<nat>
    requires Run(n, Start, steps)
    decreases |steps|
  {
    if steps == [] then []
    else
      var k := |steps| - 1;
      ArrivedAt(n, steps[..k], y) + Arrives(n, Exec(n, Start, steps[..k]), steps[k], y)
  }

  ghost function Arrives(n: nat, s: State, step: Step, y: nat): seq<nat>
    requires Enabled(n, s, step)
  {
    if step.Execute? && step.p.to == y && Wire(s, step.p)[0].imm.Some? then [Wire(s, step.p)[0].imm.value] else []
  }

  function PolledBy(steps: seq<Step>, y: nat): nat {
    if steps == [] then 0
    else PolledBy(steps[..|steps| - 1], y) + if steps[|steps| - 1] == Poll(y) then 1 else 0
  }

  lemma NicCqs(n: nat, s: State, step: Step, y: nat)
    requires Enabled(n, s, step) && (step.Execute? || step.Handle?)
    ensures Cq(Apply(n, s, step), y) == Cq(s, y) + Arrives(n, s, step, y)
  {
    hide Apply;
    if step.Execute? {
      ExecuteForm(n, s, step.p);
    } else {
      GotOne(n, s, step.y);
      var imm := ResponderOf(s, step.y).imm;
      if UnlockMark(imm) == 0xFFF {
        UnlockForm(n, s, step.y);
      } else {
        HandleForm(n, s, step.y, Tid(ImmNode(imm), ImmOffset(imm)));
      }
    }
  }

  lemma OtherCqs(n: nat, s: State, step: Step, y: nat)
    requires Enabled(n, s, step) && !step.Execute? && !step.Handle?
    ensures if step == Poll(y) then Cq(s, y) != [] && Cq(Apply(n, s, step), y) == Cq(s, y)[1..]
      else Cq(Apply(n, s, step), y) == Cq(s, y)
    ensures step == Poll(y) ==> ResponderOf(Apply(n, s, step), y) == Got(Cq(s, y)[0])
  {
    hide RecvSlot, SendSlot, Imm, ImmNode, ImmOffset;
  }

  /** A responder takes up requests in the order in which they arrived. */
  lemma {:induction false} CqsInOrder(n: nat, steps: seq<Step>, y: nat)
    requires Run(n, Start, steps)
    ensures PolledBy(steps, y) <= |ArrivedAt(n, steps, y)|
    ensures Cq(Exec(n, Start, steps), y) == ArrivedAt(n, steps, y)[PolledBy(steps, y)..]
    decreases |steps|
  {
    hide Apply, Enabled;
    if steps != [] {
      var k := |steps| - 1;
      var s := Exec(n, Start, steps[..k]);
      CqsInOrder(n, steps[..k], y);
      if steps[k].Execute? || steps[k].Handle? { NicCqs(n, s, steps[k], y); } else { OtherCqs(n, s, steps[k], y); }
    }
  }
}
