/** What every step of the server-to-server protocol keeps: each request is in exactly one place, its slots are
    owned by one side at a time, it is answered once, and the reply carries its task id. */
module RpcServerSafety {
  import opened Addressing
  import opened Messages
  import opened RpcServer

  // ---------------------------------------------------------------- slots are private to one call

  function Out(n: nat, t: Tid, dest: nat): Loc
    requires IsTid(n, t) && IsNode(n, dest)
  {
    Loc(t.node, SendSlot(n, dest, t.off))
  }

  function BackLoc(n: nat, t: Tid): Loc
    requires IsTid(n, t)
  {
    Loc(t.node, RecvSlot(n, t.node, t.off))
  }

  function SlotLoc(n: nat, t: Tid, dest: nat): Loc
    requires IsTid(n, t) && IsNode(n, dest)
  {
    Loc(dest, RecvSlot(n, t.node, t.off))
  }

  /** The three message slots that a call of `t` to `dest` uses are distinct. */
  lemma OwnLocsDistinct(n: nat, t: Tid, dest: nat)
    requires IsTid(n, t) && IsNode(n, dest) && dest != t.node
    ensures Out(n, t, dest) != BackLoc(n, t) && Out(n, t, dest) != SlotLoc(n, t, dest)
        && BackLoc(n, t) != SlotLoc(n, t, dest)
  {
    SlotsDisjoint(Area(n), Slot.Send(dest, t.off), Recv(t.node, t.off));
  }

  lemma RecvInjective(n: nat, a: nat, o: nat, b: nat, p: nat)
    requires IsNode(n, a) && IsNode(n, b) && o < SERVER_MESSAGE_NUM && p < SERVER_MESSAGE_NUM
    ensures RecvSlot(n, a, o) == RecvSlot(n, b, p) <==> a == b && o == p
  {
    if a != b || o != p { SlotsDisjoint(Area(n), Recv(a, o), Recv(b, p)); }
  }

  lemma SendInjective(n: nat, a: nat, o: nat, b: nat, p: nat)
    requires IsNode(n, a) && IsNode(n, b) && o < SERVER_MESSAGE_NUM && p < SERVER_MESSAGE_NUM
    ensures SendSlot(n, a, o) == SendSlot(n, b, p) <==> a == b && o == p
  {
    if a != b || o != p { SlotsDisjoint(Area(n), Slot.Send(a, o), Slot.Send(b, p)); }
  }

  lemma SendNotRecv(n: nat, a: nat, o: nat, b: nat, p: nat)
    requires IsNode(n, a) && IsNode(n, b) && o < SERVER_MESSAGE_NUM && p < SERVER_MESSAGE_NUM
    ensures SendSlot(n, a, o) != RecvSlot(n, b, p)
  {
    SlotsDisjoint(Area(n), Slot.Send(a, o), Recv(b, p));
  }

  /** `l` is none of the slots that a call of `u` to `d` uses. */
  predicate Foreign(n: nat, l: Loc, u: Tid, d: nat)
    requires IsTid(n, u) && IsNode(n, d)
  {
    l != Out(n, u, d) && l != BackLoc(n, u) && l != SlotLoc(n, u, d)
  }

  /** Two calls of different threads never share a slot. */
  lemma SlotsPrivate(n: nat, t: Tid, d: nat, u: Tid, e: nat)
    requires IsTid(n, t) && IsTid(n, u) && IsNode(n, d) && IsNode(n, e) && d != t.node && e != u.node && t != u
    ensures Foreign(n, Out(n, t, d), u, e) && Foreign(n, BackLoc(n, t), u, e) && Foreign(n, SlotLoc(n, t, d), u, e)
  {
    RecvInjective(n, t.node, t.off, u.node, u.off);
    SendInjective(n, d, t.off, e, u.off);
    SendNotRecv(n, d, t.off, u.node, u.off);
    SendNotRecv(n, e, u.off, t.node, t.off);
  }

  // ---------------------------------------------------------------- the invariant

  function ImmOf(t: Tid): nat
    requires t.node < TWO16 && t.off < TWO16
  {
    Imm(t.node, t.off)
  }

  predicate CallShape(n: nat, t: Tid, c: Caller) {
    c.Idle? || (IsNode(n, c.dest) && c.dest != t.node)
  }

  /** Where the request or reply of `t` is. */
  ghost predicate Placed(n: nat, s: State, t: Tid)
    requires IsTid(n, t) && CallShape(n, t, CallerOf(s, t))
  {
    var c := CallerOf(s, t);
    match PhaseOf(s, t)
    case Rest => c.Idle?
    case Ready => c.Prepared?
    case OnWire => c.Waiting? && RequestWr(n, t, c.dest) in Wire(s, Pair(t.node, c.dest))
    case Arrived => c.Waiting? && ImmOf(t) in Cq(s, c.dest)
    case Serving => c.Waiting? && ResponderOf(s, c.dest) == Got(ImmOf(t))
    case Replying => c.Waiting? && ResponderOf(s, c.dest) == Overwritten(t.node, t.off)
    case OnWayBack => c.Waiting? && ReplyWr(n, t) in Wire(s, Pair(c.dest, t.node))
    case Back => c.Waiting?
    case Silent => c.Waiting?
  }

  /** What the slots of `t` hold: the request at the sender, then at the responder, then the reply there, then
      the reply at the sender. */
  ghost predicate Holds(n: nat, s: State, t: Tid)
    requires IsTid(n, t) && CallShape(n, t, CallerOf(s, t))
  {
    var c := CallerOf(s, t);
    c.Idle? || (
      && SentBy(s, t).taskID == c.id
      && (PhaseOf(s, t).Ready? || PhaseOf(s, t).OnWire? ==> Mem(s, Out(n, t, c.dest)) == SentBy(s, t))
      && (PhaseOf(s, t).Arrived? || PhaseOf(s, t).Serving? ==> Mem(s, SlotLoc(n, t, c.dest)) == SentBy(s, t))
      && (PhaseOf(s, t).Replying? || PhaseOf(s, t).OnWayBack? ==>
          Mem(s, SlotLoc(n, t, c.dest)) == Msg(Response, c.id, "4321"))
      && Mem(s, BackLoc(n, t)).message == (if PhaseOf(s, t).Back? then Response else Invalid)
      && (PhaseOf(s, t).Back? ==> Mem(s, BackLoc(n, t)) == Msg(Response, c.id, "4321")))
  }

  predicate Pending(ph: Phase) { ph.OnWire? || ph.Arrived? || ph.Serving? || ph.Silent? }

  ghost predicate TidOk(n: nat, s: State, t: Tid)
    requires IsTid(n, t)
  {
    && CallShape(n, t, CallerOf(s, t)) && Placed(n, s, t) && Holds(n, s, t)
    && Calls(s, t) == Answered(s, t) + if Pending(PhaseOf(s, t)) then 1 else 0
  }

  /** A work request on the wire from `p.from` to `p.to` belongs to a call that is there. */
  ghost predicate EntryOk(n: nat, s: State, p: Pair, w: Wr) {
    && IsTid(n, w.of) && CallerOf(s, w.of).Waiting? && IsNode(n, CallerOf(s, w.of).dest)
    && ((PhaseOf(s, w.of).OnWire? && p == Pair(w.of.node, CallerOf(s, w.of).dest)
        && w == RequestWr(n, w.of, CallerOf(s, w.of).dest))
     || (PhaseOf(s, w.of).OnWayBack? && p == Pair(CallerOf(s, w.of).dest, w.of.node) && w == ReplyWr(n, w.of)))
  }

  ghost predicate WireOk(n: nat, s: State, p: Pair) {
    && (forall k :: 0 <= k < |Wire(s, p)| ==> EntryOk(n, s, p, Wire(s, p)[k]))
    && (forall j, k :: 0 <= j < k < |Wire(s, p)| ==> Wire(s, p)[j].of != Wire(s, p)[k].of)
  }

  function TidOf(imm: nat): Tid { Tid(ImmNode(imm), ImmOffset(imm)) }

  /** The immediate names a call that is in the given phase at `y`. */
  ghost predicate ImmAt(n: nat, s: State, y: nat, imm: nat, ph: Phase) {
    var t := TidOf(imm);
    && IsTid(n, t) && imm == ImmOf(t) && UnlockMark(imm) != 0xFFF
    && CallerOf(s, t).Waiting? && CallerOf(s, t).dest == y && PhaseOf(s, t) == ph
  }

  ghost predicate CqOk(n: nat, s: State, y: nat) {
    && (forall k :: 0 <= k < |Cq(s, y)| ==> ImmAt(n, s, y, Cq(s, y)[k], Arrived))
    && (forall j, k :: 0 <= j < k < |Cq(s, y)| ==> Cq(s, y)[j] != Cq(s, y)[k])
  }

  ghost predicate ResponderOk(n: nat, s: State, y: nat) {
    match ResponderOf(s, y)
    case Polling => true
    case Got(imm) => ImmAt(n, s, y, imm, Serving)
    case Overwritten(a, o) =>
      && IsTid(n, Tid(a, o)) && CallerOf(s, Tid(a, o)).Waiting? && CallerOf(s, Tid(a, o)).dest == y
      && PhaseOf(s, Tid(a, o)).Replying?
    case Sent(a, o) => IsTid(n, Tid(a, o)) && IsNode(n, y)
  }

  ghost predicate Inv(n: nat, s: State) {
    && (forall t :: IsTid(n, t) ==> TidOk(n, s, t))
    && (forall p :: WireOk(n, s, p))
    && (forall y :: CqOk(n, s, y))
    && (forall y :: ResponderOk(n, s, y))
  }

  lemma TidImm(n: nat, t: Tid)
    requires IsTid(n, t)
    ensures TidOf(ImmOf(t)) == t && UnlockMark(ImmOf(t)) != 0xFFF
  {
    ImmRoundTrip(t.node, t.off);
  }

  // ---------------------------------------------------------------- frames

  /** Only `t` changed among the threads. */
  ghost predicate OnlyTid(s: State, s': State, t: Tid) {
    forall u {:trigger PhaseOf(s', u)} {:trigger CallerOf(s', u)} :: u != t ==>
      CallerOf(s', u) == CallerOf(s, u) && PhaseOf(s', u) == PhaseOf(s, u) &&
      SentBy(s', u) == SentBy(s, u) && Calls(s', u) == Calls(s, u) && Answered(s', u) == Answered(s, u)
  }

  /** A thread whose place and slots did not change is still where it was. */
  lemma TidFrame(n: nat, s: State, s': State, t: Tid, u: Tid)
    requires IsTid(n, u) && TidOk(n, s, u) && OnlyTid(s, s', t) && u != t
    requires !CallerOf(s, u).Idle? ==> var d := CallerOf(s, u).dest;
      && Mem(s', Out(n, u, d)) == Mem(s, Out(n, u, d))
      && Mem(s', BackLoc(n, u)) == Mem(s, BackLoc(n, u))
      && Mem(s', SlotLoc(n, u, d)) == Mem(s, SlotLoc(n, u, d))
      && (RequestWr(n, u, d) in Wire(s, Pair(u.node, d)) ==> RequestWr(n, u, d) in Wire(s', Pair(u.node, d)))
      && (ReplyWr(n, u) in Wire(s, Pair(d, u.node)) ==> ReplyWr(n, u) in Wire(s', Pair(d, u.node)))
      && (ImmOf(u) in Cq(s, d) ==> ImmOf(u) in Cq(s', d))
      && (ResponderOf(s, d) == Got(ImmOf(u)) || ResponderOf(s, d) == Overwritten(u.node, u.off) ==>
            ResponderOf(s', d) == ResponderOf(s, d))
    ensures TidOk(n, s', u)
  {
  }

  /** A step that writes no slot but those of `t`'s call to `d`, and removes nothing that belongs to others. */
  ghost predicate Local(n: nat, s: State, s': State, t: Tid, d: nat)
    requires IsTid(n, t) && IsNode(n, d)
  {
    && OnlyTid(s, s', t)
    && (forall l {:trigger Mem(s', l)} :: Mem(s', l) != Mem(s, l) ==>
        l == Out(n, t, d) || l == BackLoc(n, t) || l == SlotLoc(n, t, d))
    && (forall p, w {:trigger w in Wire(s', p)} :: w in Wire(s, p) && w.of != t ==> w in Wire(s', p))
    && (forall y, imm {:trigger imm in Cq(s', y)} :: imm in Cq(s, y) && TidOf(imm) != t ==> imm in Cq(s', y))
    && (forall y {:trigger ResponderOf(s', y)} :: ResponderOf(s', y) != ResponderOf(s, y) ==>
          match ResponderOf(s, y)
          case Polling => true
          case Got(imm) => TidOf(imm) == t
          case Overwritten(a, o) => Tid(a, o) == t
          case Sent(_, _) => true)
  }

  lemma OthersKept(n: nat, s: State, s': State, t: Tid, d: nat, u: Tid)
    requires Inv(n, s) && IsTid(n, t) && IsNode(n, d) && d != t.node && Local(n, s, s', t, d) && IsTid(n, u) && u != t
    ensures TidOk(n, s', u)
  {
    assert TidOk(n, s, u);
    TidImm(n, u);
    if !CallerOf(s, u).Idle? {
      SlotsPrivate(n, t, d, u, CallerOf(s, u).dest);
    }
    TidFrame(n, s, s', t, u);
  }

  /** An entry that is not about `t` stays right. */
  lemma EntryKept(n: nat, s: State, s': State, t: Tid, p: Pair, w: Wr)
    requires EntryOk(n, s, p, w) && OnlyTid(s, s', t) && w.of != t
    ensures EntryOk(n, s', p, w)
  {
  }

  /** While `t` is neither on a wire nor on its way back, no wire mentions it. */
  lemma NotOnWires(n: nat, s: State, t: Tid, p: Pair)
    requires WireOk(n, s, p) && !PhaseOf(s, t).OnWire? && !PhaseOf(s, t).OnWayBack?
    ensures forall k :: 0 <= k < |Wire(s, p)| ==> Wire(s, p)[k].of != t
  {
    forall k | 0 <= k < |Wire(s, p)| ensures Wire(s, p)[k].of != t { assert EntryOk(n, s, p, Wire(s, p)[k]); }
  }

  lemma WireKept(n: nat, s: State, s': State, t: Tid, p: Pair)
    requires WireOk(n, s, p) && OnlyTid(s, s', t) && Wire(s', p) == Wire(s, p)
    requires forall k :: 0 <= k < |Wire(s, p)| ==> Wire(s, p)[k].of != t
    ensures WireOk(n, s', p)
  {
    forall k | 0 <= k < |Wire(s', p)|
      ensures EntryOk(n, s', p, Wire(s', p)[k])
    {
      assert EntryOk(n, s, p, Wire(s, p)[k]);
      EntryKept(n, s, s', t, p, Wire(s, p)[k]);
    }
  }

  lemma CqKept(n: nat, s: State, s': State, t: Tid, y: nat)
    requires CqOk(n, s, y) && OnlyTid(s, s', t) && Cq(s', y) == Cq(s, y)
    requires forall k :: 0 <= k < |Cq(s, y)| ==> TidOf(Cq(s, y)[k]) != t
    ensures CqOk(n, s', y)
  {
    forall k | 0 <= k < |Cq(s', y)|
      ensures ImmAt(n, s', y, Cq(s', y)[k], Arrived)
    {
      assert ImmAt(n, s, y, Cq(s, y)[k], Arrived);
    }
  }

  lemma NotInCqs(n: nat, s: State, t: Tid, y: nat)
    requires CqOk(n, s, y) && !PhaseOf(s, t).Arrived?
    ensures forall k :: 0 <= k < |Cq(s, y)| ==> TidOf(Cq(s, y)[k]) != t
  {
    forall k | 0 <= k < |Cq(s, y)| ensures TidOf(Cq(s, y)[k]) != t { assert ImmAt(n, s, y, Cq(s, y)[k], Arrived); }
  }

  lemma ResponderKept(n: nat, s: State, s': State, t: Tid, y: nat)
    requires ResponderOk(n, s, y) && OnlyTid(s, s', t) && ResponderOf(s', y) == ResponderOf(s, y)
    requires !PhaseOf(s, t).Serving? && !PhaseOf(s, t).Replying?
    ensures ResponderOk(n, s', y)
  {
  }

  // Equal fields give equal views of them.

  ghost predicate SameMem(s: State, s': State) { forall l {:trigger Mem(s', l)} :: Mem(s', l) == Mem(s, l) }
  ghost predicate SameWires(s: State, s': State) { forall p {:trigger Wire(s', p)} :: Wire(s', p) == Wire(s, p) }
  ghost predicate SameCqs(s: State, s': State) { forall y {:trigger Cq(s', y)} :: Cq(s', y) == Cq(s, y) }
  ghost predicate SameResponders(s: State, s': State) {
    forall y {:trigger ResponderOf(s', y)} :: ResponderOf(s', y) == ResponderOf(s, y)
  }

  lemma Views(s: State, s': State)
    ensures s'.mem == s.mem ==> SameMem(s, s')
    ensures s'.wires == s.wires ==> SameWires(s, s')
    ensures s'.cqs == s.cqs ==> SameCqs(s, s')
    ensures s'.responders == s.responders ==> SameResponders(s, s')
  {
  }

  /** Only the given slots, wire, CQ or responder may have changed. */
  ghost predicate MemBut(s: State, s': State, a: Loc, b: Loc) {
    forall l {:trigger Mem(s', l)} :: l != a && l != b ==> Mem(s', l) == Mem(s, l)
  }
  ghost predicate WiresBut(s: State, s': State, p: Pair) { forall q {:trigger Wire(s', q)} :: q != p ==>
      Wire(s', q) == Wire(s, q) }
  ghost predicate CqsBut(s: State, s': State, y: nat) { forall z {:trigger Cq(s', z)} :: z != y ==>
      Cq(s', z) == Cq(s, z) }
  ghost predicate RespondersBut(s: State, s': State, y: nat) {
    forall z {:trigger ResponderOf(s', z)} :: z != y ==> ResponderOf(s', z) == ResponderOf(s, z)
  }

  // The same from the way a step builds its successor.

  lemma TidUpdated(s: State, s': State, t: Tid)
    requires s'.callers == s.callers || s'.callers == s.callers[t := CallerOf(s', t)]
    requires s'.phase == s.phase || s'.phase == s.phase[t := PhaseOf(s', t)]
    requires s'.sent == s.sent || s'.sent == s.sent[t := SentBy(s', t)]
    requires s'.calls == s.calls || s'.calls == s.calls[t := Calls(s', t)]
    requires s'.answered == s.answered || s'.answered == s.answered[t := Answered(s', t)]
    ensures OnlyTid(s, s', t)
  {
    forall u | u != t
      ensures CallerOf(s', u) == CallerOf(s, u) && PhaseOf(s', u) == PhaseOf(s, u)
      ensures SentBy(s', u) == SentBy(s, u) && Calls(s', u) == Calls(s, u) && Answered(s', u) == Answered(s, u)
    {
    }
  }

  lemma MemUpdated(s: State, s': State, a: Loc, b: Loc)
    requires s'.mem == s.mem[a := Mem(s', a)] || s'.mem == s.mem[a := Mem(s', a)][b := Mem(s', b)]
    ensures MemBut(s, s', a, b)
  {
    forall l | l != a && l != b ensures Mem(s', l) == Mem(s, l) { }
  }

  lemma WireUpdated(s: State, s': State, p: Pair)
    requires s'.wires == s.wires[p := Wire(s', p)]
    ensures WiresBut(s, s', p)
  {
    forall q | q != p ensures Wire(s', q) == Wire(s, q) { }
  }

  lemma CqUpdated(s: State, s': State, y: nat)
    requires s'.cqs == s.cqs[y := Cq(s', y)]
    ensures CqsBut(s, s', y)
  {
    forall z | z != y ensures Cq(s', z) == Cq(s, z) { }
  }

  lemma ResponderUpdated(s: State, s': State, y: nat)
    requires s'.responders == s.responders[y := ResponderOf(s', y)]
    ensures RespondersBut(s, s', y)
  {
    forall z | z != y ensures ResponderOf(s', z) == ResponderOf(s, z) { }
  }

  // ---------------------------------------------------------------- the caller

  lemma CallerStep(n: nat, s: State, s': State, t: Tid, d: nat)
    requires Inv(n, s) && IsTid(n, t) && IsNode(n, d) && d != t.node && Local(n, s, s', t, d) && TidOk(n, s', t)
    requires s'.wires == s.wires && s'.cqs == s.cqs && s'.responders == s.responders
    requires PhaseOf(s, t).Rest? || PhaseOf(s, t).Ready? || PhaseOf(s, t).Back?
    ensures Inv(n, s')
  {
    forall u | IsTid(n, u) ensures TidOk(n, s', u) { if u != t { OthersKept(n, s, s', t, d, u); } }
    forall p ensures WireOk(n, s', p) { assert WireOk(n, s, p); NotOnWires(n, s, t, p); WireKept(n, s, s', t, p); }
    forall y ensures CqOk(n, s', y) { assert CqOk(n, s, y); NotInCqs(n, s, t, y); CqKept(n, s, s', t, y); }
    forall y ensures ResponderOk(n, s', y) { assert ResponderOk(n, s, y); ResponderKept(n, s, s', t, y); }
  }

  lemma PrepareLocal(n: nat, s: State, t: Tid, dest: nat, msg: Message, path: string)
    requires Enabled(n, s, Prepare(t, dest, msg, path))
    ensures Local(n, s, Apply(n, s, Prepare(t, dest, msg, path)), t, dest)
  {
    var s' := Apply(n, s, Prepare(t, dest, msg, path));
    Views(s, s');
    TidUpdated(s, s', t);
    OwnLocsDistinct(n, t, dest);
    MemUpdated(s, s', BackLoc(n, t), Out(n, t, dest));
  }

  lemma PrepareOwn(n: nat, s: State, t: Tid, dest: nat, msg: Message, path: string)
    requires Enabled(n, s, Prepare(t, dest, msg, path)) && TidOk(n, s, t)
    ensures TidOk(n, Apply(n, s, Prepare(t, dest, msg, path)), t)
  {
    OwnLocsDistinct(n, t, dest);
  }

  lemma PrepareInv(n: nat, s: State, t: Tid, dest: nat, msg: Message, path: string)
    requires Inv(n, s) && Enabled(n, s, Prepare(t, dest, msg, path))
    ensures Inv(n, Apply(n, s, Prepare(t, dest, msg, path)))
  {
    assert TidOk(n, s, t);
    PrepareLocal(n, s, t, dest, msg, path);
    PrepareOwn(n, s, t, dest, msg, path);
    CallerStep(n, s, Apply(n, s, Prepare(t, dest, msg, path)), t, dest);
  }

  lemma ReturnLocal(n: nat, s: State, t: Tid, d: nat)
    requires Enabled(n, s, Return(t)) && IsNode(n, d)
    ensures Local(n, s, Apply(n, s, Return(t)), t, d)
  {
    var s' := Apply(n, s, Return(t));
    Views(s, s');
    TidUpdated(s, s', t);
  }

  lemma ReturnOwn(n: nat, s: State, t: Tid)
    requires Enabled(n, s, Return(t)) && TidOk(n, s, t)
    ensures PhaseOf(s, t).Back? && TidOk(n, Apply(n, s, Return(t)), t)
  {
  }

  lemma ReturnInv(n: nat, s: State, t: Tid)
    requires Inv(n, s) && Enabled(n, s, Return(t))
    ensures Inv(n, Apply(n, s, Return(t)))
  {
    assert TidOk(n, s, t);
    ReturnLocal(n, s, t, CallerOf(s, t).dest);
    ReturnOwn(n, s, t);
    CallerStep(n, s, Apply(n, s, Return(t)), t, CallerOf(s, t).dest);
  }

  lemma PostLocal(n: nat, s: State, t: Tid)
    requires Enabled(n, s, Post(t)) && TidOk(n, s, t)
    ensures IsNode(n, CallerOf(s, t).dest) && Local(n, s, Apply(n, s, Post(t)), t, CallerOf(s, t).dest)
    ensures TidOk(n, Apply(n, s, Post(t)), t)
  {
    var s', p := Apply(n, s, Post(t)), Pair(t.node, CallerOf(s, t).dest);
    Views(s, s');
    TidUpdated(s, s', t);
    WireUpdated(s, s', p);
    assert Wire(s', p) == Wire(s, p) + [RequestWr(n, t, CallerOf(s, t).dest)];
    assert Wire(s', p)[|Wire(s, p)|] == RequestWr(n, t, CallerOf(s, t).dest);
  }

  lemma PostInv(n: nat, s: State, t: Tid)
    requires Inv(n, s) && Enabled(n, s, Post(t))
    ensures Inv(n, Apply(n, s, Post(t)))
  {
    var s' := Apply(n, s, Post(t));
    assert TidOk(n, s, t);
    var d := CallerOf(s, t).dest;
    var p0, w := Pair(t.node, d), RequestWr(n, t, d);
    PostLocal(n, s, t);
    forall u | IsTid(n, u) ensures TidOk(n, s', u) { if u != t { OthersKept(n, s, s', t, d, u); } }
    forall p ensures WireOk(n, s', p) {
      assert WireOk(n, s, p);
      NotOnWires(n, s, t, p);
      if p == p0 { WireAppend(n, s, s', t, p, w); } else { WireKept(n, s, s', t, p); }
    }
    forall y ensures CqOk(n, s', y) { assert CqOk(n, s, y); NotInCqs(n, s, t, y); CqKept(n, s, s', t, y); }
    forall y ensures ResponderOk(n, s', y) { assert ResponderOk(n, s, y); ResponderKept(n, s, s', t, y); }
  }

  lemma WireAppend(n: nat, s: State, s': State, t: Tid, p: Pair, w: Wr)
    requires WireOk(n, s, p) && OnlyTid(s, s', t) && Wire(s', p) == Wire(s, p) + [w]
    requires forall k :: 0 <= k < |Wire(s, p)| ==> Wire(s, p)[k].of != t
    requires w.of == t && EntryOk(n, s', p, w)
    ensures WireOk(n, s', p)
  {
    forall k | 0 <= k < |Wire(s', p)|
      ensures EntryOk(n, s', p, Wire(s', p)[k])
    {
      if k < |Wire(s, p)| {
        assert EntryOk(n, s, p, Wire(s, p)[k]);
        EntryKept(n, s, s', t, p, Wire(s, p)[k]);
      }
    }
  }

  // ---------------------------------------------------------------- the NIC

  /** A wire that still mentions `t` is the one that its phase says. */
  lemma WireOf(n: nat, s: State, t: Tid, q: Pair, k: nat)
    requires WireOk(n, s, q) && k < |Wire(s, q)| && Wire(s, q)[k].of == t
    ensures EntryOk(n, s, q, Wire(s, q)[k])
  {
  }

  lemma WireTail(n: nat, s: State, s': State, p: Pair)
    requires WireOk(n, s, p) && Wire(s, p) != [] && OnlyTid(s, s', Wire(s, p)[0].of) && Wire(s', p) == Wire(s, p)[1..]
    ensures WireOk(n, s', p)
  {
    var t := Wire(s, p)[0].of;
    forall k | 0 <= k < |Wire(s', p)|
      ensures EntryOk(n, s', p, Wire(s', p)[k])
    {
      assert Wire(s', p)[k] == Wire(s, p)[k + 1];
      assert EntryOk(n, s, p, Wire(s, p)[k + 1]);
      EntryKept(n, s, s', t, p, Wire(s, p)[k + 1]);
    }
    forall j, k | 0 <= j < k < |Wire(s', p)|
      ensures Wire(s', p)[j].of != Wire(s', p)[k].of
    {
      assert Wire(s', p)[j] == Wire(s, p)[j + 1] && Wire(s', p)[k] == Wire(s, p)[k + 1];
    }
  }

  lemma TailKeeps<T>(q: seq<T>, w: T)
    requires q != [] && w in q && w != q[0]
    ensures w in q[1..]
  {
    var k :| 0 <= k < |q| && q[k] == w;
    assert q[1..][k - 1] == w;
  }

  /** What executing the head of a wire changes. */
  ghost predicate Executed(s: State, s': State, p: Pair) {
    && Wire(s, p) != []
    && var w := Wire(s, p)[0];
    && OnlyTid(s, s', w.of)
    && MemBut(s, s', Loc(p.to, w.dst), Loc(p.to, w.dst)) && Mem(s', Loc(p.to, w.dst)) == Mem(s, Loc(p.from, w.src))
    && WiresBut(s, s', p) && Wire(s', p) == Wire(s, p)[1..]
    && (if w.imm.Some? then CqsBut(s, s', p.to) && Cq(s', p.to) == Cq(s, p.to) + [w.imm.value] else SameCqs(s, s'))
    && SameResponders(s, s')
    && CallerOf(s', w.of) == CallerOf(s, w.of) && SentBy(s', w.of) == SentBy(s, w.of)
    && Calls(s', w.of) == Calls(s, w.of) && Answered(s', w.of) == Answered(s, w.of)
    && PhaseOf(s', w.of) == if w.imm.Some? then Arrived else Back
  }

  lemma MemSet(s: State, s': State, a: Loc, v: Msg)
    requires s'.mem == s.mem[a := v]
    ensures MemBut(s, s', a, a) && Mem(s', a) == v
  {
    forall l | l != a ensures Mem(s', l) == Mem(s, l) { }
  }

  lemma PhaseSet(s: State, s': State, t: Tid, ph: Phase)
    requires s'.callers == s.callers && s'.sent == s.sent && s'.calls == s.calls && s'.answered == s.answered
    requires s'.phase == s.phase[t := ph]
    ensures OnlyTid(s, s', t) && PhaseOf(s', t) == ph
    ensures CallerOf(s', t) == CallerOf(s, t) && SentBy(s', t) == SentBy(s, t)
    ensures Calls(s', t) == Calls(s, t) && Answered(s', t) == Answered(s, t)
  {
    TidUpdated(s, s', t);
  }

  lemma ExecuteRequestViews(n: nat, s: State, p: Pair, w: Wr)
    requires Enabled(n, s, Execute(p)) && w == Wire(s, p)[0] && w.imm.Some?
    ensures Executed(s, Apply(n, s, Execute(p)), p)
    ensures Apply(n, s, Execute(p)).lost == s.lost && Apply(n, s, Execute(p)).sent == s.sent
  {
    var s' := s.(wires := s.wires[p := Wire(s, p)[1..]], mem := s.mem[Loc(p.to, w.dst) := Mem(s, Loc(p.from, w.src))],
                 phase := s.phase[w.of := Arrived],
                 credits := s.credits[p := Credits(s, p) - 1], cqs := s.cqs[p.to := Cq(s, p.to) + [w.imm.value]]);
    assert s' == Apply(n, s, Execute(p));
    Views(s, s');
    PhaseSet(s, s', w.of, Arrived);
    MemSet(s, s', Loc(p.to, w.dst), Mem(s, Loc(p.from, w.src)));
    WireUpdated(s, s', p);
    CqUpdated(s, s', p.to);
  }

  lemma ExecuteReplyViews(n: nat, s: State, p: Pair, w: Wr)
    requires Enabled(n, s, Execute(p)) && w == Wire(s, p)[0] && w.imm.None?
    ensures Executed(s, Apply(n, s, Execute(p)), p)
    ensures Apply(n, s, Execute(p)).lost == s.lost && Apply(n, s, Execute(p)).sent == s.sent
  {
    var s' := s.(wires := s.wires[p := Wire(s, p)[1..]], mem := s.mem[Loc(p.to, w.dst) := Mem(s, Loc(p.from, w.src))],
                 phase := s.phase[w.of := Back]);
    assert s' == Apply(n, s, Execute(p));
    Views(s, s');
    PhaseSet(s, s', w.of, Back);
    MemSet(s, s', Loc(p.to, w.dst), Mem(s, Loc(p.from, w.src)));
    WireUpdated(s, s', p);
  }

  lemma ExecuteLocal(n: nat, s: State, s': State, p: Pair, t: Tid, d: nat)
    requires Executed(s, s', p) && t == Wire(s, p)[0].of && IsTid(n, t) && IsNode(n, d)
    requires Loc(p.to, Wire(s, p)[0].dst) == BackLoc(n, t) || Loc(p.to, Wire(s, p)[0].dst) == SlotLoc(n, t, d)
    ensures Local(n, s, s', t, d)
  {
    hide RecvSlot, SendSlot;
    forall q, v | v in Wire(s, q) && v.of != t
      ensures v in Wire(s', q)
    {
      if q == p { TailKeeps(Wire(s, p), v); }
    }
    forall y, imm | imm in Cq(s, y) && TidOf(imm) != t
      ensures imm in Cq(s', y)
    {
    }
  }

  /** What executing the head of a wire does to the call it belongs to. */
  lemma ExecuteOwn(n: nat, s: State, s': State, p: Pair)
    requires Executed(s, s', p) && WireOk(n, s, p)
    ensures var w := Wire(s, p)[0]; var t := w.of;
      && EntryOk(n, s, p, w) && (TidOk(n, s, t) ==> TidOk(n, s', t))
      && (w.imm.Some? <==> PhaseOf(s, t).OnWire?)
      && (w.imm.Some? ==> w.imm.value == ImmOf(t) && p.to == CallerOf(s, t).dest)
      && (Loc(p.to, w.dst) == BackLoc(n, t) || Loc(p.to, w.dst) == SlotLoc(n, t, CallerOf(s, t).dest))
  {
    hide RecvSlot, SendSlot;
    var w := Wire(s, p)[0];
    var t := w.of;
    assert EntryOk(n, s, p, w);
    if TidOk(n, s, t) {
      OwnLocsDistinct(n, t, CallerOf(s, t).dest);
      if w.imm.Some? {
        assert Cq(s', p.to)[|Cq(s, p.to)|] == ImmOf(t);
      }
    }
  }

  lemma CqAppend(n: nat, s: State, s': State, t: Tid, y: nat, imm: nat)
    requires CqOk(n, s, y) && OnlyTid(s, s', t) && Cq(s', y) == Cq(s, y) + [imm]
    requires forall k :: 0 <= k < |Cq(s, y)| ==> TidOf(Cq(s, y)[k]) != t
    requires TidOf(imm) == t && ImmAt(n, s', y, imm, Arrived)
    ensures CqOk(n, s', y)
  {
    forall k | 0 <= k < |Cq(s', y)|
      ensures ImmAt(n, s', y, Cq(s', y)[k], Arrived)
    {
      if k < |Cq(s, y)| { assert ImmAt(n, s, y, Cq(s, y)[k], Arrived); }
    }
  }

  lemma ExecuteInv(n: nat, s: State, p: Pair)
    requires Inv(n, s) && Enabled(n, s, Execute(p))
    ensures Inv(n, Apply(n, s, Execute(p)))
  {
    var w := Wire(s, p)[0];
    if w.imm.Some? { ExecuteRequestViews(n, s, p, w); } else { ExecuteReplyViews(n, s, p, w); }
    ExecutedInv(n, s, Apply(n, s, Execute(p)), p);
  }

  lemma ExecutedInv(n: nat, s: State, s': State, p: Pair)
    requires Inv(n, s) && Executed(s, s', p)
    ensures Inv(n, s')
  {
    hide RecvSlot, SendSlot, Imm;
    var w := Wire(s, p)[0];
    var t := w.of;
    assert WireOk(n, s, p);
    ExecuteOwn(n, s, s', p);
    assert TidOk(n, s, t);
    var d := CallerOf(s, t).dest;
    ExecuteLocal(n, s, s', p, t, d);
    forall u | IsTid(n, u) ensures TidOk(n, s', u) { if u != t { OthersKept(n, s, s', t, d, u); } }
    forall q ensures WireOk(n, s', q) {
      assert WireOk(n, s, q);
      if q == p {
        WireTail(n, s, s', p);
      } else {
        forall k | 0 <= k < |Wire(s, q)| ensures Wire(s, q)[k].of != t {
          if Wire(s, q)[k].of == t { WireOf(n, s, t, q, k); }
        }
        WireKept(n, s, s', t, q);
      }
    }
    forall y ensures CqOk(n, s', y) { assert CqOk(n, s, y); ExecutedCq(n, s, s', p, t, y); }
    forall y ensures ResponderOk(n, s', y) { assert ResponderOk(n, s, y); ResponderKept(n, s, s', t, y); }
  }

  lemma ExecutedCq(n: nat, s: State, s': State, p: Pair, t: Tid, y: nat)
    requires Executed(s, s', p) && CqOk(n, s, y) && EntryOk(n, s, p, Wire(s, p)[0]) && t == Wire(s, p)[0].of
    ensures CqOk(n, s', y)
  {
    hide RecvSlot, SendSlot, Imm;
    TidImm(n, t);
    NotInCqs(n, s, t, y);
    if Wire(s, p)[0].imm.Some? && y == p.to { CqAppend(n, s, s', t, y, ImmOf(t)); } else { CqKept(n, s, s', t, y); }
  }

  // ---------------------------------------------------------------- the responder

  /** A responder other than the one at `t`'s destination is not about `t`. */
  lemma OtherResponder(n: nat, s: State, s': State, t: Tid, y: nat, z: nat)
    requires ResponderOk(n, s, z) && OnlyTid(s, s', t) && ResponderOf(s', z) == ResponderOf(s, z)
    requires CallerOf(s, t).Waiting? && CallerOf(s, t).dest == y && z != y
    ensures ResponderOk(n, s', z)
  {
  }

  lemma PollLocal(n: nat, s: State, y: nat, d: nat)
    requires Enabled(n, s, Poll(y)) && IsTid(n, TidOf(Cq(s, y)[0])) && IsNode(n, d)
    ensures Local(n, s, Apply(n, s, Poll(y)), TidOf(Cq(s, y)[0]), d)
  {
    var s', t := Apply(n, s, Poll(y)), TidOf(Cq(s, y)[0]);
    Views(s, s');
    TidUpdated(s, s', t);
    CqUpdated(s, s', y);
    ResponderUpdated(s, s', y);
    forall z, imm | imm in Cq(s, z) && TidOf(imm) != t
      ensures imm in Cq(s', z)
    {
      if z == y { TailKeeps(Cq(s, y), imm); }
    }
  }

  lemma CqTail(n: nat, s: State, s': State, y: nat)
    requires CqOk(n, s, y) && Cq(s, y) != [] && OnlyTid(s, s', TidOf(Cq(s, y)[0])) && Cq(s', y) == Cq(s, y)[1..]
    ensures CqOk(n, s', y)
  {
    assert ImmAt(n, s, y, Cq(s, y)[0], Arrived);
    forall k | 0 <= k < |Cq(s', y)|
      ensures ImmAt(n, s', y, Cq(s', y)[k], Arrived)
    {
      assert Cq(s', y)[k] == Cq(s, y)[k + 1];
      assert ImmAt(n, s, y, Cq(s, y)[k + 1], Arrived);
    }
    forall j, k | 0 <= j < k < |Cq(s', y)|
      ensures Cq(s', y)[j] != Cq(s', y)[k]
    {
      assert Cq(s', y)[j] == Cq(s, y)[j + 1] && Cq(s', y)[k] == Cq(s, y)[k + 1];
    }
  }

  lemma PollInv(n: nat, s: State, y: nat)
    requires Inv(n, s) && Enabled(n, s, Poll(y))
    ensures Inv(n, Apply(n, s, Poll(y)))
  {
    var s', imm := Apply(n, s, Poll(y)), Cq(s, y)[0];
    var t := TidOf(imm);
    assert CqOk(n, s, y);
    assert ImmAt(n, s, y, imm, Arrived);
    assert TidOk(n, s, t);
    PollLocal(n, s, y, y);
    Views(s, s');
    assert TidOk(n, s', t);
    forall u | IsTid(n, u) ensures TidOk(n, s', u) { if u != t { OthersKept(n, s, s', t, y, u); } }
    forall q ensures WireOk(n, s', q) { assert WireOk(n, s, q); NotOnWires(n, s, t, q); WireKept(n, s, s', t, q); }
    CqUpdated(s, s', y);
    forall z ensures CqOk(n, s', z) {
      assert CqOk(n, s, z);
      if z == y {
        CqTail(n, s, s', y);
      } else {
        forall k | 0 <= k < |Cq(s, z)| ensures TidOf(Cq(s, z)[k]) != t { assert ImmAt(n, s, z, Cq(s, z)[k], Arrived); }
        CqKept(n, s, s', t, z);
      }
    }
    ResponderUpdated(s, s', y);
    forall z ensures ResponderOk(n, s', z) {
      assert ResponderOk(n, s, z);
      if z != y { OtherResponder(n, s, s', t, y, z); }
    }
  }

  /** What answering a request changes, or dropping one that has no answer. */
  ghost predicate Handled(n: nat, s: State, s': State, y: nat, t: Tid)
    requires IsTid(n, t) && IsNode(n, y)
  {
    && OnlyTid(s, s', t) && SameWires(s, s') && SameCqs(s, s') && RespondersBut(s, s', y)
    && CallerOf(s', t) == CallerOf(s, t) && SentBy(s', t) == SentBy(s, t) && Calls(s', t) == Calls(s, t)
    && if Mem(s, SlotLoc(n, t, y)).message.Test? then
         && MemBut(s, s', SlotLoc(n, t, y), SlotLoc(n, t, y))
             && Mem(s', SlotLoc(n, t, y)) == ReplyTo(Mem(s, SlotLoc(n, t, y)))
         && PhaseOf(s', t).Replying? && ResponderOf(s', y) == Overwritten(t.node, t.off)
             && Answered(s', t) == Answered(s, t) + 1
       else
         && SameMem(s, s') && PhaseOf(s', t).Silent? && ResponderOf(s', y).Polling? && Answered(s', t) == Answered(s, t)
  }

  lemma HandleTestViews(n: nat, s: State, y: nat, t: Tid)
    requires Enabled(n, s, Handle(y)) && ImmAt(n, s, y, ResponderOf(s, y).imm, Serving) && IsNode(n, y)
    requires t == TidOf(ResponderOf(s, y).imm) && Mem(s, SlotLoc(n, t, y)).message.Test?
    ensures Handled(n, s, Apply(n, s, Handle(y)), y, t) && Apply(n, s, Handle(y)).lost == s.lost
  {
    hide UnlockMark, ImmNode, ImmOffset, Imm;
    var slot := SlotLoc(n, t, y);
    var s' := s.(mem := s.mem[slot := ReplyTo(Mem(s, slot))], responders := s.responders[y := Overwritten(t.node,
        t.off)],
                 phase := s.phase[t := Replying], answered := s.answered[t := Answered(s, t) + 1]);
    assert s' == Apply(n, s, Handle(y));
    Views(s, s');
    TidUpdated(s, s', t);
    MemSet(s, s', slot, ReplyTo(Mem(s, slot)));
    ResponderUpdated(s, s', y);
  }

  lemma HandleOtherViews(n: nat, s: State, y: nat, t: Tid)
    requires Enabled(n, s, Handle(y)) && ImmAt(n, s, y, ResponderOf(s, y).imm, Serving) && IsNode(n, y)
    requires t == TidOf(ResponderOf(s, y).imm) && !Mem(s, SlotLoc(n, t, y)).message.Test?
    ensures Handled(n, s, Apply(n, s, Handle(y)), y, t)
    ensures Apply(n, s, Handle(y)).lost == s.lost[Pair(t.node, y) := Lost(s, Pair(t.node, y)) + 1]
  {
    hide UnlockMark, ImmNode, ImmOffset, Imm;
    var s' := s.(responders := s.responders[y := Polling], phase := s.phase[t := Silent],
                 lost := s.lost[Pair(t.node, y) := Lost(s, Pair(t.node, y)) + 1]);
    assert s' == Apply(n, s, Handle(y));
    Views(s, s');
    PhaseSet(s, s', t, Silent);
    ResponderUpdated(s, s', y);
  }

  lemma HandledLocal(n: nat, s: State, s': State, y: nat, t: Tid)
    requires IsTid(n, t) && IsNode(n, y) && y != t.node && Handled(n, s, s', y, t) && TidOk(n, s, t)
    requires ResponderOf(s, y) == Got(ImmOf(t)) && PhaseOf(s, t).Serving? && CallerOf(s, t).dest == y
    ensures Local(n, s, s', t, y) && TidOk(n, s', t)
  {
    hide RecvSlot, SendSlot, Imm;
    TidImm(n, t);
    OwnLocsDistinct(n, t, y);
  }

  lemma ResponderStep(n: nat, s: State, s': State, t: Tid, y: nat)
    requires Inv(n, s) && IsTid(n, t) && IsNode(n, y) && y != t.node && Local(n, s, s', t, y) && TidOk(n, s', t)
    requires CallerOf(s, t).Waiting? && CallerOf(s, t).dest == y && !PhaseOf(s, t).Arrived?
    requires SameCqs(s, s') && RespondersBut(s, s', y) && ResponderOk(n, s', y)
    requires forall q :: WireOk(n, s', q)
    ensures Inv(n, s')
  {
    forall u | IsTid(n, u) ensures TidOk(n, s', u) { if u != t { OthersKept(n, s, s', t, y, u); } }
    forall z ensures CqOk(n, s', z) { assert CqOk(n, s, z); NotInCqs(n, s, t, z); CqKept(n, s, s', t, z); }
    forall z ensures ResponderOk(n, s', z) {
      assert ResponderOk(n, s, z);
      if z != y { OtherResponder(n, s, s', t, y, z); }
    }
  }

  lemma HandleInv(n: nat, s: State, y: nat)
    requires Inv(n, s) && Enabled(n, s, Handle(y))
    ensures Inv(n, Apply(n, s, Handle(y)))
  {
    var s' := Apply(n, s, Handle(y));
    assert ResponderOk(n, s, y);
    var t := TidOf(ResponderOf(s, y).imm);
    assert TidOk(n, s, t);
    if Mem(s, SlotLoc(n, t, y)).message.Test? { HandleTestViews(n, s, y, t); } else { HandleOtherViews(n, s, y, t); }
    HandledLocal(n, s, s', y, t);
    forall q ensures WireOk(n, s', q) { assert WireOk(n, s, q); NotOnWires(n, s, t, q); WireKept(n, s, s', t, q); }
    ResponderStep(n, s, s', t, y);
  }

  lemma ReplyLocal(n: nat, s: State, y: nat, t: Tid)
    requires Enabled(n, s, Reply(y)) && ResponderOf(s, y) == Overwritten(t.node, t.off) && IsNode(n, y)
    requires TidOk(n, s, t) && ResponderOk(n, s, y)
    ensures var s' := Apply(n, s, Reply(y));
      && Local(n, s, s', t, y) && TidOk(n, s', t)
      && WiresBut(s, s', Pair(y, t.node)) && Wire(s', Pair(y, t.node)) == Wire(s, Pair(y, t.node)) + [ReplyWr(n, t)]
      && SameCqs(s, s') && RespondersBut(s, s', y)
  {
    var s', p := Apply(n, s, Reply(y)), Pair(y, t.node);
    Views(s, s');
    TidUpdated(s, s', t);
    WireUpdated(s, s', p);
    ResponderUpdated(s, s', y);
    assert Wire(s', p)[|Wire(s, p)|] == ReplyWr(n, t);
  }

  lemma ReplyInv(n: nat, s: State, y: nat)
    requires Inv(n, s) && Enabled(n, s, Reply(y))
    ensures Inv(n, Apply(n, s, Reply(y)))
  {
    var s', t := Apply(n, s, Reply(y)), Tid(ResponderOf(s, y).node, ResponderOf(s, y).off);
    assert ResponderOk(n, s, y);
    assert TidOk(n, s, t);
    ReplyLocal(n, s, y, t);
    forall q ensures WireOk(n, s', q) {
      assert WireOk(n, s, q);
      NotOnWires(n, s, t, q);
      if q == Pair(y, t.node) { WireAppend(n, s, s', t, q, ReplyWr(n, t)); } else { WireKept(n, s, s', t, q); }
    }
    ResponderStep(n, s, s', t, y);
  }

  lemma RepostInv(n: nat, s: State, y: nat)
    requires Inv(n, s) && Enabled(n, s, Repost(y))
    ensures Inv(n, Apply(n, s, Repost(y)))
  {
    var s' := Apply(n, s, Repost(y));
    Views(s, s');
    ResponderUpdated(s, s', y);
    var nobody := Tid(0, 0);
    TidUpdated(s, s', nobody);
    forall u | IsTid(n, u) ensures TidOk(n, s', u) {
      assert TidOk(n, s, u);
      TidFrame(n, s, s', nobody, u);
    }
    forall q ensures WireOk(n, s', q) {
      assert WireOk(n, s, q);
      forall k | 0 <= k < |Wire(s, q)| ensures Wire(s, q)[k].of != nobody { assert EntryOk(n, s, q, Wire(s, q)[k]); }
      WireKept(n, s, s', nobody, q);
    }
    forall z ensures CqOk(n, s', z) {
      assert CqOk(n, s, z);
      forall k | 0 <= k < |Cq(s, z)| ensures TidOf(Cq(s, z)[k]) != nobody { assert ImmAt(n, s, z, Cq(s, z)[k],
          Arrived); }
      CqKept(n, s, s', nobody, z);
    }
    forall z ensures ResponderOk(n, s', z) { assert ResponderOk(n, s, z); }
  }

  lemma StepInv(n: nat, s: State, step: Step)
    requires Inv(n, s) && Enabled(n, s, step)
    ensures Inv(n, Apply(n, s, step))
  {
    match step {
      case Prepare(t, dest, msg, path) => PrepareInv(n, s, t, dest, msg, path);
      case Post(t) => PostInv(n, s, t);
      case Return(t) => ReturnInv(n, s, t);
      case Execute(p) => ExecuteInv(n, s, p);
      case Poll(y) => PollInv(n, s, y);
      case Handle(y) => HandleInv(n, s, y);
      case Reply(y) => ReplyInv(n, s, y);
      case Repost(y) => RepostInv(n, s, y);
    }
  }

  lemma {:induction false} RunInv(n: nat, steps: seq<Step>)
    requires Run(n, Start, steps)
    ensures Inv(n, Exec(n, Start, steps))
    decreases |steps|
  {
    if steps != [] {
      var k := |steps| - 1;
      RunInv(n, steps[..k]);
      StepInv(n, Exec(n, Start, steps[..k]), steps[k]);
    }
  }

  // ---------------------------------------------------------------- what a caller sees

  /** In every reachable state a call that is about to return finds the reply to itself, was answered exactly
      once, and its earlier calls were too; and a call that was never answered cannot return. */
  lemma {:induction false} ReturnsOwnReply(n: nat, steps: seq<Step>, t: Tid)
    requires Run(n, Start, steps) && Enabled(n, Exec(n, Start, steps), Return(t))
    ensures var s := Exec(n, Start, steps);
      Result(n, s, t) == Msg(Response, CallerOf(s, t).id, "4321") && Answered(s, t) == Calls(s, t)
  {
    RunInv(n, steps);
    assert TidOk(n, Exec(n, Start, steps), t);
  }

  /** In every reachable state every thread's requests are answered at most once, and the one outstanding
      request, if any, is in exactly the place its phase names. */
  lemma {:induction false} AnsweredOnce(n: nat, steps: seq<Step>, t: Tid)
    requires Run(n, Start, steps) && IsTid(n, t)
    ensures var s := Exec(n, Start, steps); Answered(s, t) <= Calls(s, t) <= Answered(s, t) + 1
    ensures var s := Exec(n, Start, steps); CallerOf(s, t).Idle? ==> Answered(s, t) == Calls(s, t)
  {
    RunInv(n, steps);
    assert TidOk(n, Exec(n, Start, steps), t);
  }

  /** The request that a responder serves is the message that its caller sent, whole and under its own task id. */
  lemma {:induction false} ServedAsSent(n: nat, steps: seq<Step>, y: nat)
    requires Run(n, Start, steps) && Enabled(n, Exec(n, Start, steps), Handle(y))
    ensures var s := Exec(n, Start, steps);
      var t := TidOf(ResponderOf(s, y).imm);
      && IsTid(n, t) && CallerOf(s, t).Waiting? && CallerOf(s, t).dest == y
      && Mem(s, Loc(y, RecvSlot(n, t.node, t.off))) == SentBy(s, t) && SentBy(s, t).taskID == CallerOf(s, t).id
  {
    RunInv(n, steps);
    var s := Exec(n, Start, steps);
    assert ResponderOk(n, s, y);
    assert TidOk(n, s, TidOf(ResponderOf(s, y).imm));
  }
}
