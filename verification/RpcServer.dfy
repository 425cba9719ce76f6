/** Remote calls between servers: RdmaCall at the sender, RequestPoller and ProcessRequest at the responder, and
    the NIC between them, as a state machine over real addresses and immediates.

    `phase`, `sent`, `calls`, `answered`,
        `lost` and the field `of` of a work request are history: no step reads them. */
module RpcServer {
  import opened Wrappers
  import opened Addressing
  import opened Messages

  datatype Msg = Msg(message: Message, taskID: nat, path: string)

  /** A thread of server `node` whose worker id is `off`. */
  datatype Tid = Tid(node: nat, off: nat)

  /** A relative address in the registered memory of a server. */
  datatype Loc = Loc(node: nat, addr: nat)

  datatype Pair = Pair(from: nat, to: nat)

  /** An RDMA write: where the data is read when it executes, where it goes, and the immediate if any. */
  datatype Wr = Wr(src: nat, dst: nat, imm: Option<nat>, of: Tid)

  datatype Caller = Idle | Prepared(dest: nat, id: nat) | Waiting(dest: nat, id: nat)

  datatype Responder = Polling | Got(imm: nat) | Overwritten(node: nat, off: nat) | Sent(node: nat, off: nat)

  datatype Phase = Rest | Ready | OnWire | Arrived | Serving | Replying | OnWayBack | Back | Silent

  datatype State = State(
    mem: map<Loc, Msg>,
    taskIDs: map<nat, nat>,
    callers: map<Tid, Caller>,
    wires: map<Pair, seq<Wr>>,
    cqs: map<nat, seq<nat>>,
    responders: map<nat, Responder>,
    credits: map<Pair, int>,
    phase: map<Tid, Phase>,
    sent: map<Tid, Msg>,
    calls: map<Tid, nat>,
    answered: map<Tid, nat>,
    lost: map<Pair, nat>)

  datatype Step =
    | Prepare(t: Tid, dest: nat, msg: Message, path: string)
    | Post(t: Tid)
    | Return(t: Tid)
    | Execute(p: Pair)
    | Poll(y: nat)
    | Handle(y: nat)
    | Reply(y: nat)
    | Repost(y: nat)

  /** Entries that are absent have the value that the program starts with. */
  const Zero: Msg := Msg(Other, 0, "")

  function Mem(s: State, l: Loc): Msg { if l in s.mem then s.mem[l] else Zero }
  function CallerOf(s: State, t: Tid): Caller { if t in s.callers then s.callers[t] else Idle }
  function Wire(s: State, p: Pair): seq<Wr> { if p in s.wires then s.wires[p] else [] }
  function Cq(s: State, y: nat): seq<nat> { if y in s.cqs then s.cqs[y] else [] }
  function ResponderOf(s: State, y: nat): Responder { if y in s.responders then s.responders[y] else Polling }
  function Credits(s: State, p: Pair): int { if p in s.credits then s.credits[p] else DEPTH }
  function PhaseOf(s: State, t: Tid): Phase { if t in s.phase then s.phase[t] else Rest }
  function SentBy(s: State, t: Tid): Msg { if t in s.sent then s.sent[t] else Zero }
  function Calls(s: State, t: Tid): nat { if t in s.calls then s.calls[t] else 0 }
  function Answered(s: State, t: Tid): nat { if t in s.answered then s.answered[t] else 0 }
  function Lost(s: State, p: Pair): nat { if p in s.lost then s.lost[p] else 0 }

  /** Only relative addresses matter, so every server's layout is taken at base 0. */
  function Area(n: nat): Layout { Layout(0, n) }

  predicate IsNode(n: nat, a: nat) { 1 <= a <= n && a < TWO16 }
  predicate IsTid(n: nat, t: Tid) { IsNode(n, t.node) && t.off < SERVER_MESSAGE_NUM }

  function RecvSlot(n: nat, a: nat, off: nat): nat
    requires a >= 1
  {
    Area(n).ServerRecvAddress(a, off)
  }

  function SendSlot(n: nat, dest: nat, off: nat): nat
    requires dest >= 1
  {
    Area(n).ServerSendAddress(dest, off)
  }

  /** The request of thread `t` to `dest`. */
  function RequestWr(n: nat, t: Tid, dest: nat): Wr
    requires IsTid(n, t) && dest >= 1
  {
    Wr(SendSlot(n, dest, t.off), RecvSlot(n, t.node, t.off), Some(Imm(t.node, t.off)), t)
  }

  /** The reply for thread `t`; it carries no immediate, so it consumes no receive. */
  function ReplyWr(n: nat, t: Tid): Wr
    requires IsTid(n, t)
  {
    Wr(RecvSlot(n, t.node, t.off), RecvSlot(n, t.node, t.off), None, t)
  }

  function ReplyTo(m: Msg): Msg { Msg(Response, m.taskID, "4321") }

  predicate Enabled(n: nat, s: State, step: Step) {
    match step
    case Prepare(t, dest, _, _) => IsTid(n, t) && IsNode(n, dest) && dest != t.node && CallerOf(s, t).Idle?
    case Post(t) => IsTid(n, t) && CallerOf(s, t).Prepared? && CallerOf(s, t).dest >= 1
    case Return(t) =>
      IsTid(n, t) && CallerOf(s, t).Waiting? && Mem(s, Loc(t.node, RecvSlot(n, t.node, t.off))).message.Response?
    case Execute(p) => Wire(s, p) != [] && (Wire(s, p)[0].imm.Some? ==> Credits(s, p) > 0)
    case Poll(y) => ResponderOf(s, y).Polling? && Cq(s, y) != []
    case Handle(y) =>
      ResponderOf(s, y).Got? && (UnlockMark(ResponderOf(s, y).imm) != 0xFFF ==>
          IsNode(n, ImmNode(ResponderOf(s, y).imm)))
    case Reply(y) => ResponderOf(s, y).Overwritten? && IsTid(n, Tid(ResponderOf(s, y).node, ResponderOf(s, y).off))
    case Repost(y) => ResponderOf(s, y).Sent?
  }

  /** The value that a returning call copies out. */
  function Result(n: nat, s: State, t: Tid): Msg
    requires IsTid(n, t)
  {
    Mem(s, Loc(t.node, RecvSlot(n, t.node, t.off)))
  }

  function Apply(n: nat, s: State, step: Step): State
    requires Enabled(n, s, step)
  {
    match step
    case Prepare(t, dest, msg, path) =>
      var id := if t.node in s.taskIDs then s.taskIDs[t.node] else 1;
      var back := Loc(t.node, RecvSlot(n, t.node, t.off));
      s.(taskIDs := s.taskIDs[t.node := (id + 1) % TWO32],
         mem := s.mem[back := Mem(s, back).(message := Invalid)][Loc(t.node, SendSlot(n, dest, t.off)) := Msg(msg, id,
             path)],
         callers := s.callers[t := if NeverPosted(msg) then Idle else Prepared(dest, id)],
         phase := s.phase[t := if NeverPosted(msg) then Rest else Ready],
         sent := s.sent[t := Msg(msg, id, path)])
    case Post(t) =>
      var c, p := CallerOf(s, t), Pair(t.node, CallerOf(s, t).dest);
      s.(wires := s.wires[p := Wire(s, p) + [RequestWr(n, t, c.dest)]],
         callers := s.callers[t := Waiting(c.dest, c.id)],
         phase := s.phase[t := OnWire],
         calls := s.calls[t := Calls(s, t) + 1])
    case Return(t) =>
      s.(callers := s.callers[t := Idle], phase := s.phase[t := Rest])
    case Execute(p) =>
      var wr := Wire(s, p)[0];
      var s1 := s.(wires := s.wires[p := Wire(s, p)[1..]],
                   mem := s.mem[Loc(p.to, wr.dst) := Mem(s, Loc(p.from, wr.src))],
                   phase := s.phase[wr.of := if wr.imm.Some? then Arrived else Back]);
      if wr.imm.Some? then
        s1.(credits := s.credits[p := Credits(s, p) - 1], cqs := s.cqs[p.to := Cq(s, p.to) + [wr.imm.value]])
      else s1
    case Poll(y) =>
      var imm := Cq(s, y)[0];
      s.(cqs := s.cqs[y := Cq(s, y)[1..]], responders := s.responders[y := Got(imm)],
         phase := s.phase[Tid(ImmNode(imm), ImmOffset(imm)) := Serving])
    case Handle(y) =>
      var imm := ResponderOf(s, y).imm;
      if UnlockMark(imm) == 0xFFF then s.(responders := s.responders[y := Polling])
      else
        var t := Tid(ImmNode(imm), ImmOffset(imm));
        var slot := Loc(y, RecvSlot(n, t.node, t.off));
        if Mem(s, slot).message.Test? then
          s.(mem := s.mem[slot := ReplyTo(Mem(s, slot))],
             responders := s.responders[y := Overwritten(t.node, t.off)],
             phase := s.phase[t := Replying],
             answered := s.answered[t := Answered(s, t) + 1])
        else
          s.(responders := s.responders[y := Polling],
             phase := s.phase[t := Silent],
             lost := s.lost[Pair(t.node, y) := Lost(s, Pair(t.node, y)) + 1])
    case Reply(y) =>
      var t := Tid(ResponderOf(s, y).node, ResponderOf(s, y).off);
      var p := Pair(y, t.node);
      s.(wires := s.wires[p := Wire(s, p) + [ReplyWr(n, t)]],
         responders := s.responders[y := Sent(t.node, t.off)],
         phase := s.phase[t := OnWayBack])
    case Repost(y) =>
      var p := Pair(ResponderOf(s, y).node, y);
      s.(credits := s.credits[p := Credits(s, p) + 1], responders := s.responders[y := Polling])
  }

  ghost predicate Run(n: nat, s: State, steps: seq<Step>)
    decreases |steps|, 0
  {
    steps == [] ||
    (Run(n, s, steps[..|steps| - 1]) && Enabled(n, Exec(n, s, steps[..|steps| - 1]), steps[|steps| - 1]))
  }

  ghost function Exec(n: nat, s: State, steps: seq<Step>): State
    requires Run(n, s, steps)
    decreases |steps|, 1
  {
    if steps == [] then s else Apply(n, Exec(n, s, steps[..|steps| - 1]), steps[|steps| - 1])
  }

  const Start: State := State(map[], map[], map[], map[], map[], map[], map[], map[], map[], map[], map[], map[])
}
