/** The requests of the protocol between servers are those that one batch write of one request posts. */
module RpcPosts {
  import opened Addressing
  import opened RpcServer
  import S = Signalling

  /** A posted request as the protocol has it, for a call of thread `t`. */
  function AsWr(r: S.Request, t: Tid): Wr { Wr(r.local, r.remote, r.imm, t) }

  /** RdmaCall posts the protocol's request by one batch write with the immediate of its thread, and the responder its
      reply by one without an immediate, from the slot to the same slot. */
  lemma BatchPosts(n: nat, t: Tid, dest: nat, c: nat)
    requires IsTid(n, t) && IsNode(n, dest) && dest != t.node
    ensures var imm := t.node + t.off * 65536;
      var list := S.Requests(S.Write(SendSlot(n, dest, t.off), RecvSlot(n, t.node, t.off), imm), c, 1);
      |list| == 1 && AsWr(list[0], t) == RequestWr(n, t, dest) && list[0].opcode == S.RdmaWriteWithImm
    ensures var slot := RecvSlot(n, t.node, t.off);
      var list := S.Requests(S.Write(slot, slot, 0), c, 1);
      |list| == 1 && AsWr(list[0], t) == ReplyWr(n, t) && list[0].opcode == S.RdmaWrite
  {
    hide SendSlot, RecvSlot;
    assert Imm(t.node, t.off) == t.node + t.off * 65536;
    S.RequestsTold(S.Write(SendSlot(n, dest, t.off), RecvSlot(n, t.node, t.off), t.node + t.off * 65536), c, 1);
    S.RequestsTold(S.Write(RecvSlot(n, t.node, t.off), RecvSlot(n, t.node, t.off), 0), c, 1);
  }
}
