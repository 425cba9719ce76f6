/** The layout of a server's registered memory, the slot address functions, and the 32-bit immediate. */
module Addressing {

  const CLIENT_MESSAGE_SIZE: nat := 1024
  const MAX_CLIENT_NUMBER: nat := 24
  const SERVER_MESSAGE_SIZE: nat := 1024
  const SERVER_MESSAGE_NUM: nat := 8
  const METADATA_SIZE: nat := 1024
  const BLOCK_SIZE: nat := 4096

  /** A MemoryManager: where its memory starts and how many servers there are. */
  datatype Layout = Layout(base: nat, serverCount: nat) {

    function ClientBase(): nat { base }

    function ServerSendBase(): nat { base + CLIENT_MESSAGE_SIZE * MAX_CLIENT_NUMBER }

    function ServerRecvBase(): nat { ServerSendBase() + SERVER_MESSAGE_SIZE * SERVER_MESSAGE_NUM * serverCount }

    function MetadataBase(): nat { ServerRecvBase() + SERVER_MESSAGE_SIZE * SERVER_MESSAGE_NUM * serverCount }

    /** Computed from the start of the receive region, not from the end of the metadata. */
    function DataBase(): nat { ServerRecvBase() + METADATA_SIZE }

    function ServerSendAddress(node: nat, offset: nat): nat
      requires node >= 1
    {
      ServerSendBase() + (node - 1) * SERVER_MESSAGE_SIZE * SERVER_MESSAGE_NUM + offset * SERVER_MESSAGE_SIZE
    }

    function ServerRecvAddress(node: nat, offset: nat): nat
      requires node >= 1
    {
      ServerRecvBase() + (node - 1) * SERVER_MESSAGE_SIZE * SERVER_MESSAGE_NUM + offset * SERVER_MESSAGE_SIZE
    }

    function ClientMessageAddress(node: nat): nat
      requires node > serverCount
    {
      ClientBase() + (node - serverCount - 1) * CLIENT_MESSAGE_SIZE
    }

    predicate IsServer(node: nat) { 1 <= node <= serverCount }

    /** A client identifier that has a message slot of its own. */
    predicate IsClient(node: nat) { serverCount < node <= serverCount + MAX_CLIENT_NUMBER }
  }

  // ---------------------------------------------------------------- slots

  datatype Slot = Client(node: nat) | Send(node: nat, offset: nat) | Recv(node: nat, offset: nat)

  predicate ValidSlot(l: Layout, s: Slot) {
    match s
    case Client(n) => l.IsClient(n)
    case Send(n, o) => l.IsServer(n) && o < SERVER_MESSAGE_NUM
    case Recv(n, o) => l.IsServer(n) && o < SERVER_MESSAGE_NUM
  }

  function SlotAddress(l: Layout, s: Slot): nat
    requires ValidSlot(l, s)
  {
    match s
    case Client(n) => l.ClientMessageAddress(n)
    case Send(n, o) => l.ServerSendAddress(n, o)
    case Recv(n, o) => l.ServerRecvAddress(n, o)
  }

  /** Where the slots are: 24 slots of clients, then 8 for each server to send from, then 8 for each to receive in, of
      1 KB each, by node and then by worker. */
  lemma SlotAddresses(l: Layout, s: Slot)
    requires ValidSlot(l, s)
    ensures SlotAddress(l, s) == match s
      case Client(n) => l.base + (n - l.serverCount - 1) * 1024
      case Send(n, o) => l.base + 24576 + (n - 1) * 8192 + o * 1024
      case Recv(n, o) => l.base + 24576 + l.serverCount * 8192 + (n - 1) * 8192 + o * 1024
    ensures l.MetadataBase() == l.base + 24576 + l.serverCount * 16384
    ensures l.DataBase() == l.base + 24576 + l.serverCount * 8192 + 1024
    ensures s.Client? ==> s.node - l.serverCount <= 24
    ensures !s.Client? ==> s.offset < 8
  {
  }

  /** Different slots of one node never share a byte: all slots are of the same size. */
  lemma SlotsDisjoint(l: Layout, a: Slot, b: Slot)
    requires ValidSlot(l, a) && ValidSlot(l, b) && a != b
    ensures SlotAddress(l, a) + CLIENT_MESSAGE_SIZE <= SlotAddress(l, b)
         || SlotAddress(l, b) + CLIENT_MESSAGE_SIZE <= SlotAddress(l, a)
    ensures l.base <= SlotAddress(l, a) && SlotAddress(l, a) + CLIENT_MESSAGE_SIZE <= l.MetadataBase()
  {
  }

  /** A client beyond the slots writes into the region where the server stages its own requests: the address is
      outside the client slots exactly when the identifier is too large. */
  lemma ClientSlotIff(l: Layout, node: nat)
    requires node > l.serverCount
    ensures l.IsClient(node) <==> l.ClientMessageAddress(node) + CLIENT_MESSAGE_SIZE <= l.ServerSendBase()
  {
  }

  // ---------------------------------------------------------------- the immediate

  const TWO16: nat := 0x1_0000
  const TWO32: nat := 0x1_0000_0000

  /** Unsigned 32-bit shifts and the conversion to 16 bits. */
  function Shl32(x: nat, k: nat): nat
    requires k == 16
  {
    x * TWO16 % TWO32
  }

  function Shr32(x: nat, k: nat): nat
    requires k == 16 || k == 20
  {
    if k == 16 then x / TWO16 else x / 0x10_0000
  }

  function ToUint16(x: nat): nat { x % TWO16 }

  /** The immediate that the caller builds: its node number plus the offset shifted left by 16. */
  function Imm(node: nat, offset: nat): nat
    requires node < TWO16 && offset < TWO16
  {
    (node + Shl32(offset, 16)) % TWO32
  }

  /** The three things the poller extracts. */
  function UnlockMark(imm: nat): nat { ToUint16(Shr32(imm, 20)) }
  function ImmNode(imm: nat): nat { ToUint16(Shr32(Shl32(imm, 16), 16)) }
  function ImmOffset(imm: nat): nat { ToUint16(Shr32(imm, 16)) }

  /** Every node and offset survive the immediate; it is taken for an unlock exactly when the offset reaches
      0xFFF0, which no slot offset does. */
  lemma ImmRoundTrip(node: nat, offset: nat)
    requires node < TWO16 && offset < TWO16
    ensures Imm(node, offset) < TWO32
    ensures ImmNode(Imm(node, offset)) == node && ImmOffset(Imm(node, offset)) == offset
    ensures UnlockMark(Imm(node, offset)) == 0xFFF <==> offset >= 0xFFF0
  {
    var imm := Imm(node, offset);
    assert imm == node + offset * TWO16;
    assert imm / TWO16 == offset && imm % TWO16 == node;
    assert imm * TWO16 == node * TWO16 + offset * TWO32;
    assert Shl32(imm, 16) == node * TWO16;
    assert UnlockMark(imm) == offset / 16;
  }

  // ---------------------------------------------------------------- both ends of a call

  /** Where the caller tells the NIC to write, relative to the remote registered memory. */
  function RequestTarget(l: Layout, isServer: bool, self: nat, offset: nat): nat
    requires if isServer then l.IsServer(self) else self > l.serverCount
  {
    if isServer then l.ServerRecvAddress(self, offset) - l.base
    else (self - l.serverCount - 1) * CLIENT_MESSAGE_SIZE
  }

  /** Where the responder looks for the request, and where it lets the reply be written at the caller. */
  function ResponderSlot(l: Layout, node: nat, offset: nat): nat
    requires node >= 1
  {
    if node <= l.serverCount then l.ServerRecvAddress(node, offset) else l.ClientMessageAddress(node)
  }

  function ReplyTarget(l: Layout, node: nat, slot: nat): int {
    if 1 <= node <= l.serverCount then slot - l.base else 0
  }

  /** Where the caller polls, relative to its own registered memory. */
  function PollTarget(l: Layout, isServer: bool, self: nat, offset: nat): nat
    requires isServer ==> l.IsServer(self)
  {
    if isServer then l.ServerRecvAddress(self, offset) - l.base else 0
  }

  /** The slot that the responder computes from the immediate is the slot that the sender wrote, and the reply
      lands in the slot that the sender polls, whatever the two base addresses are. */
  lemma EndToEnd(caller: Layout, responder: Layout, isServer: bool, self: nat, offset: nat)
    requires caller.serverCount == responder.serverCount && self < TWO16 && offset < SERVER_MESSAGE_NUM
    requires if isServer then caller.IsServer(self) else caller.IsClient(self) && offset == 0
    ensures var imm := Imm(self, offset);
      var node, off := ImmNode(imm), ImmOffset(imm);
      && UnlockMark(imm) != 0xFFF && node == self && off == offset
      && ResponderSlot(responder, node, off) == responder.base + RequestTarget(caller, isServer, self, offset)
      && ReplyTarget(responder, node, ResponderSlot(responder, node, off)) == PollTarget(caller, isServer, self, offset)
  {
    ImmRoundTrip(self, offset);
  }

  // ---------------------------------------------------------------- the data region

  /** Where a client believes the data region starts, relative to the registered memory. */
  function ClientDataOffset(serverCount: nat): nat {
    CLIENT_MESSAGE_SIZE * MAX_CLIENT_NUMBER + SERVER_MESSAGE_SIZE * SERVER_MESSAGE_NUM * serverCount + METADATA_SIZE
  }

  predicate Overlap(a: nat, n: nat, b: nat, m: nat) {
    a < b + m && b < a + n
  }

  /** Both sides agree on the start of the data, but that start lies inside the receive region: a data block
      shares bytes with a receive slot exactly when the slot reaches beyond the first 1 KB of the region and
      the block starts before the slot ends. */
  lemma DataOverlapsRecvIff(l: Layout, node: nat, offset: nat, block: nat)
    requires ValidSlot(l, Recv(node, offset))
    ensures l.DataBase() == l.base + ClientDataOffset(l.serverCount)
    ensures var slot, data := l.ServerRecvAddress(node, offset), l.DataBase() + block * BLOCK_SIZE;
      Overlap(slot, SERVER_MESSAGE_SIZE, data, BLOCK_SIZE)
      <==> (node != 1 || offset != 0) && block == ((node - 1) * SERVER_MESSAGE_NUM + offset - 1) / 4
  {
    var slot, data := l.ServerRecvAddress(node, offset), l.DataBase() + block * BLOCK_SIZE;
    var k := (node - 1) * SERVER_MESSAGE_NUM + offset - 1;
    assert slot == l.DataBase() + k * 1024;
    assert 4 * (k / 4) <= k < 4 * (k / 4) + 4;
  }

  /** So every receive slot but the very first is inside some data block as soon as there is a server. */
  lemma RecvSlotsOverwritten(l: Layout, node: nat, offset: nat)
    requires ValidSlot(l, Recv(node, offset)) && (node != 1 || offset != 0)
    ensures exists block: nat ::
      l.DataBase() + block * BLOCK_SIZE <= l.ServerRecvAddress(node, offset) < l.DataBase() + (block + 1) * BLOCK_SIZE
  {
    var block := ((node - 1) * SERVER_MESSAGE_NUM + offset - 1) / 4;
    assert l.DataBase() + block * BLOCK_SIZE <= l.ServerRecvAddress(node,
        offset) < l.DataBase() + (block + 1) * BLOCK_SIZE;
  }
}
