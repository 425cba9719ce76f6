/** Which completion queue a server gives to the queue pairs of each connection, and so which worker serves it. */
module CqAssign {
  import opened PartSplit
  import opened Wrappers

  /** The completion queue of the client that is the `m`-th to connect, counting from 0. */
  function CqOf(cqNum: nat, m: nat): nat
    requires cqNum >= 2
  {
    if m == 0 then 1 else if CqOf(cqNum, m - 1) + 1 >= cqNum then 1 else CqOf(cqNum, m - 1) + 1
  }

  class RdmaSocket {
    const cqNum: nat
    const serverCount: nat
    var cqPtr: nat
    /** Clients that have connected so far, as far as their queue pairs were created. */
    ghost var clients: nat

    ghost predicate Valid()
      reads this
    {
      cqNum >= 1 && cqPtr == if clients == 0 then 0 else if cqNum >= 2 then CqOf(cqNum, clients - 1) else 1
    }

    constructor (n: nat, servers: nat)
      requires n >= 1
      ensures Valid() && clients == 0 && cqNum == n && serverCount == servers
    {
      cqNum, serverCount, cqPtr, clients := n, servers, 0, 0;
    }

    predicate IsServer(node: nat) { 0 < node <= serverCount }

    /** The index into the array of completion queues, or nothing when it is outside the array. */
    method CreateQueuePair(node: nat, offset: nat) returns (cq: Option<nat>)
      requires Valid()
      modifies this
      ensures Valid() && clients == old(clients) + if offset == 0 && !IsServer(node) then 1 else 0
      ensures IsServer(node) ==> cq == Some(0) && cqPtr == old(cqPtr)
      ensures !IsServer(node) ==> cq == if cqPtr < cqNum then Some(cqPtr) else None
      ensures !IsServer(node) && offset > 0 ==> cqPtr == old(cqPtr)
    {
      if IsServer(node) { return Some(0); }
      if offset == 0 {
        cqPtr := cqPtr + 1;
        if cqPtr >= cqNum { cqPtr := 1; }
        if cqNum >= 2 { CqInRange(cqNum, clients); }
        clients := clients + 1;
      }
      cq := if cqPtr < cqNum then Some(cqPtr) else None;
    }

    /** The queue pairs of one connection: two for a server, three for a client. With at least two completion queues
        the three of a client share one that is never the first; with a single one the index is outside the array. */
    method Connect(node: nat) returns (cqs: seq<Option<nat>>)
      requires Valid()
      modifies this
      ensures Valid() && clients == old(clients) + if IsServer(node) then 0 else 1
      ensures cqs ==
        var q := if IsServer(node) then Some(0) else if cqNum >= 2 then Some(CqOf(cqNum, old(clients))) else None;
        if node > serverCount then [q, q, q] else [q, q]
    {
      var q0 := CreateQueuePair(node, 0);
      var q1 := CreateQueuePair(node, 1);
      if cqNum >= 2 && !IsServer(node) { CqInRange(cqNum, old(clients)); }
      cqs := [q0, q1];
      if node > serverCount {
        var q2 := CreateQueuePair(node, 2);
        cqs := cqs + [q2];
      }
    }
  }

  lemma {:induction false} CqInRange(cqNum: nat, m: nat)
    requires cqNum >= 2
    ensures 1 <= CqOf(cqNum, m) < cqNum
  {
    if m > 0 { CqInRange(cqNum, m - 1); }
  }

  /** Clients get the queues 1, 2, ..., one after another, and then from 1 again. */
  lemma {:induction false} CqsInTurn(cqNum: nat, m: nat)
    requires cqNum >= 2
    ensures CqOf(cqNum, m) == 1 + m % (cqNum - 1)
  {
    if m > 0 {
      CqsInTurn(cqNum, m - 1);
      NextRemainder(m - 1, cqNum - 1);
    }
  }

  lemma NextRemainder(m: nat, d: nat)
    requires d > 0
    ensures (m + 1) % d == if m % d + 1 == d then 0 else m % d + 1
  {
    var q, r := m / d, m % d;
    assert m == d * q + r;
    assert r + 1 == d ==> m + 1 == d * q + d;
    if r + 1 == d { DivModUnique(m + 1, d, q + 1, 0); } else { DivModUnique(m + 1, d, q, r + 1); }
  }

  /** How many of the first `m` clients worker `q` serves. */
  function Load(cqNum: nat, q: nat, m: nat): nat
    requires cqNum >= 2
  {
    if m == 0 then 0 else Load(cqNum, q, m - 1) + if CqOf(cqNum, m - 1) == q then 1 else 0
  }

  /** The queues up to the one used last have one client more than the others, or all have the same. */
  lemma {:induction false} LoadStaircase(cqNum: nat, q: nat, r: nat, m: nat)
    requires cqNum >= 2 && m > 0 && 1 <= q < cqNum && 1 <= r < cqNum
    ensures var last := CqOf(cqNum, m - 1);
      Load(cqNum, q, m) - (if q <= last then 1 else 0) == Load(cqNum, r, m) - (if r <= last then 1 else 0)
  {
    if m > 1 {
      LoadStaircase(cqNum, q, r, m - 1);
      CqInRange(cqNum, m - 2);
    }
  }

  /** After any number of clients the loads of the workers other than worker 0 differ by at most one, and worker 0
      serves no client. */
  lemma {:induction false} LoadsBalanced(cqNum: nat, q: nat, r: nat, m: nat)
    requires cqNum >= 2 && 1 <= q < cqNum && 1 <= r < cqNum
    ensures Load(cqNum, q, m) <= Load(cqNum, r, m) + 1
    ensures Load(cqNum, 0, m) == 0
  {
    if m > 0 { LoadStaircase(cqNum, q, r, m); }
    NoneOnZero(cqNum, m);
  }

  lemma {:induction false} NoneOnZero(cqNum: nat, m: nat)
    requires cqNum >= 2
    ensures Load(cqNum, 0, m) == 0
  {
    if m > 0 {
      NoneOnZero(cqNum, m - 1);
      CqInRange(cqNum, m - 1);
    }
  }
}
