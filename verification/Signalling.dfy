/** Selective signalling at a client: the batch send, read and write loops with their shared counter, the send queue,
    and the completion queue that only these calls use. */
module Signalling {
  import opened Wrappers

  /** Sizes from the source; the period 32 below is SIGNAL_BATCH + 1. */
  const MAX_POST_LIST: nat := 24
  const QPS_MAX_DEPTH: nat := 128

  datatype Opcode = SendWithImm | RdmaRead | RdmaWrite | RdmaWriteWithImm

  /** `imm` is the immediate, if the opcode has one. */
  datatype Request = Request(opcode: Opcode, local: nat, remote: nat, imm: Option<nat>, signalled: bool)

  /** The three batch calls; a send carries the number of the sending node. */
  datatype Op = Send(source: nat, node: nat) | Read(source: nat, dest: nat) | Write(source: nat, dest: nat, imm: nat)

  /** The request built when the counter is `c` asks for a completion: its lowest five bits are zero. */
  predicate Signals(c: nat) { c % 32 == 0 }

  /** The request that iteration `w` of a call builds when the counter is `c`. */
  function RequestAt(op: Op, w: nat, c: nat): Request {
    var signalled := Signals(c);
    match op
    case Send(source, node) => Request(SendWithImm, source + w * 4096, 0, Some(node), signalled)
    case Read(source, dest) => Request(RdmaRead, source + w * 8, dest, None, signalled)
    case Write(source, dest, imm) =>
      if imm == 0 then Request(RdmaWrite, source + w * 4096, dest + w * 4096, None, signalled)
      else Request(RdmaWriteWithImm, source + w * 4096, dest + w * 4096, Some(imm), signalled)
  }

  predicate Regular(list: seq<Request>, from: nat) {
    forall k :: 0 <= k < |list| ==> list[k].signalled == Signals(from + k)
  }

  /** What a call of size `n` posts when the counter starts at `c`. */
  function Requests(op: Op, c: nat, n: nat): seq<Request> {
    if n == 0 then [] else Requests(op, c, n - 1) + [RequestAt(op, n - 1, c + n - 1)]
  }

  lemma {:induction false} RequestsAt(op: Op, c: nat, n: nat)
    ensures |Requests(op, c, n)| == n && Regular(Requests(op, c, n), c)
    ensures forall k :: 0 <= k < n ==> Requests(op, c, n)[k] == RequestAt(op, k, c + k)
  {
    if n > 0 { RequestsAt(op, c, n - 1); }
  }

  /** What the NIC is told by request `w` of a call, the `c`-th of the endpoint: from where, to where, with which
      immediate, and to signal every 32nd. */
  predicate Told(op: Op, w: nat, c: nat, r: Request) {
    && r.signalled == (c % 32 == 0)
    && match op
       case Send(source, node) =>
         r.opcode == SendWithImm && r.local == source + w * 4096 && r.remote == 0 && r.imm == Some(node)
       case Read(source, dest) => r.opcode == RdmaRead && r.local == source + w * 8 && r.remote == dest && r.imm == None
       case Write(source, dest, imm) =>
         && r.local == source + w * 4096 && r.remote == dest + w * 4096
         && (imm == 0 ==> r.opcode == RdmaWrite && r.imm == None)
         && (imm != 0 ==> r.opcode == RdmaWriteWithImm && r.imm == Some(imm))
  }

  lemma RequestsTold(op: Op, c: nat, n: nat)
    ensures |Requests(op, c, n)| == n && forall k :: 0 <= k < n ==> Told(op, k, c + k, Requests(op, c, n)[k])
  {
    RequestsAt(op, c, n);
  }

  function Stride(op: Op): nat { if op.Read? then 8 else 4096 }

  /** Requests `i` and `j` use local buffers of `len` bytes that do not overlap. */
  predicate Apart(op: Op, c: nat, n: nat, len: nat, i: nat, j: nat)
    requires i < j < n && |Requests(op, c, n)| == n
  {
    Requests(op, c, n)[i].local + len <= Requests(op, c, n)[j].local
  }

  /** The requests of one call use disjoint buffers exactly when a buffer is not longer than the stride: 8 bytes for
      reads, 4096 otherwise. */
  lemma BuffersDisjointIff(op: Op, c: nat, n: nat, len: nat)
    requires n >= 2
    ensures |Requests(op, c, n)| == n
    ensures (forall i: nat, j: nat :: i < j < n ==> Apart(op, c, n, len, i, j)) <==> len <= Stride(op)
  {
    RequestsAt(op, c, n);
    assert Apart(op, c, n, len, 0, 1) <==> len <= Stride(op);
    forall i: nat, j: nat | i < j < n && len <= Stride(op) ensures Apart(op, c, n, len, i, j) {
      assert (j - i) * Stride(op) >= Stride(op);
    }
  }

  // ---------------------------------------------------------------- what the loops have done at a counter value

  /** Signalled requests among the first `c`. */
  function SignalledIn(c: nat): nat {
    if c == 0 then 0 else SignalledIn(c - 1) + if Signals(c - 1) then 1 else 0
  }

  /** The loop polls before it builds the request with counter value `c`. */
  predicate PollsAt(c: nat) { Signals(c) && c > 0 }

  /** Polls made while the counter went from 0 to `c`. */
  function Polls(c: nat): nat {
    if c == 0 then 0 else Polls(c - 1) + if PollsAt(c - 1) then 1 else 0
  }

  lemma {:induction false} Closed(c: nat)
    ensures SignalledIn(c) == (c + 31) / 32
    ensures c > 0 ==> Polls(c) == (c - 1) / 32
    ensures c > 0 ==> SignalledIn(c) == Polls(c) + 1
  {
    if c > 0 {
      Closed(c - 1);
      assert c > 1 ==> (c - 2) / 32 + (if (c - 1) % 32 == 0 then 1 else 0) == (c - 1) / 32;
    }
  }

  lemma {:induction false} SignalledMonotone(a: nat, b: nat)
    requires a <= b
    ensures SignalledIn(a) <= SignalledIn(b)
    decreases b
  {
    if a < b { SignalledMonotone(a, b - 1); }
  }

  /** The position of the signalled request whose completion the `p`-th poll takes, completions being in order. */
  function PolledRequest(p: nat): nat
    requires p > 0
  {
    32 * (p - 1)
  }

  /** That is indeed the `p`-th signalled one. */
  lemma PolledIsSignalled(p: nat)
    requires p > 0
    ensures SignalledIn(PolledRequest(p)) == p - 1 && SignalledIn(PolledRequest(p) + 1) == p
  {
    Closed(PolledRequest(p));
    Closed(PolledRequest(p) + 1);
  }

  /** Requests whose place in the send queue is not yet free: everything after the last polled completion. */
  function Unreleased(posted: nat, polled: nat): int {
    posted - if polled == 0 then 0 else PolledRequest(polled) + 1
  }

  /** Never more than 63 requests hold a place, which fits the queue even if a whole period came on top; and the
      bound is reached. */
  lemma AtMost63(c: nat)
    ensures Unreleased(c, Polls(c)) <= 63 < 128
    ensures Unreleased(c, Polls(c)) == 63 <==> c % 32 == 0 && c > 32
  {
    Closed(c);
    if c > 0 {
      var p := (c - 1) / 32;
      assert 32 * p <= c - 1 < 32 * p + 32;
      assert Unreleased(c, p) == if p == 0 then c else c - 32 * p + 31;
      assert c == 32 * p + 32 <==> c % 32 == 0;
    }
  }

  /** A poll in iteration `w` of a call that started at `c`: the request it waits for. */
  function WaitsFor(c: nat): nat
    requires PollsAt(c)
  {
    PolledRequest(Polls(c) + 1)
  }

  /** A poll in iteration `w` of a call that starts at counter `c` waits for a request of the same call. */
  predicate SelfWait(c: nat, w: nat) { PollsAt(c + w) && WaitsFor(c + w) >= c }

  lemma WaitsOnePeriodBack(c: nat)
    requires PollsAt(c)
    ensures WaitsFor(c) == c - 32
  {
    Closed(c);
  }

  /** A poll waits for the request posted one period earlier, so a call can wait for itself exactly when it is
      larger than a period. MAX_POST_LIST is smaller. */
  lemma SelfWaitIff(n: nat)
    ensures (exists c: nat, w: nat :: w < n && SelfWait(c, w)) <==> n > 32
  {
    forall c: nat, w: nat | w < n && SelfWait(c, w)
      ensures n > 32
    {
      WaitsOnePeriodBack(c + w);
    }
    if n > 32 {
      WaitsOnePeriodBack(32);
      assert SelfWait(0, 32);
    }
  }

  /** Before a call of at most a period was posted, a poll inside it finds a posted request to wait for. */
  lemma CanPoll(start: nat, c: nat)
    requires start <= c < start + 32 && PollsAt(c)
    ensures Polls(c) < SignalledIn(start)
  {
    Closed(c);
    Closed(start);
  }

  /** What a call of `n` requests needs when it posts, and leaves behind. */
  lemma CallFits(start: nat, n: nat)
    requires 1 <= n <= MAX_POST_LIST
    ensures Unreleased(start, Polls(start + n)) + n <= 63
    ensures Unreleased(start + n, Polls(start + n)) <= 63
    ensures SignalledIn(start + n) == Polls(start + n) + 1
  {
    Closed(start + n);
    AtMost63(start + n);
  }

  // ---------------------------------------------------------------- the loops

  class Endpoint {
    /** The peer's counter; requests posted and not yet executed; completions not yet polled. */
    var counter: nat
    var sendQueue: seq<Request>
    var completions: nat

    /** Everything ever posted, and the number of completions ever taken. */
    ghost var stream: seq<Request>
    ghost var polled: nat

    /** Requests the NIC has executed. */
    ghost function Executed(): int
      reads this`stream, this`sendQueue
    {
      |stream| - |sendQueue|
    }

    /** Holds also inside a call, where the counter is ahead of what is posted. */
    ghost predicate Consistent()
      reads this`sendQueue, this`completions, this`stream, this`polled
    {
      && |sendQueue| <= |stream| && sendQueue == stream[Executed()..]
      && Regular(stream, 0)
      && completions + polled == SignalledIn(Executed())
    }

    ghost predicate Valid()
      reads this
    {
      Consistent() && counter == |stream| && polled == Polls(counter)
    }

    constructor ()
      ensures Valid() && stream == []
    {
      counter, sendQueue, completions := 0, [], 0;
      stream, polled := [], 0;
      new;
      hide Signals, PollsAt, Requests, RequestAt, PolledRequest;
      assert Executed() == 0;
    }

    /** The NIC executes requests in the order in which they were posted. */
    method Execute(n: nat)
      requires Consistent() && n <= |sendQueue|
      modifies this`sendQueue, this`completions
      ensures Consistent() && |sendQueue| == old(|sendQueue|) - n
      ensures completions == old(completions) + SignalledIn(Executed()) - SignalledIn(old(Executed()))
    {
      var i := 0;
      while i < n
        invariant i <= n && Consistent() && |sendQueue| == old(|sendQueue|) - i
      {
        if sendQueue[0].signalled { completions := completions + 1; }
        sendQueue := sendQueue[1..];
        i := i + 1;
      }
    }

    /** Spins until there is a completion. While it spins the NIC makes progress. */
    method PollCompletion()
      requires Consistent() && polled < SignalledIn(|stream|)
      modifies this`sendQueue, this`completions, this`polled
      ensures Consistent() && polled == old(polled) + 1 && |sendQueue| <= old(|sendQueue|)
      ensures PolledRequest(polled) < Executed()
    {
      while completions == 0
        invariant Consistent() && |sendQueue| <= old(|sendQueue|) && polled == old(polled)
        decreases |sendQueue|
      {
        var n: nat :| 0 < n <= |sendQueue|;
        Execute(n);
      }
      completions := completions - 1;
      polled := polled + 1;
      PolledIsSignalled(polled);
      if Executed() <= PolledRequest(polled) { SignalledMonotone(Executed(), PolledRequest(polled)); }
    }

    /** ibv_post_send of a list that fits the send queue. */
    method Post(list: seq<Request>)
      requires Consistent() && Unreleased(|stream|, polled) + |list| <= QPS_MAX_DEPTH
      requires Regular(list, |stream|)
      modifies this`sendQueue, this`stream
      ensures Consistent() && stream == old(stream) + list && sendQueue == old(sendQueue) + list
    {
      hide SignalledIn;
      sendQueue := sendQueue + list;
      stream := stream + list;
    }

    /** The loop of a call: builds its requests one by one, and polls in between. Every poll finds a posted request
        to wait for. */
    method Build(op: Op, n: nat) returns (list: seq<Request>)
      requires Valid() && n <= MAX_POST_LIST
      modifies this`counter, this`sendQueue, this`completions, this`polled
      ensures Consistent() && counter == old(counter) + n && polled == Polls(counter)
      ensures list == Requests(op, old(counter), n)
    {
      hide Consistent, SignalledIn, RequestAt, Signals, PolledRequest;
      list := [];
      ghost var start := counter;
      var w := 0;
      while w < n
        invariant 0 <= w <= n && list == Requests(op, start, w) && counter == start + w
        invariant Consistent() && polled == Polls(counter)
      {
        if Signals(counter) && counter > 0 {
          CanPoll(start, counter);
          PollCompletion();
        }
        list := list + [RequestAt(op, w, counter)];
        counter := counter + 1;
        w := w + 1;
      }
    }

    /** _RdmaBatchSend, _RdmaBatchRead and _RdmaBatchWrite: what the loop has built is posted at once. It fits the
        send queue, and afterwards exactly one signalled request is not polled. */
    method Batch(op: Op, n: nat)
      requires Valid() && 1 <= n <= 24
      modifies this
      ensures Valid()
      ensures stream == old(stream) + Requests(op, old(counter), n) && counter == old(counter) + n
      ensures |stream| == old(|stream|) + n && stream[..old(|stream|)] == old(stream)
      ensures forall k {:trigger stream[k]} :: old(|stream|) <= k < |stream| ==>
        Told(op, k - old(|stream|), k, stream[k])
      ensures SignalledIn(|stream|) - polled == 1
      ensures Unreleased(|stream|, polled) <= 63
    {
      hide SignalledIn, Signals, Regular, Unreleased;
      var list := Build(op, n);
      RequestsAt(op, old(counter), n);
      RequestsTold(op, old(counter), n);
      CallFits(old(counter), n);
      Post(list);
    }
  }
}
