/** A client that makes both bulk transfers and remote calls, in any order: its remote calls use other queue pairs, but
    poll the same completion queue. What its calls leave unpolled decides which transfers are right. */
module AfterCalls {
  import opened Memory
  import opened Signalling
  import opened Transfer
  import opened TransferSafety
  import opened TransferSteps
  import opened TransferCount
  import opened TransferAny
  import opened TransferEchoes
  import opened TransferExactly
  import SharedCq

  /** The queue pair to one server: requests posted and requests executed. */
  datatype Link = Link(counter: nat, executed: nat)

  datatype Client = Client(engine: State, links: seq<Link>)

  /** A step of a transfer; the posting of a remote call of `n` requests, between transfers, with the poll that its loop
      makes; the execution of a request of a remote call, at any time. */
  datatype Move = Transfer(step: Step) | Call(p: nat, n: nat) | Deliver(p: nat)

  predicate Can(c: Setup, x: Client, move: Move) {
    match move
    case Transfer(step) => !step.ExecuteOther? && Allowed(c, x.engine, step, FirstCome)
    case Call(p, n) =>
      && x.engine.caller.Idle? && p < |x.links| && 1 <= n <= MAX_POST_LIST
      && (SharedCq.Polling(x.links[p].counter, n) ==> x.engine.cq != [])
    case Deliver(p) =>
      && p < |x.links| && x.links[p].executed < x.links[p].counter
      && (Signals(x.links[p].executed) ==> Enabled(c, x.engine, ExecuteOther(p)))
  }

  /** The signalled requests among the next `n`. */
  function Signalled(counter: nat, n: nat): nat {
    SignalledMonotone(counter, counter + n);
    SignalledIn(counter + n) - SignalledIn(counter)
  }

  function Do(c: Setup, x: Client, move: Move): Client
    requires Can(c, x, move)
  {
    match move
    case Transfer(step) => x.(engine := Apply(c, x.engine, step))
    case Call(p, n) =>
      var counter, cq := x.links[p].counter, x.engine.cq;
      Client(x.engine.(cq := if SharedCq.Polling(counter, n) then cq[1..] else cq,
                       others := x.engine.others + Signalled(counter, n)),
             x.links[p := x.links[p].(counter := counter + n)])
    case Deliver(p) =>
      var e := x.links[p].executed;
      Client(if Signals(e) then Apply(c, x.engine, ExecuteOther(p)) else x.engine,
             x.links[p := x.links[p].(executed := e + 1)])
  }

  ghost predicate Lives(c: Setup, x: Client, moves: seq<Move>)
    decreases |moves|, 0
  {
    moves == [] ||
    (Lives(c, x, moves[..|moves| - 1]) && Can(c, After(c, x, moves[..|moves| - 1]), moves[|moves| - 1]))
  }

  ghost function After(c: Setup, x: Client, moves: seq<Move>): Client
    requires Lives(c, x, moves)
    decreases |moves|, 1
  {
    if moves == [] then x else Do(c, After(c, x, moves[..|moves| - 1]), moves[|moves| - 1])
  }

  /** Nothing has been called or transferred yet. */
  ghost predicate Fresh(c: Setup, x: Client) {
    && Between(c, x.engine) && NoneOutstanding(x.engine)
    && forall p :: 0 <= p < |x.links| ==> x.links[p] == Link(0, 0)
  }

  // ---------------------------------------------------------------- what is outstanding

  /** Servers that were ever called. */
  function Called(links: seq<Link>): nat {
    if links == [] then 0 else Called(links[..|links| - 1]) + if links[|links| - 1].counter > 0 then 1 else 0
  }

  /** Signalled requests of remote calls that are still to execute. */
  function Pending(links: seq<Link>): int {
    if links == [] then 0
    else
      var l := links[|links| - 1];
      Pending(links[..|links| - 1]) + SignalledIn(l.counter) - SignalledIn(l.executed)
  }

  lemma {:induction false} LinkUpdate(links: seq<Link>, p: nat, l: Link)
    requires p < |links|
    ensures Called(links[p := l]) ==
      Called(links) - (if links[p].counter > 0 then 1 else 0) + if l.counter > 0 then 1 else 0
    ensures Pending(links[p := l]) == Pending(links)
      - (SignalledIn(links[p].counter) - SignalledIn(links[p].executed))
      + SignalledIn(l.counter) - SignalledIn(l.executed)
  {
    var n := |links| - 1;
    if p == n {
      assert links[p := l][..n] == links[..n];
    } else {
      LinkUpdate(links[..n], p, l);
      assert links[p := l][..n] == links[..n][p := l];
    }
  }

  ghost predicate LinksOk(links: seq<Link>) {
    forall p :: 0 <= p < |links| ==> links[p].executed <= links[p].counter
  }

  /** Signalled requests outstanding are as many as the threads that poll and the servers that were ever called. */
  ghost predicate Balanced(c: Setup, x: Client) {
    && Kept(c, x.engine) && |x.engine.workers| == c.workers && LinksOk(x.links)
    && x.engine.others == Pending(x.links)
    && Outstanding(x.engine) == Pollers(x.engine) + Called(x.links)
  }

  lemma TransferBalanced(c: Setup, x: Client, step: Step)
    requires Balanced(c, x) && Can(c, x, Transfer(step))
    ensures Balanced(c, Do(c, x, Transfer(step)))
  {
    hide Kept;
    StepKept(c, x.engine, step);
    StepConserves(c, x.engine, step);
    OthersStay(c, x.engine, step);
  }

  lemma OthersStay(c: Setup, s: State, step: Step)
    requires Enabled(c, s, step) && !step.ExecuteOther?
    ensures Apply(c, s, step).others == s.others
  {
  }

  /** A call posts as many signalled requests as it polls, and one more the first time. */
  lemma CallBalanced(c: Setup, x: Client, p: nat, n: nat)
    requires Balanced(c, x) && Can(c, x, Call(p, n))
    ensures Balanced(c, Do(c, x, Call(p, n)))
  {
    hide Between, SignalledIn, Polls;
    var counter, y := x.links[p].counter, Do(c, x, Call(p, n));
    LinkUpdate(x.links, p, y.links[p]);
    CallSignals(counter, n);
    CqBetween(c, x.engine, y.engine.cq, y.engine.others);
  }

  lemma CallSignals(counter: nat, n: nat)
    requires 1 <= n <= MAX_POST_LIST
    ensures SignalledIn(counter) <= SignalledIn(counter + n)
    ensures SignalledIn(counter + n) - SignalledIn(counter) ==
      (if SharedCq.Polling(counter, n) then 1 else 0) + if counter == 0 then 1 else 0
  {
    SharedCq.OnePoll(counter, n);
    Closed(counter);
    Closed(counter + n);
  }

  lemma CqBetween(c: Setup, s: State, cq: seq<nat>, others: nat)
    requires Between(c, s)
    ensures Between(c, s.(cq := cq, others := others))
  {
  }

  lemma DeliverBalanced(c: Setup, x: Client, p: nat)
    requires Balanced(c, x) && Can(c, x, Deliver(p))
    ensures Balanced(c, Do(c, x, Deliver(p)))
  {
    hide Kept, Enabled, Apply;
    LinkUpdate(x.links, p, x.links[p].(executed := x.links[p].executed + 1));
    if Signals(x.links[p].executed) {
      StepKept(c, x.engine, ExecuteOther(p));
      StepConserves(c, x.engine, ExecuteOther(p));
      OneOther(c, x.engine, p);
    }
  }

  lemma OneOther(c: Setup, s: State, p: nat)
    requires Enabled(c, s, ExecuteOther(p))
    ensures Apply(c, s, ExecuteOther(p)).others == s.others - 1
  {
  }

  lemma {:induction false} FreshCounts(links: seq<Link>)
    requires forall p :: 0 <= p < |links| ==> links[p] == Link(0, 0)
    ensures Called(links) == 0 == Pending(links)
  {
    if links != [] { FreshCounts(links[..|links| - 1]); }
  }

  lemma {:induction false} RunBalanced(c: Setup, x: Client, moves: seq<Move>)
    requires Fresh(c, x) && Lives(c, x, moves)
    ensures Balanced(c, After(c, x, moves))
    decreases |moves|
  {
    hide Balanced, Can, Do;
    if moves == [] {
      StartBalanced(c, x);
    } else {
      var n := |moves| - 1;
      RunBalanced(c, x, moves[..n]);
      match moves[n] {
        case Transfer(step) => TransferBalanced(c, After(c, x, moves[..n]), step);
        case Call(p, k) => CallBalanced(c, After(c, x, moves[..n]), p, k);
        case Deliver(p) => DeliverBalanced(c, After(c, x, moves[..n]), p);
      }
    }
  }

  lemma StartBalanced(c: Setup, x: Client)
    requires Fresh(c, x)
    ensures Balanced(c, x)
  {
    FreshCounts(x.links);
    QuietOrPosted(c, x.engine);
    NoPoller(x.engine.workers);
  }

  lemma {:induction false} PendingPositive(links: seq<Link>)
    requires LinksOk(links)
    ensures Pending(links) >= 0
  {
    if links != [] {
      PendingPositive(links[..|links| - 1]);
      SignalledMonotone(links[|links| - 1].executed, links[|links| - 1].counter);
    }
  }

  lemma PendingAt(links: seq<Link>, p: nat)
    requires LinksOk(links) && p < |links|
    ensures Pending(links) >= SignalledIn(links[p].counter) - SignalledIn(links[p].executed)
  {
    var l := links[p].(executed := links[p].counter);
    LinkUpdate(links, p, l);
    PendingPositive(links[p := l]);
  }

  lemma NextSignalled(e: nat, counter: nat)
    requires e < counter && Signals(e)
    ensures SignalledIn(counter) > SignalledIn(e)
  {
    SignalledMonotone(e + 1, counter);
  }

  /** A signalled request that is to execute is always counted, so the guard of its execution excludes nothing. */
  lemma {:induction false} DeliveryPossible(c: Setup, x: Client, moves: seq<Move>, p: nat)
    requires Fresh(c, x) && Lives(c, x, moves) && p < |After(c, x, moves).links|
    ensures var y := After(c, x, moves); y.links[p].executed < y.links[p].counter <==> Can(c, y, Deliver(p))
  {
    hide SignalledIn, Signals, Pending, Kept, Outstanding, Pollers, Called, Lives;
    RunBalanced(c, x, moves);
    var y := After(c, x, moves);
    if y.links[p].executed < y.links[p].counter && Signals(y.links[p].executed) {
      NextSignalled(y.links[p].executed, y.links[p].counter);
      PendingAt(y.links, p);
      assert Enabled(c, y.engine, ExecuteOther(p));
    }
  }

  // ---------------------------------------------------------------- places in the send queues

  /** Completions of the remote calls to server `p` that have been polled, by whichever poll. */
  function PolledOf(c: Setup, x: Client, p: nat): int
    requires p < |x.links|
  {
    SignalledIn(x.links[p].executed) - multiset(x.engine.cq)[c.workers + p]
  }

  lemma AppendCount(cq: seq<nat>, y: nat, z: nat)
    ensures multiset(cq + [y])[z] == multiset(cq)[z] + if y == z then 1 else 0
  {
  }

  lemma TailCount(cq: seq<nat>, z: nat)
    requires cq != []
    ensures multiset(cq[1..])[z] <= multiset(cq)[z]
  {
    assert cq == [cq[0]] + cq[1..];
  }

  lemma TransferPolls(c: Setup, s: State, step: Step, p: nat)
    requires Enabled(c, s, step) && !step.ExecuteOther? && |s.qps| == c.workers
    ensures multiset(Apply(c, s, step).cq)[c.workers + p] <= multiset(s.cq)[c.workers + p]
  {
    if step.Poll? { RemoveCount(s.cq, step.k); }
    if step.Execute? { AppendCount(s.cq, step.lane, c.workers + p); }
  }

  lemma KeptLanes(c: Setup, s: State)
    requires Kept(c, s)
    ensures |s.qps| == c.workers
  {
  }

  lemma {:induction false} PolledNonnegative(c: Setup, x: Client, moves: seq<Move>, p: nat)
    requires Fresh(c, x) && Lives(c, x, moves) && p < |After(c, x, moves).links|
    ensures PolledOf(c, After(c, x, moves), p) >= 0
    decreases |moves|
  {
    hide PolledOf, Can, Do;
    if moves == [] {
      FreshPolls(c, x, p);
    } else {
      var n := |moves| - 1;
      RunBalanced(c, x, moves[..n]);
      SameLinks(c, x, moves);
      SameLinks(c, x, moves[..n]);
      PolledNonnegative(c, x, moves[..n], p);
      MovePolls(c, After(c, x, moves[..n]), moves[n], p);
    }
  }

  lemma FreshPolls(c: Setup, x: Client, p: nat)
    requires Fresh(c, x) && p < |x.links|
    ensures PolledOf(c, x, p) == 0
  {
  }

  /** A move only adds to what has been polled. */
  lemma MovePolls(c: Setup, x: Client, move: Move, p: nat)
    requires Kept(c, x.engine) && Can(c, x, move) && p < |x.links| == |Do(c, x, move).links|
    ensures PolledOf(c, Do(c, x, move), p) >= PolledOf(c, x, p)
  {
    hide Kept, Enabled, Apply, SignalledIn;
    match move {
      case Transfer(step) =>
        KeptLanes(c, x.engine);
        TransferPolls(c, x.engine, step, p);
      case Call(q, k) => if SharedCq.Polling(x.links[q].counter, k) { TailCount(x.engine.cq, c.workers + p); }
      case Deliver(q) => DeliverPolls(c, x, q, p);
    }
  }

  lemma DeliverPolls(c: Setup, x: Client, q: nat, p: nat)
    requires Can(c, x, Deliver(q)) && p < |x.links|
    ensures PolledOf(c, Do(c, x, Deliver(q)), p) == PolledOf(c, x, p)
  {
    hide Apply, Enabled;
    if Signals(x.links[q].executed) {
      OtherAppends(c, x.engine, q);
      AppendCount(x.engine.cq, c.workers + q, c.workers + p);
    }
  }

  lemma OtherAppends(c: Setup, s: State, q: nat)
    requires Enabled(c, s, ExecuteOther(q))
    ensures Apply(c, s, ExecuteOther(q)).cq == s.cq + [c.workers + q]
  {
  }

  /** Transfers take completions of remote calls and leave theirs instead, but a send queue has no more than with remote
      calls alone: with `k` servers at most 32 * k + 31 of the requests to one of them hold a place after any call. */
  lemma {:induction false} SendQueueBound(c: Setup, x: Client, moves: seq<Move>, p: nat)
    requires Fresh(c, x) && Lives(c, x, moves) && p < |x.links| && After(c, x, moves).engine.caller.Idle?
    ensures var y := After(c, x, moves);
      && |y.links| == |x.links| && PolledOf(c, y, p) >= 0
      && Unreleased(y.links[p].counter, PolledOf(c, y, p)) <= 32 * |x.links| + 31
  {
    hide Between, SignalledIn, Lives;
    RunBalanced(c, x, moves);
    var y := After(c, x, moves);
    SameLinks(c, x, moves);
    PolledNonnegative(c, x, moves, p);
    PendingAt(y.links, p);
    CalledAtMost(y.links);
    IdlePollers(c, y.engine);
    CountAtMost(y.engine.cq, c.workers + p);
    PendingSigns(y.links[p]);
    SharedCq.HeldAtMost(SharedCq.Peer(y.links[p].counter, y.links[p].executed, PolledOf(c, y, p)), |x.links|);
  }

  lemma {:induction false} SameLinks(c: Setup, x: Client, moves: seq<Move>)
    requires Lives(c, x, moves)
    ensures |After(c, x, moves).links| == |x.links|
    decreases |moves|
  {
    if moves != [] { SameLinks(c, x, moves[..|moves| - 1]); }
  }

  lemma {:induction false} CalledAtMost(links: seq<Link>)
    ensures Called(links) <= |links|
  {
    if links != [] { CalledAtMost(links[..|links| - 1]); }
  }

  lemma {:induction false} CountAtMost(cq: seq<nat>, y: nat)
    ensures multiset(cq)[y] <= |cq|
  {
    if cq != [] {
      var n := |cq| - 1;
      CountAtMost(cq[..n], y);
      assert cq == cq[..n] + [cq[n]];
    }
  }

  lemma PendingSigns(l: Link)
    requires l.executed <= l.counter
    ensures SignalledIn(l.executed) <= SignalledIn(l.counter)
  {
    SignalledMonotone(l.executed, l.counter);
  }

  lemma IdlePollers(c: Setup, s: State)
    requires Kept(c, s) && s.caller.Idle?
    ensures Pollers(s) == 0
  {
    forall t | 0 <= t < |s.workers| ensures !WaitingWorker(s.workers[t]) {
      assert s.workers[t] == Worker([], 0, Spinning);
    }
    NoPoller(s.workers);
  }

  // ---------------------------------------------------------------- which transfers are right

  /** In every run of any number of transfers and remote calls, whenever no transfer is in progress, as many signalled
      requests are outstanding as servers were ever called. Before the first remote call, exactly the transfers below
      4 MiB are right and safe. From the first one on, a transfer is right in every schedule only if it is empty or
      repeats the fetches that are posted on its lane, and keeps its pools safe only if it is empty or a write of at
      most 1 MiB that finds nothing posted on its lane. */
  lemma {:induction false} TransfersAfterCalls(c: Setup, x: Client, moves: seq<Move>, call: Task)
    requires Fresh(c, x) && Lives(c, x, moves) && After(c, x, moves).engine.caller.Idle?
    requires c.workers == 2 && Admissible(c, After(c, x, moves).engine.mem, call)
    ensures Between(c, After(c, x, moves).engine)
    ensures var y := After(c, x, moves); Outstanding(y.engine) == Called(y.links)
    ensures var y := After(c, x, moves);
      PoolsSafe(c, y.engine, call) <==>
        if Called(y.links) == 0 then call.size < 4194304
        else call.size == 0 || (call.write && call.size <= 1048576 && y.engine.qps[0] == [])
    ensures var y := After(c, x, moves);
      (forall m: Mem {:trigger y.engine.(mem := m)} ::
         SameShape(m, y.engine.mem) ==> CopiesRight(c, y.engine.(mem := m), call))
      <==> if Called(y.links) == 0 then call.size < 4194304 else EchoStart(c, y.engine, call)
  {
    hide PoolsSafe, CopiesRight, Lives, Outline;
    RunBalanced(c, x, moves);
    var y := After(c, x, moves);
    var s := y.engine;
    IdlePollers(c, s);
    QuietOrPosted(c, s);
    PoolSafeIff(c, s, call);
    CopiesRightIff(c, s, call);
    if Called(y.links) == 0 { NothingPosted(c, s, call); }
  }

  lemma NothingPosted(c: Setup, s: State, call: Task)
    requires Between(c, s) && NoneOutstanding(s)
    ensures FindsSafe(s, call) <==> call.size < 4194304
    ensures FindsRight(c, s, call) <==> call.size < 4194304
  {
  }
}
