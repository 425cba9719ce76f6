/** Selective signalling of a client with several servers: one counter and one send queue for each, but one completion
    queue for all, from which every poll takes the first completion. */
module SharedCq {
  import opened Signalling

  /** One peer: requests posted, requests executed, and how many of its completions have been polled. */
  datatype Peer = Peer(counter: nat, executed: nat, polled: nat)

  /** The completion queue holds the number of the peer for each completion. */
  datatype State = State(peers: seq<Peer>, cq: seq<nat>)

  datatype Step = Call(p: nat, n: nat) | Execute(p: nat)

  function Start(k: nat): State { State(seq(k, _ => Peer(0, 0, 0)), []) }

  /** The loop of a call of `n` requests polls: at most once, as calls are shorter than a period. */
  predicate Polling(c: nat, n: nat) { Polls(c + n) > Polls(c) }

  /** The requests of one call are posted together after its loop, so polling and posting can be taken as one step:
      what the NIC executes in between was posted before. */
  predicate Enabled(s: State, step: Step) {
    match step
    case Call(p, n) =>
      && p < |s.peers| && 1 <= n <= MAX_POST_LIST
      && (Polling(s.peers[p].counter, n) ==> s.cq != [] && s.cq[0] < |s.peers|)
    case Execute(p) => p < |s.peers| && s.peers[p].executed < s.peers[p].counter
  }

  function Polled(peers: seq<Peer>, q: nat): seq<Peer>
    requires q < |peers|
  {
    peers[q := peers[q].(polled := peers[q].polled + 1)]
  }

  function Posted(peers: seq<Peer>, p: nat, n: nat): seq<Peer>
    requires p < |peers|
  {
    peers[p := peers[p].(counter := peers[p].counter + n)]
  }

  function Apply(s: State, step: Step): (s': State)
    requires Enabled(s, step)
    ensures |s'.peers| == |s.peers|
  {
    match step
    case Call(p, n) =>
      if Polling(s.peers[p].counter, n) then State(Posted(Polled(s.peers, s.cq[0]), p, n), s.cq[1..])
      else State(Posted(s.peers, p, n), s.cq)
    case Execute(p) =>
      var e := s.peers[p].executed;
      State(s.peers[p := s.peers[p].(executed := e + 1)], if Signals(e) then s.cq + [p] else s.cq)
  }

  ghost predicate Run(k: nat, steps: seq<Step>)
    decreases |steps|, 0
  {
    steps == [] || (Run(k, steps[..|steps| - 1]) && Enabled(Exec(k, steps[..|steps| - 1]), steps[|steps| - 1]))
  }

  ghost function Exec(k: nat, steps: seq<Step>): (s: State)
    requires Run(k, steps)
    ensures |s.peers| == k
    decreases |steps|, 1
  {
    if steps == [] then Start(k) else Apply(Exec(k, steps[..|steps| - 1]), steps[|steps| - 1])
  }

  // ---------------------------------------------------------------- what is not polled

  /** Signalled requests of a peer that are posted and not polled. */
  function Unpolled(p: Peer): int { SignalledIn(p.counter) - p.polled }

  function SumUnpolled(peers: seq<Peer>): int {
    if peers == [] then 0 else SumUnpolled(peers[..|peers| - 1]) + Unpolled(peers[|peers| - 1])
  }

  /** Peers that something was ever posted to. */
  function Active(peers: seq<Peer>): (a: nat)
    ensures a <= |peers|
  {
    if peers == [] then 0 else Active(peers[..|peers| - 1]) + if peers[|peers| - 1].counter > 0 then 1 else 0
  }

  /** Completions of peer `q` in the queue. */
  function Count(cq: seq<nat>, q: nat): nat {
    if cq == [] then 0 else (if cq[0] == q then 1 else 0) + Count(cq[1..], q)
  }

  ghost predicate PeerOk(s: State, p: nat)
    requires p < |s.peers|
  {
    s.peers[p].executed <= s.peers[p].counter && s.peers[p].polled + Count(s.cq, p) == SignalledIn(s.peers[p].executed)
  }

  ghost predicate Inv(s: State) {
    && (forall j :: 0 <= j < |s.cq| ==> s.cq[j] < |s.peers|)
    && (forall p :: 0 <= p < |s.peers| ==> PeerOk(s, p))
    && SumUnpolled(s.peers) == Active(s.peers)
  }

  lemma {:induction false} SumUpdate(peers: seq<Peer>, p: nat, v: Peer)
    requires p < |peers|
    ensures SumUnpolled(peers[p := v]) == SumUnpolled(peers) - Unpolled(peers[p]) + Unpolled(v)
    ensures Active(peers[p := v]) ==
      Active(peers) - (if peers[p].counter > 0 then 1 else 0) + if v.counter > 0 then 1 else 0
  {
    var n := |peers| - 1;
    if p == n {
      assert peers[p := v][..n] == peers[..n];
    } else {
      SumUpdate(peers[..n], p, v);
      assert peers[p := v][..n] == peers[..n][p := v];
    }
  }

  lemma {:induction false} CountAppend(cq: seq<nat>, p: nat, q: nat)
    ensures Count(cq + [p], q) == Count(cq, q) + if p == q then 1 else 0
  {
    if cq == [] {
      assert cq + [p] == [p] && [p][1..] == [];
    } else {
      CountAppend(cq[1..], p, q);
      assert (cq + [p])[1..] == cq[1..] + [p];
    }
  }

  lemma PollInv(s: State, s': State)
    requires Inv(s) && s.cq != [] && s' == State(Polled(s.peers, s.cq[0]), s.cq[1..])
    ensures |s'.peers| == |s.peers|
    ensures forall p :: 0 <= p < |s.peers| ==> PeerOk(s', p) && s'.peers[p].counter == s.peers[p].counter
    ensures forall j :: 0 <= j < |s'.cq| ==> s'.cq[j] < |s'.peers|
    ensures SumUnpolled(s'.peers) == SumUnpolled(s.peers) - 1 && Active(s'.peers) == Active(s.peers)
  {
    SumUpdate(s.peers, s.cq[0], s'.peers[s.cq[0]]);
    forall p | 0 <= p < |s.peers| ensures PeerOk(s', p) { assert PeerOk(s, p); }
  }

  /** Posting adds as many signalled requests as the loop polled, and one more the first time. */
  lemma PostInv(s: State, p: nat, n: nat)
    requires p < |s.peers| && 1 <= n <= MAX_POST_LIST && (forall q :: 0 <= q < |s.peers| ==> PeerOk(s, q))
    requires SumUnpolled(s.peers) == Active(s.peers) - (Polls(s.peers[p].counter + n) - Polls(s.peers[p].counter))
    requires forall j :: 0 <= j < |s.cq| ==> s.cq[j] < |s.peers|
    ensures Inv(State(Posted(s.peers, p, n), s.cq))
  {
    var c := s.peers[p].counter;
    Closed(c);
    Closed(c + n);
    SumUpdate(s.peers, p, s.peers[p].(counter := c + n));
    forall q | 0 <= q < |s.peers| ensures PeerOk(State(Posted(s.peers, p, n), s.cq), q) { assert PeerOk(s, q); }
  }

  lemma ExecuteInv(s: State, p: nat)
    requires Inv(s) && Enabled(s, Execute(p))
    ensures Inv(Apply(s, Execute(p)))
  {
    var s', e := Apply(s, Execute(p)), s.peers[p].executed;
    SumUpdate(s.peers, p, s.peers[p].(executed := e + 1));
    forall q | 0 <= q < |s.peers| ensures PeerOk(s', q) {
      assert PeerOk(s, q);
      CountAppend(s.cq, p, q);
    }
  }

  lemma OnePoll(c: nat, n: nat)
    requires n <= MAX_POST_LIST
    ensures Polls(c) <= Polls(c + n) <= Polls(c) + 1
  {
    Closed(c);
    Closed(c + n);
  }

  lemma StepInv(s: State, step: Step)
    requires Inv(s) && Enabled(s, step)
    ensures Inv(Apply(s, step))
  {
    match step {
      case Execute(p) => ExecuteInv(s, p);
      case Call(p, n) =>
        OnePoll(s.peers[p].counter, n);
        if Polling(s.peers[p].counter, n) {
          var s1 := State(Polled(s.peers, s.cq[0]), s.cq[1..]);
          PollInv(s, s1);
          PostInv(s1, p, n);
        } else {
          PostInv(s, p, n);
        }
    }
  }

  lemma {:induction false} StartSums(peers: seq<Peer>)
    requires forall p :: 0 <= p < |peers| ==> peers[p] == Peer(0, 0, 0)
    ensures SumUnpolled(peers) == 0 == Active(peers)
  {
    if peers != [] { StartSums(peers[..|peers| - 1]); }
  }

  lemma {:induction false} RunInv(k: nat, steps: seq<Step>)
    requires Run(k, steps)
    ensures Inv(Exec(k, steps))
    decreases |steps|
  {
    if steps == [] {
      StartSums(Start(k).peers);
    } else {
      var n := |steps| - 1;
      RunInv(k, steps[..n]);
      StepInv(Exec(k, steps[..n]), steps[n]);
    }
  }

  // ---------------------------------------------------------------- places in the send queue

  /** Requests of the peer that hold a place in its send queue. */
  function Held(p: Peer): int { Unreleased(p.counter, p.polled) }

  lemma {:induction false} AtMostSum(peers: seq<Peer>, p: nat)
    requires p < |peers| && forall q :: 0 <= q < |peers| ==> Unpolled(peers[q]) >= 0
    ensures 0 <= Unpolled(peers[p]) <= SumUnpolled(peers)
  {
    var n := |peers| - 1;
    if p < n { AtMostSum(peers[..n], p); } else { SumNonnegative(peers[..n]); }
  }

  lemma {:induction false} SumNonnegative(peers: seq<Peer>)
    requires forall q :: 0 <= q < |peers| ==> Unpolled(peers[q]) >= 0
    ensures SumUnpolled(peers) >= 0
  {
    if peers != [] { SumNonnegative(peers[..|peers| - 1]); }
  }

  lemma UnpolledNonnegative(s: State)
    requires Inv(s)
    ensures forall q :: 0 <= q < |s.peers| ==> Unpolled(s.peers[q]) >= 0
  {
    forall q | 0 <= q < |s.peers| ensures Unpolled(s.peers[q]) >= 0 {
      assert PeerOk(s, q);
      SignalledMonotone(s.peers[q].executed, s.peers[q].counter);
    }
  }

  /** Polls of one peer may take the completions of the others, so its own accumulate: with `k` peers at most
      32 * k + 31 of its requests hold a place. */
  lemma {:induction false} HeldBound(k: nat, steps: seq<Step>, p: nat)
    requires Run(k, steps) && p < k
    ensures Held(Exec(k, steps).peers[p]) <= 32 * k + 31
  {
    hide Held, Unpolled, SumUnpolled, PeerOk, Apply;
    RunInv(k, steps);
    var s := Exec(k, steps);
    UnpolledNonnegative(s);
    AtMostSum(s.peers, p);
    HeldAtMost(s.peers[p], k);
  }

  lemma HeldAtMost(p: Peer, k: nat)
    requires 0 <= Unpolled(p) <= k
    ensures Held(p) <= 32 * k + 31
  {
    Closed(p.counter);
    assert p.counter <= 32 * SignalledIn(p.counter);
  }

  /** A poll never waits for nothing: when the queue is empty, some peer has posted requests still to execute. */
  lemma {:induction false} PollIsFed(k: nat, steps: seq<Step>, p: nat, n: nat)
    requires Run(k, steps) && p < k && 1 <= n <= MAX_POST_LIST
    ensures var s := Exec(k, steps);
      Polling(s.peers[p].counter, n) ==> s.cq != [] || exists q :: 0 <= q < k && Enabled(s, Execute(q))
  {
    RunInv(k, steps);
    var s := Exec(k, steps);
    if Polling(s.peers[p].counter, n) && s.cq == [] && forall q :: 0 <= q < k ==> !Enabled(s, Execute(q)) {
      forall q | 0 <= q < k ensures s.peers[q].executed == s.peers[q].counter {
        assert PeerOk(s, q) && !Enabled(s, Execute(q));
      }
      Leftover(k, steps);
      Closed(s.peers[p].counter + n);
      ActiveIf(s.peers, p);
      assert false;
    }
  }

  lemma {:induction false} ActiveIf(peers: seq<Peer>, p: nat)
    requires p < |peers| && peers[p].counter > 0
    ensures Active(peers) > 0
  {
    if p < |peers| - 1 { ActiveIf(peers[..|peers| - 1], p); }
  }

  /** Completions of the first `n` peers. */
  function CountBelow(cq: seq<nat>, n: nat): nat {
    if n == 0 then 0 else CountBelow(cq, n - 1) + Count(cq, n - 1)
  }

  lemma {:induction false} CountTail(cq: seq<nat>, n: nat)
    requires cq != []
    ensures CountBelow(cq, n) == CountBelow(cq[1..], n) + if cq[0] < n then 1 else 0
  {
    if n > 0 { CountTail(cq, n - 1); }
  }

  lemma {:induction false} CountAll(cq: seq<nat>, n: nat)
    requires forall j :: 0 <= j < |cq| ==> cq[j] < n
    ensures CountBelow(cq, n) == |cq|
  {
    if cq == [] {
      CountNone(n);
    } else {
      CountTail(cq, n);
      CountAll(cq[1..], n);
    }
  }

  lemma {:induction false} CountNone(n: nat)
    ensures CountBelow([], n) == 0
  {
    if n > 0 { CountNone(n - 1); }
  }

  lemma {:induction false} CountsAreUnpolled(s: State, n: nat)
    requires n <= |s.peers|
    requires forall p :: 0 <= p < |s.peers| ==> PeerOk(s, p) && s.peers[p].executed == s.peers[p].counter
    ensures CountBelow(s.cq, n) == SumUnpolled(s.peers[..n])
  {
    if n > 0 {
      CountsAreUnpolled(s, n - 1);
      assert PeerOk(s, n - 1);
      assert s.peers[..n][..n - 1] == s.peers[..n - 1];
    }
  }

  predicate AllExecuted(s: State) { forall q :: 0 <= q < |s.peers| ==> s.peers[q].executed == s.peers[q].counter }

  /** When everything posted has executed, one completion is left over for each peer that was ever called. */
  lemma {:induction false} Leftover(k: nat, steps: seq<Step>)
    requires Run(k, steps) && AllExecuted(Exec(k, steps))
    ensures |Exec(k, steps).cq| == Active(Exec(k, steps).peers)
  {
    hide PeerOk, Apply, Count, CountBelow, Active, SumUnpolled;
    RunInv(k, steps);
    var s := Exec(k, steps);
    CountsAreUnpolled(s, k);
    CountAll(s.cq, k);
    assert s.peers[..k] == s.peers;
  }

  // ---------------------------------------------------------------- when the send queue is large enough

  /** In every run no peer ever has more requests than its send queue has places. */
  ghost predicate Suffices(k: nat) {
    forall steps, p :: Run(k, steps) && 0 <= p < k ==> Held(Exec(k, steps).peers[p]) <= 128
  }

  ghost predicate Leads(k: nat, steps: seq<Step>, s: State) { Run(k, steps) && Exec(k, steps) == s }

  lemma Extend(k: nat, steps: seq<Step>, s: State, step: Step) returns (longer: seq<Step>, s': State)
    requires Leads(k, steps, s) && Enabled(s, step)
    ensures Leads(k, longer, s') && s' == Apply(s, step)
  {
    longer, s' := steps + [step], Apply(s, step);
    assert longer[..|steps|] == steps;
  }

  /** Some other peer posts its first request and the NIC executes it: its completion joins the queue. */
  lemma Announce(k: nat, steps: seq<Step>, s: State, p: nat) returns (longer: seq<Step>, s': State)
    requires Leads(k, steps, s) && |s.peers| == k && p < k && s.peers[p] == Peer(0, 0, 0)
    ensures Leads(k, longer, s') && s'.cq == s.cq + [p] && s'.peers == s.peers[p := Peer(1, 1, 0)]
  {
    hide Leads;
    Closed(1);
    longer, s' := Extend(k, steps, s, Call(p, 1));
    longer, s' := Extend(k, longer, s', Execute(p));
  }

  lemma PollsWithin(q: nat, r: nat)
    requires 1 <= r <= 32
    ensures Polls(32 * q + r) == q
  {
    Closed(32 * q + r);
  }

  lemma PollingAligned(c: nat)
    requires c % 32 == 0
    ensures Polling(c, 8) == (c > 0) && !Polling(c + 8, 8) && !Polling(c + 16, 8) && !Polling(c + 24, 8)
  {
    hide Polls;
    var q := c / 32;
    PollsWithin(q, 8);
    PollsWithin(q, 16);
    PollsWithin(q, 24);
    PollsWithin(q, 32);
    if c > 0 { PollsWithin(q - 1, 32); } else { NoPollsYet(); }
  }

  lemma NoPollsYet()
    ensures Polls(0) == 0
  {
  }

  /** Peer 0 posts a whole period, of which nothing executes; its poll takes a completion of another peer. */
  lemma Fill(k: nat, steps: seq<Step>, s: State, c: nat) returns (longer: seq<Step>, s': State)
    requires Leads(k, steps, s) && |s.peers| == k > 0 && s.peers[0] == Peer(c, 0, 0) && c % 32 == 0
    requires c > 0 ==> s.cq != [] && 0 < s.cq[0] < k
    ensures Leads(k, longer, s') && |s'.peers| == k && s'.peers[0] == Peer(c + 32, 0, 0)
    ensures s'.cq == if c > 0 then s.cq[1..] else s.cq
  {
    hide Leads, Polling;
    PollingAligned(c);
    longer, s' := Extend(k, steps, s, Call(0, 8));
    longer, s' := Extend(k, longer, s', Call(0, 8));
    longer, s' := Extend(k, longer, s', Call(0, 8));
    longer, s' := Extend(k, longer, s', Call(0, 8));
  }

  /** With four peers the polls of one can take the completions of the three others, and its send queue overflows. */
  lemma FourOverflow(k: nat) returns (steps: seq<Step>, s: State)
    requires k >= 4
    ensures Leads(k, steps, s) && |s.peers| == k && Held(s.peers[0]) > 128
  {
    assert Leads(k, [], Start(k));
    hide Leads;
    steps, s := Announce(k, [], Start(k), 1);
    steps, s := Announce(k, steps, s, 2);
    steps, s := Announce(k, steps, s, 3);
    assert s.cq == [1, 2, 3];
    steps, s := Fill(k, steps, s, 0);
    steps, s := Fill(k, steps, s, 32);
    assert s.cq == [2, 3];
    steps, s := Fill(k, steps, s, 64);
    assert s.cq == [3];
    steps, s := Fill(k, steps, s, 96);
    PollingAligned(128);
    steps, s := Extend(k, steps, s, Execute(0));
    assert s.cq == [0];
    steps, s := Extend(k, steps, s, Call(0, 8));
  }

  /** The send queue always has a place for every request if and only if the client has at most three peers. */
  lemma SufficesIff(k: nat)
    ensures Suffices(k) <==> k <= 3
  {
    if k <= 3 {
      forall steps, p | Run(k, steps) && 0 <= p < k ensures Held(Exec(k, steps).peers[p]) <= 128 {
        HeldBound(k, steps, p);
      }
    } else {
      var steps, s := FourOverflow(k);
      assert Run(k, steps) && Exec(k, steps) == s;
    }
  }
}
