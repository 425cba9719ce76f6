/** What requests that earlier calls left posted can do to a later call. A posted read fills the pool of its lane, a
    posted write sends what the pool holds then; so a write does no harm when it sends back what reads of the lane have
    fetched from the same place, and a small read is right when those before it have fetched the same bytes. */
module TransferEchoes {
  import opened Memory
  import opened Wrappers
  import opened Transfer
  import opened TransferSafety
  import opened TransferAny
  import opened TransferLive
  import opened TransferAsWritten
  import opened TransferLeftovers

  // ---------------------------------------------------------------- what the requests of a lane leave in its pool

  /** The remote byte that byte `k` of the pool is a copy of after the requests, if any. */
  function Holds(qp: seq<Wr>, k: nat): Option<nat> {
    if qp == [] then None
    else
      var n := |qp| - 1;
      if !qp[n].write && k < qp[n].len then Some(qp[n].remote + k) else Holds(qp[..n], k)
  }

  /** Every write sends back what the reads before it have fetched from the same place. */
  predicate Harmless(qp: seq<Wr>) {
    forall j, k {:trigger Holds(qp[..j], k)} ::
      0 <= j < |qp| && qp[j].write && 0 <= k < qp[j].len ==> Holds(qp[..j], k) == Some(qp[j].remote + k)
  }

  /** From the first request on the pool holds the range of the call. */
  predicate Fetched(qp: seq<Wr>, call: Task) {
    forall j, k {:trigger Holds(qp[..j], k)} ::
      1 <= j <= |qp| && 0 <= k < call.size ==> Holds(qp[..j], k) == Some(call.remote + k)
  }

  /** The pool of lane `l` in `r` is that of `m` after the requests. */
  ghost predicate PoolAfter(c: Setup, l: nat, qp: seq<Wr>, m: Mem, r: Mem)
    requires PoolAddr(c, l) + CHUNK <= |m.local| && SameShape(m, r)
  {
    forall k {:trigger Holds(qp, k)} :: 0 <= k < CHUNK ==>
      match Holds(qp, k)
      case None => r.local[PoolAddr(c, l) + k] == m.local[PoolAddr(c, l) + k]
      case Some(a) => a < |m.remote| && r.local[PoolAddr(c, l) + k] == m.remote[a]
  }

  lemma PrefixHarmless(qp: seq<Wr>, wr: Wr)
    requires Harmless(qp + [wr])
    ensures Harmless(qp)
    ensures wr.write ==> forall k :: 0 <= k < wr.len ==> Holds(qp, k) == Some(wr.remote + k)
  {
    var all := qp + [wr];
    assert all[..|qp|] == qp && all[|qp|] == wr;
    forall j, k | 0 <= j < |qp| && qp[j].write && 0 <= k < qp[j].len
      ensures Holds(qp[..j], k) == Some(qp[j].remote + k)
    {
      assert all[..j] == qp[..j] && all[j] == qp[j];
      assert Holds(all[..j], k) == Some(all[j].remote + k);
    }
  }

  /** Executing one more request. */
  lemma HeadExecuted(c: Setup, l: nat, qp: seq<Wr>, wr: Wr, m: Mem, r: Mem)
    requires PoolAddr(c, l) + CHUNK <= |m.local| && SameShape(m, r) && PoolAfter(c, l, qp, m, r)
    requires r.remote == m.remote && RequestOk(c, m, l, wr) && WrMapped(r, wr) && Harmless(qp + [wr])
    ensures SameShape(m, NicCopy(r, wr)) && NicCopy(r, wr).remote == m.remote
    ensures PoolAfter(c, l, qp + [wr], m, NicCopy(r, wr)) && OnlyPool(c, l, r, NicCopy(r, wr))
  {
    var all, r' := qp + [wr], NicCopy(r, wr);
    assert all[..|qp|] == qp && all[|qp|] == wr;
    PrefixHarmless(qp, wr);
    if wr.write {
      forall a | 0 <= a < |m.remote| ensures r'.remote[a] == m.remote[a] {
        if wr.remote <= a < wr.remote + wr.len {
          assert Holds(qp, a - wr.remote) == Some(a);
        }
      }
    }
    forall k | 0 <= k < CHUNK
      ensures match Holds(all, k)
        case None => r'.local[PoolAddr(c, l) + k] == m.local[PoolAddr(c, l) + k]
        case Some(a) => a < |m.remote| && r'.local[PoolAddr(c, l) + k] == m.remote[a]
    {
      assert Holds(all, k) == if !wr.write && k < wr.len then Some(wr.remote + k) else Holds(qp, k);
    }
  }

  /** Harmless requests leave the remote memory as it is, and this in the pool. */
  lemma {:induction false} ExecutedHolds(c: Setup, m: Mem, l: nat, qp: seq<Wr>)
    requires PoolAddr(c, l) + CHUNK <= |m.local| && RequestsOk(c, m, l, qp) && Harmless(qp)
    requires forall j :: 0 <= j < |qp| ==> WrMapped(m, qp[j])
    ensures Executed(m, qp).remote == m.remote && PoolAfter(c, l, qp, m, Executed(m, qp))
    decreases |qp|
  {
    if qp != [] {
      var n := |qp| - 1;
      assert qp == qp[..n] + [qp[n]];
      PrefixHarmless(qp[..n], qp[n]);
      ExecutedHolds(c, m, l, qp[..n]);
      assert RequestOk(c, m, l, qp[n]);
      HeadExecuted(c, l, qp[..n], qp[n], m, Executed(m, qp[..n]));
    }
  }

  // ---------------------------------------------------------------- calls that are right beside such requests

  /** An empty call, or a read of at most one chunk whose range the posted requests of its lane fetch. `done` are the
      requests that have executed. */
  ghost predicate Echoing(c: Setup, s: State, done: seq<seq<Wr>>)
    requires Outline(c, s)
  {
    && !Large(s.call) && |done| == c.workers && s.mem.remote == s.start.remote
    && (forall l :: 0 <= l < c.workers ==> LaneEchoes(c, s, l, done[l]))
    && (forall a {:trigger s.mem.local[a]} ::
          0 <= a < |s.mem.local| && !InPools(c, a) && !(s.call.user <= a < s.call.user + s.call.size) ==>
            s.mem.local[a] == s.start.local[a])
    && (s.call.size > 0 ==> ReadEchoes(c, s, done[0]))
  }

  ghost predicate LaneEchoes(c: Setup, s: State, l: nat, done: seq<Wr>)
    requires l < |s.qps| && SameShape(s.start, s.mem)
  {
    && PoolAddr(c, l) + CHUNK <= |s.mem.local|
    && Harmless(done + s.qps[l]) && PoolAfter(c, l, done, s.start, s.mem)
  }

  ghost predicate ReadEchoes(c: Setup, s: State, done: seq<Wr>)
    requires Outline(c, s)
  {
    && !s.call.write && s.call.size <= CHUNK && s.others == 0 && (forall l :: 0 < l < c.workers ==> s.qps[l] == [])
    && Fetched(done + s.qps[0], s.call)
    && (s.caller.Inline? ==> s.caller.h.done == 0 || s.caller.h.done == s.call.size)
    && (s.cq != [] || !s.caller.Inline? || s.caller.h.stage.Arrived? || s.caller.h.done > 0 ==> done != [])
    && (!s.caller.Inline? || s.caller.h.done > 0 ==>
          Same(s.mem.local, s.call.user, s.start.remote, s.call.remote, s.call.size))
  }

  lemma FetchedPrefix(done: seq<Wr>, rest: seq<Wr>, call: Task, k: nat)
    requires Fetched(done + rest, call) && done != [] && k < call.size
    ensures Holds(done, k) == Some(call.remote + k)
  {
    assert (done + rest)[..|done|] == done;
  }

  /** Posting one more read of the same range. */
  lemma ReadAdded(qp: seq<Wr>, wr: Wr, call: Task)
    requires !wr.write && wr.remote == call.remote && wr.len >= call.size
    ensures Harmless(qp) ==> Harmless(qp + [wr])
    ensures Fetched(qp, call) ==> Fetched(qp + [wr], call)
  {
    var all := qp + [wr];
    forall j | 0 <= j <= |qp| ensures all[..j] == qp[..j] {}
    assert all[..|all|] == all && all[..|qp|] == qp;
    forall j | 0 <= j < |qp| ensures all[j] == qp[j] {}
    assert forall k :: 0 <= k < call.size ==> Holds(all, k) == Some(call.remote + k);
  }

  /** The thread of the call, beside unchanged lanes and memory. */
  lemma ThreadEchoes(c: Setup, s: State, step: Step, done: seq<seq<Wr>>)
    requires Outline(c, s) && Echoing(c, s, done) && Enabled(c, s, step)
    requires step.Poll? || step.Finish? || step.LeaveInline? || step.ExecuteOther?
    ensures Outline(c, Apply(c, s, step)) && Echoing(c, Apply(c, s, step), done)
  {
    var s' := Apply(c, s, step);
    StepOutline(c, s, step);
    if step.Poll? || step.Finish? { ActiveShape(c, s, step.t); }
    forall l | 0 <= l < c.workers ensures LaneEchoes(c, s', l, done[l]) { assert LaneEchoes(c, s, l, done[l]); }
  }

  lemma PostEchoes(c: Setup, s: State, t: nat, done: seq<seq<Wr>>)
    requires Outline(c, s) && Echoing(c, s, done) && Enabled(c, s, Post(t))
    ensures Outline(c, Apply(c, s, Post(t))) && Echoing(c, Apply(c, s, Post(t)), done)
  {
    var s' := Apply(c, s, Post(t));
    StepOutline(c, s, Post(t));
    ActiveShape(c, s, t);
    var wr := WrOf(c, 0, s.caller.h);
    assert wr.remote == s.call.remote && wr.len == s.call.size;
    assert done[0] + s'.qps[0] == (done[0] + s.qps[0]) + [wr];
    ReadAdded(done[0] + s.qps[0], wr, s.call);
    forall l | 0 <= l < c.workers ensures LaneEchoes(c, s', l, done[l]) { assert LaneEchoes(c, s, l, done[l]); }
  }

  lemma CopyOutEchoes(c: Setup, s: State, t: nat, done: seq<seq<Wr>>)
    requires Outline(c, s) && Echoing(c, s, done) && Enabled(c, s, CopyOut(t))
    ensures Outline(c, Apply(c, s, CopyOut(t))) && Echoing(c, Apply(c, s, CopyOut(t)), done)
  {
    var s' := Apply(c, s, CopyOut(t));
    StepOutline(c, s, CopyOut(t));
    ActiveShape(c, s, t);
    forall l | 0 <= l < c.workers ensures LaneEchoes(c, s', l, done[l]) {
      CopyOutLane(c, s, t, l, done[l]);
    }
    CopyOutRange(c, s, t, done);
  }

  /** The lanes do not see it. */
  lemma CopyOutLane(c: Setup, s: State, t: nat, l: nat, done: seq<Wr>)
    requires Outline(c, s) && !Large(s.call) && Enabled(c, s, CopyOut(t)) && l < c.workers && l < |s.qps|
    requires LaneEchoes(c, s, l, done) && SameShape(s.start, Apply(c, s, CopyOut(t)).mem)
    ensures LaneEchoes(c, Apply(c, s, CopyOut(t)), l, done)
  {
    hide Harmless;
    var s' := Apply(c, s, CopyOut(t));
    ActiveShape(c, s, t);
    PoolsApart(c, l, c.workers);
    if 0 < l { PoolsApart(c, 0, l); }
    KeptPool(c, l, done, s.start, s.mem, s'.mem);
  }

  /** The pool holds what is copied. */
  lemma CopyOutRange(c: Setup, s: State, t: nat, done: seq<seq<Wr>>)
    requires Outline(c, s) && Echoing(c, s, done) && Enabled(c, s, CopyOut(t))
    ensures var s', call := Apply(c, s, CopyOut(t)), s.call;
      && SameShape(s'.mem, s.start) && Same(s'.mem.local, call.user, s.start.remote, call.remote, call.size)
  {
    hide Harmless, Fetched;
    var s', call := Apply(c, s, CopyOut(t)), s.call;
    ActiveShape(c, s, t);
    assert LaneEchoes(c, s, 0, done[0]) && ReadEchoes(c, s, done[0]);
    forall a | call.user <= a < call.user + call.size
      ensures s'.mem.local[a] == s.start.remote[call.remote + (a - call.user)]
    {
      FetchedPrefix(done[0], s.qps[0], call, a - call.user);
    }
  }

  lemma KeptPool(c: Setup, l: nat, qp: seq<Wr>, m: Mem, r: Mem, r': Mem)
    requires PoolAddr(c, l) + CHUNK <= |m.local| && SameShape(m, r) && SameShape(m, r') && PoolAfter(c, l, qp, m, r)
    requires forall a {:trigger r'.local[a]} :: PoolAddr(c, l) <= a < PoolAddr(c, l) + CHUNK ==>
      r'.local[a] == r.local[a]
    ensures PoolAfter(c, l, qp, m, r')
  {
  }

  lemma ExecuteEchoes(c: Setup, s: State, l: nat, done: seq<seq<Wr>>)
    requires Outline(c, s) && Echoing(c, s, done) && Enabled(c, s, Execute(l))
    ensures l < |done| && |s.qps| == c.workers && s.qps[l] != []
    ensures Outline(c, Apply(c, s, Execute(l)))
        && Echoing(c, Apply(c, s, Execute(l)), done[l := done[l] + [s.qps[l][0]]])
  {
    var s', wr, q := Apply(c, s, Execute(l)), s.qps[l][0], s.qps[l];
    var done' := done[l := done[l] + [wr]];
    StepOutline(c, s, Execute(l));
    assert RequestsOk(c, s.start, l, q) && RequestOk(c, s.start, l, q[0]) && LaneEchoes(c, s, l, done[l]);
    assert done[l] + q == (done[l] + [wr]) + q[1..];
    HarmlessHead(done[l] + [wr], q[1..]);
    HeadExecuted(c, l, done[l], wr, s.start, s.mem);
    forall u | 0 <= u < c.workers ensures LaneEchoes(c, s', u, done'[u]) {
      if u != l {
        assert LaneEchoes(c, s, u, done[u]);
        if u < l { PoolsApart(c, u, l); } else { PoolsApart(c, l, u); }
        KeptPool(c, u, done[u], s.start, s.mem, s'.mem);
      }
    }
    PoolsApart(c, l, c.workers);
    if 0 < l { PoolsApart(c, 0, l); }
  }

  lemma HarmlessHead(qp: seq<Wr>, rest: seq<Wr>)
    requires Harmless(qp + rest)
    ensures Harmless(qp)
  {
    var all := qp + rest;
    forall j, k | 0 <= j < |qp| && qp[j].write && 0 <= k < qp[j].len
      ensures Holds(qp[..j], k) == Some(qp[j].remote + k)
    {
      assert all[..j] == qp[..j] && all[j] == qp[j];
      assert Holds(all[..j], k) == Some(all[j].remote + k);
    }
  }

  lemma StepEchoes(c: Setup, s: State, step: Step, done: seq<seq<Wr>>) returns (done': seq<seq<Wr>>)
    requires Outline(c, s) && Echoing(c, s, done) && Enabled(c, s, step) && !step.Begin?
    ensures Outline(c, Apply(c, s, step)) && Echoing(c, Apply(c, s, step), done')
  {
    SmallSteps(c, s, step);
    done' := done;
    if step.Post? {
      PostEchoes(c, s, step.t, done);
    } else if step.CopyOut? {
      CopyOutEchoes(c, s, step.t, done);
    } else if step.Execute? {
      ExecuteEchoes(c, s, step.lane, done);
      done' := done[step.lane := done[step.lane] + [s.qps[step.lane][0]]];
    } else {
      if step.CopyIn? { ActiveShape(c, s, step.t); }
      ThreadEchoes(c, s, step, done);
    }
  }

  /** The steps of a small call. */
  lemma SmallSteps(c: Setup, s: State, step: Step)
    requires Outline(c, s) && !Large(s.call) && Enabled(c, s, step) && !step.Begin?
    ensures step.LeaveInline? || step.CopyIn? || step.Post? || step.Poll? || step.CopyOut? || step.Finish?
         || step.Execute? || step.ExecuteOther?
  {
    if step.See? || step.Erase? || step.Decrement? || step.Dereference? { PopsInLarge(c, s, step.t); }
  }

  lemma {:induction false} RunEchoes(c: Setup, s: State, call: Task, steps: seq<Step>) returns (done: seq<seq<Wr>>)
    requires Between(c, s) && NoBegin(steps) && Run(c, s, [Begin(call)] + steps, FirstCome) && EchoStart(c, s, call)
    ensures var e := Exec(c, s, [Begin(call)] + steps, FirstCome);
      Outline(c, e) && e.call == call && e.start == s.mem && Echoing(c, e, done)
    decreases |steps|
  {
    hide Outline, Apply, Echoing, EchoStart;
    var all := [Begin(call)] + steps;
    CallKept(c, s, call, steps);
    RunLength(c, s, call, steps, FirstCome);
    if steps == [] {
      assert all[..0] == [] && all == [Begin(call)];
      done := BeginEchoes(c, s, call);
    } else {
      var n := |steps| - 1;
      assert all[..n + 1] == [Begin(call)] + steps[..n];
      done := RunEchoes(c, s, call, steps[..n]);
      done := StepEchoes(c, Exec(c, s, all[..n + 1], FirstCome), steps[n], done);
    }
  }

  /** What makes an empty call, or a small read after others, right. */
  predicate EchoStart(c: Setup, s: State, call: Task)
    requires |s.qps| == c.workers >= 1
  {
    if call.size == 0 then forall l :: 0 <= l < c.workers ==> Harmless(s.qps[l])
    else
      && !call.write && call.size <= 1048576 && s.cq == [] && s.others == 0
      && (forall l :: 0 < l < c.workers ==> s.qps[l] == [])
      && Harmless(s.qps[0]) && Fetched(s.qps[0], call)
  }

  lemma BeginEchoes(c: Setup, s: State, call: Task) returns (done: seq<seq<Wr>>)
    requires Between(c, s) && Enabled(c, s, Begin(call)) && EchoStart(c, s, call)
    ensures Outline(c, Apply(c, s, Begin(call))) && Echoing(c, Apply(c, s, Begin(call)), done)
  {
    BeginOutline(c, s, call);
    var e := Apply(c, s, Begin(call));
    done := seq(c.workers, _ => []);
    forall l | 0 <= l < c.workers ensures LaneEchoes(c, e, l, done[l]) {
      PoolsApart(c, l, c.workers);
      assert done[l] + s.qps[l] == s.qps[l];
      assert Harmless(s.qps[l]);
    }
    assert done[0] + s.qps[0] == s.qps[0];
  }

  /** Such a call is one memcpy. */
  lemma EchoesRight(c: Setup, s: State, call: Task, steps: seq<Step>)
    requires Between(c, s) && NoBegin(steps) && Run(c, s, [Begin(call)] + steps, FirstCome) && EchoStart(c, s, call)
    requires Exec(c, s, [Begin(call)] + steps, FirstCome).caller.Idle? && Admissible(c, s.mem, call)
    ensures Agree(c, Exec(c, s, [Begin(call)] + steps, FirstCome).mem, Effect(c, s.mem, call))
  {
    var done := RunEchoes(c, s, call, steps);
    var e, r := Exec(c, s, [Begin(call)] + steps, FirstCome), Effect(c, s.mem, call);
    assert e.mem.remote == r.remote;
  }

  // ---------------------------------------------------------------- calls that are not

  /** A memory of zeros with a one at a local address, or at a remote one. */
  ghost function Marked(m: Mem, local: bool, at: nat): (r: Mem)
    ensures SameShape(m, r)
  {
    if local then
      Mem(seq(|m.local|, a requires 0 <= a < |m.local| => if a == at then 1 else 0), seq(|m.remote|, _ => 0))
    else Mem(seq(|m.local|, _ => 0), seq(|m.remote|, a requires 0 <= a < |m.remote| => if a == at then 1 else 0))
  }

  /** The first write that sends something else than was fetched from its place. */
  lemma {:induction false} FirstHarm(qp: seq<Wr>) returns (j: nat, k: nat)
    requires !Harmless(qp)
    ensures j < |qp| && qp[j].write && k < qp[j].len && Harmless(qp[..j])
    ensures Holds(qp[..j], k) != Some(qp[j].remote + k)
    decreases |qp|
  {
    var n := |qp| - 1;
    assert qp == qp[..n] + [qp[n]];
    assert forall i :: 0 <= i < n ==> qp[..n][..i] == qp[..i];
    if Harmless(qp[..n]) {
      var i, k1 :| 0 <= i < |qp| && qp[i].write && 0 <= k1 < qp[i].len
          && Holds(qp[..i], k1) != Some(qp[i].remote + k1);
      j, k := i, k1;
    } else {
      j, k := FirstHarm(qp[..n]);
      assert qp[..n][..j] == qp[..j];
    }
  }

  /** A memory in which it shows: a one where byte `k` of the pool comes from, zeros elsewhere. */
  ghost function Source(c: Setup, l: nat, qp: seq<Wr>, k: nat, m: Mem): (r: Mem)
    ensures SameShape(m, r)
  {
    match Holds(qp, k) case None => Marked(m, true, PoolAddr(c, l) + k) case Some(a) => Marked(m, false, a)
  }

  lemma SourceShows(c: Setup, l: nat, qp: seq<Wr>, k: nat, m: Mem)
    requires PoolAddr(c, l) + CHUNK <= |m.local| && RequestsOk(c, m, l, qp) && Harmless(qp) && k < CHUNK
    requires forall i :: 0 <= i < |qp| ==> WrMapped(m, qp[i])
    ensures var bad := Source(c, l, qp, k, m);
      && (forall i :: 0 <= i < |qp| ==> WrMapped(bad, qp[i])) && Executed(bad, qp).local[PoolAddr(c, l) + k] == 1
      && (forall a :: 0 <= a < |m.remote| && Holds(qp, k) != Some(a) ==> bad.remote[a] == 0)
  {
    hide Harmless;
    var bad := Source(c, l, qp, k, m);
    assert RequestsOk(c, bad, l, qp) by {
      forall i | 0 <= i < |qp| ensures RequestOk(c, bad, l, qp[i]) { assert RequestOk(c, m, l, qp[i]); }
    }
    ExecutedHolds(c, bad, l, qp);
  }

  lemma SentByte(m: Mem, r: Mem, wr: Wr, k: nat)
    requires wr.write && k < wr.len && WrMapped(m, wr) && SameShape(m, r) && m.local[wr.pool + k] == 1
    requires r.remote[wr.remote + k] == 0
    ensures NicCopy(m, wr).remote != r.remote
  {
    assert NicCopy(m, wr).remote[wr.remote + k] == 1;
  }

  lemma HarmShows(c: Setup, l: nat, qp: seq<Wr>, m: Mem) returns (j: nat, bad: Mem)
    requires PoolAddr(c, l) + CHUNK <= |m.local| && RequestsOk(c, m, l, qp) && !Harmless(qp)
    ensures SameShape(m, bad) && 1 <= j <= |qp| && forall i :: 0 <= i < |qp| ==> WrMapped(bad, qp[i])
    ensures Executed(bad, qp[..j]).remote != bad.remote
  {
    hide Harmless, Holds, Source, NicCopy;
    var n, k := FirstHarm(qp);
    j := n + 1;
    forall i | 0 <= i < |qp| ensures WrMapped(m, qp[i]) { assert RequestOk(c, m, l, qp[i]); }
    var wr := qp[n];
    assert RequestOk(c, m, l, wr);
    bad := Source(c, l, qp[..n], k, m);
    SourceShows(c, l, qp[..n], k, m);
    assert qp[..j][..n] == qp[..n] && qp[..j][n] == wr;
    SentByte(Executed(bad, qp[..n]), bad, wr, k);
  }

  /** An empty call during which the NIC executes `j` requests of a lane. */
  lemma EmptySchedule(c: Setup, s: State, call: Task, l: nat, j: nat) returns (r: State)
    requires Between(c, s) && Admissible(c, s.mem, call) && call.size == 0 && l < c.workers && j <= |s.qps[l]|
    requires forall i :: 0 <= i < |s.qps[l]| ==> WrMapped(s.mem, s.qps[l][i])
    ensures Reaches(c, s, call, r) && r.caller.Idle? && r.mem == Executed(s.mem, s.qps[l][..j])
  {
    hide Reaches;
    ReachBegin(c, s, call);
    var e := ReachDrain(c, s, call, Apply(c, s, Begin(call)), l, j);
    ReachStep(c, s, call, e, Finish(c.workers));
    var e1 := Apply(c, e, Finish(c.workers));
    ReachStep(c, s, call, e1, LeaveInline);
    r := Apply(c, e1, LeaveInline);
  }

  /** A small read posts its first chunk, and the NIC executes `j` requests of its lane. */
  lemma ReadPosts(c: Setup, s: State, call: Task, j: nat) returns (e: State)
    requires Between(c, s) && Admissible(c, s.mem, call) && !Large(call) && !call.write && call.size > 0
    requires var own := WrOf(c, 0, Hamal(call, 0, Top)); 1 <= j <= |s.qps[0] + [own]|
    ensures var own := WrOf(c, 0, Hamal(call, 0, Top));
      && (forall i :: 0 <= i < |s.qps[0] + [own]| ==> WrMapped(s.mem, (s.qps[0] + [own])[i]))
      && Reaches(c, s, call, e) && e.caller == Inline(Hamal(call, 0, Waiting)) && |e.cq| == |s.cq| + j
      && e.qps == s.qps[0 := (s.qps[0] + [own])[j..]] && e.mem == Executed(s.mem, (s.qps[0] + [own])[..j])
  {
    hide Reaches;
    var own := WrOf(c, 0, Hamal(call, 0, Top));
    ReachBegin(c, s, call);
    var b := Apply(c, s, Begin(call));
    assert RequestsOk(c, s.mem, 0, s.qps[0]) && RequestOk(c, s.mem, 0, own);
    assert RequestsOk(c, s.mem, 0, s.qps[0] + [own]);
    OkMapped(c, s.mem, 0, s.qps[0] + [own]);
    ReachStep(c, s, call, b, Post(c.workers));
    var e1 := Apply(c, b, Post(c.workers));
    assert e1.qps[0] == s.qps[0] + [own];
    e := ReachDrain(c, s, call, e1, 0, j);
  }

  /** Its thread takes a completion and copies the pool out. */
  lemma ReadCopies(c: Setup, s: State, call: Task, e: State, h: Hamal) returns (w: State)
    requires Reaches(c, s, call, e) && e.caller == Inline(h) && h.stage.Waiting? && h.task == call && !call.write
        && h.done < call.size && e.cq != []
    requires Mapped(c, e.mem, 0, call)
    ensures Reaches(c, s, call, w) && w.caller == Inline(Advanced(h)) && w.mem == CopiedOut(c, e.mem, 0, h)
    ensures w.qps == e.qps && |w.cq| == |e.cq| - 1
  {
    hide Reaches;
    ReachStep(c, s, call, e, Poll(c.workers, 0));
    var e1 := Apply(c, e, Poll(c.workers, 0));
    ReachStep(c, s, call, e1, CopyOut(c.workers));
    w := Apply(c, e1, CopyOut(c.workers));
  }

  /** A read of one chunk that copies out what the first `j` requests of its lane leave in the pool. */
  lemma EchoSchedule(c: Setup, s: State, call: Task, j: nat) returns (r: State)
    requires Between(c, s) && Admissible(c, s.mem, call) && !call.write && 0 < call.size <= CHUNK
    requires 1 <= j <= |s.qps[0]|
    ensures forall i :: 0 <= i < |s.qps[0]| ==> WrMapped(s.mem, s.qps[0][i])
    ensures Reaches(c, s, call, r) && r.caller.Idle? && Mapped(c, Executed(s.mem, s.qps[0][..j]), 0, call)
    ensures r.mem == CopiedOut(c, Executed(s.mem, s.qps[0][..j]), 0, Hamal(call, 0, Waiting))
  {
    hide Reaches;
    var own, h := WrOf(c, 0, Hamal(call, 0, Top)), Hamal(call, 0, Waiting);
    PoolsApart(c, 0, c.workers);
    var e := ReadPosts(c, s, call, j);
    assert (s.qps[0] + [own])[..j] == s.qps[0][..j];
    assert forall i :: 0 <= i < |s.qps[0]| ==> (s.qps[0] + [own])[i] == s.qps[0][i];
    var w := ReadCopies(c, s, call, e, h);
    ReachStep(c, s, call, w, Finish(c.workers));
    var w1 := Apply(c, w, Finish(c.workers));
    ReachStep(c, s, call, w1, LeaveInline);
    r := Apply(c, w1, LeaveInline);
  }

  /** An empty call beside a write that does harm. */
  lemma EmptyReturnsWrong(c: Setup, s: State, call: Task, l: nat) returns (m: Mem, r: State)
    requires Between(c, s) && Admissible(c, s.mem, call) && call.size == 0 && l < c.workers && !Harmless(s.qps[l])
    ensures SameShape(s.mem, m) && Admissible(c, m, call)
    ensures Reaches(c, s.(mem := m), call, r) && r.caller.Idle? && !Agree(c, r.mem, Effect(c, m, call))
  {
    hide Reaches;
    PoolsApart(c, l, c.workers);
    assert RequestsOk(c, s.mem, l, s.qps[l]);
    var j;
    j, m := HarmShows(c, l, s.qps[l], s.mem);
    MemBetween(c, s, m);
    r := EmptySchedule(c, s.(mem := m), call, l, j);
    assert Effect(c, m, call).remote == m.remote;
  }

  lemma MemBetween(c: Setup, s: State, m: Mem)
    requires Between(c, s) && SameShape(s.mem, m)
    ensures Between(c, s.(mem := m))
  {
    forall l | 0 <= l < c.workers ensures RequestsOk(c, m, l, s.qps[l]) { assert RequestsOk(c, s.mem, l, s.qps[l]); }
  }

  /** A read of one chunk after a write that does harm ... */
  lemma HarmReturnsWrong(c: Setup, s: State, call: Task) returns (m: Mem, r: State)
    requires Between(c, s) && Admissible(c, s.mem, call) && !call.write && 0 < call.size <= CHUNK
    requires !Harmless(s.qps[0])
    ensures SameShape(s.mem, m) && Admissible(c, m, call)
    ensures Reaches(c, s.(mem := m), call, r) && r.caller.Idle? && !Agree(c, r.mem, Effect(c, m, call))
  {
    hide Reaches;
    PoolsApart(c, 0, c.workers);
    assert RequestsOk(c, s.mem, 0, s.qps[0]);
    var j;
    j, m := HarmShows(c, 0, s.qps[0], s.mem);
    MemBetween(c, s, m);
    r := EchoSchedule(c, s.(mem := m), call, j);
    assert r.mem.remote == Executed(m, s.qps[0][..j]).remote;
    assert Effect(c, m, call).remote == m.remote;
  }

  lemma FirstOther(qp: seq<Wr>, call: Task) returns (j: nat, k: nat)
    requires !Fetched(qp, call)
    ensures 1 <= j <= |qp| && k < call.size && Holds(qp[..j], k) != Some(call.remote + k)
  {
    j, k :| 1 <= j <= |qp| && 0 <= k < call.size && Holds(qp[..j], k) != Some(call.remote + k);
  }

  /** ... and one after a request that leaves other bytes in the pool. */
  lemma OtherBytesReturned(c: Setup, s: State, call: Task) returns (m: Mem, r: State)
    requires Between(c, s) && Admissible(c, s.mem, call) && !call.write && 0 < call.size <= CHUNK
    requires Harmless(s.qps[0]) && !Fetched(s.qps[0], call)
    ensures SameShape(s.mem, m) && Admissible(c, m, call)
    ensures Reaches(c, s.(mem := m), call, r) && r.caller.Idle? && !Agree(c, r.mem, Effect(c, m, call))
  {
    hide Reaches, Effect, Agree, Harmless, Fetched, Holds, Executed;
    var q := s.qps[0];
    var j, k := FirstOther(q, call);
    m := Marked(s.mem, false, call.remote + k);
    MemBetween(c, s, m);
    PoolsApart(c, 0, c.workers);
    r := EchoSchedule(c, s.(mem := m), call, j);
    assert q == q[..j] + q[j..];
    HarmlessHead(q[..j], q[j..]);
    OtherByte(c, s.mem, q[..j], call.remote + k, k);
    WrongByte(c, m, r.mem, call, k);
  }

  lemma OtherByte(c: Setup, m: Mem, qp: seq<Wr>, at: nat, k: nat)
    requires PoolAddr(c, 0) + CHUNK <= |m.local| && RequestsOk(c, m, 0, qp) && Harmless(qp) && at < |m.remote|
    requires k < CHUNK && Holds(qp, k) != Some(at)
    requires forall i :: 0 <= i < |qp| ==> WrMapped(Marked(m, false, at), qp[i])
    ensures Executed(Marked(m, false, at), qp).local[PoolAddr(c, 0) + k] == 0
  {
    ExecutedHolds(c, Marked(m, false, at), 0, qp);
  }

  /** A longer read whose first round takes the completion of an earlier request when its own has executed too. */
  lemma FirstChunk(c: Setup, s: State, call: Task) returns (w: State)
    requires Between(c, s) && Admissible(c, s.mem, call) && !Large(call) && !call.write && call.size > CHUNK
    requires s.qps[0] != []
    ensures Reaches(c, s, call, w) && w.caller == Inline(Hamal(call, CHUNK, Top)) && w.cq != []
    ensures |w.qps| == c.workers && w.qps == s.qps[0 := []] && SameShape(s.mem, w.mem)
    ensures w.mem.local[PoolAddr(c, 0)] == w.mem.remote[call.remote]
  {
    hide Reaches;
    var own, h := WrOf(c, 0, Hamal(call, 0, Top)), Hamal(call, 0, Waiting);
    var all := s.qps[0] + [own];
    PoolsApart(c, 0, c.workers);
    var e := ReadPosts(c, s, call, |all|);
    assert all[..|all|] == all && all[|all|..] == [] && all[..|all| - 1] == s.qps[0] && all[|all| - 1] == own;
    assert e.mem == NicCopy(Executed(s.mem, s.qps[0]), own);
    assert e.mem.local[PoolAddr(c, 0)] == e.mem.remote[call.remote];
    w := ReadCopies(c, s, call, e, h);
  }

  /** The second chunk is then a copy of the first. */
  lemma SecondChunk(c: Setup, s: State, call: Task) returns (w: State)
    requires Between(c, s) && Admissible(c, s.mem, call) && !Large(call) && !call.write && call.size > CHUNK
    requires s.qps[0] != []
    ensures Reaches(c, s, call, w) && w.caller.Inline? && w.caller.h.done == Min(2 * CHUNK, call.size)
    ensures |w.qps| == c.workers && w.qps == s.qps[0 := w.qps[0]] && |w.qps[0]| == 1 && !w.qps[0][0].write
    ensures SameShape(s.mem, w.mem) && w.mem.local[call.user + CHUNK] == w.mem.remote[call.remote]
  {
    hide Reaches;
    PoolsApart(c, 0, c.workers);
    var w1 := FirstChunk(c, s, call);
    var h := Hamal(call, CHUNK, Top);
    ReachStep(c, s, call, w1, Post(c.workers));
    var w2 := Apply(c, w1, Post(c.workers));
    assert w2.qps[0] == [WrOf(c, 0, h)];
    w := ReadCopies(c, s, call, w2, h.(stage := Waiting));
  }

  lemma LongReadReturnsWrong(c: Setup, s: State, call: Task) returns (m: Mem, r: State)
    requires Between(c, s) && Admissible(c, s.mem, call) && !Large(call) && !call.write && call.size > CHUNK
    requires s.qps[0] != [] && !Elsewhere(s)
    ensures SameShape(s.mem, m) && Admissible(c, m, call)
    ensures Reaches(c, s.(mem := m), call, r) && r.caller.Idle? && !Agree(c, r.mem, Effect(c, m, call))
  {
    hide Reaches;
    m := Marked(s.mem, false, call.remote + CHUNK);
    MemBetween(c, s, m);
    var w := SecondChunk(c, s.(mem := m), call);
    ReachedOutline(c, s.(mem := m), call, w);
    r := RunOn(c, s.(mem := m), call, w, w.caller.h.done);
    if w.mem.remote[call.remote] == 0 {
      WrongByte(c, m, r.mem, call, CHUNK);
    } else {
      assert Effect(c, m, call).remote == m.remote;
      assert NoWrites(w);
    }
  }
}
