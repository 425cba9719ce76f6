/** Conservation of completions on the shared CQ, whoever takes whose completion. */
module TransferCount {
  import opened Transfer

  /** Requests posted and not yet executed, over all queue pairs. */
  function Posted(qps: seq<seq<Wr>>): nat {
    if qps == [] then 0 else Posted(qps[..|qps| - 1]) + |qps[|qps| - 1]|
  }

  predicate WaitingWorker(w: Worker) {
    w.pc.Busy? && w.pc.h.stage.Waiting?
  }

  function WaitingWorkers(ws: seq<Worker>): nat {
    if ws == [] then 0
    else WaitingWorkers(ws[..|ws| - 1]) + if WaitingWorker(ws[|ws| - 1]) then 1 else 0
  }

  /** Threads that are inside PollCompletion. */
  function Pollers(s: State): nat {
    WaitingWorkers(s.workers) + if s.caller.Inline? && s.caller.h.stage.Waiting? then 1 else 0
  }

  /** Signalled requests posted and not yet polled, those of other queue pairs included. */
  function Outstanding(s: State): nat {
    Posted(s.qps) + s.others + |s.cq|
  }

  lemma {:induction false} PostedUpdate(qps: seq<seq<Wr>>, l: nat, q: seq<Wr>)
    requires l < |qps|
    ensures Posted(qps[l := q]) == Posted(qps) - |qps[l]| + |q|
  {
    var n := |qps| - 1;
    if l == n {
      assert qps[l := q][..n] == qps[..n];
    } else {
      PostedUpdate(qps[..n], l, q);
      assert qps[l := q][..n] == qps[..n][l := q];
    }
  }

  lemma {:induction false} WaitingUpdate(ws: seq<Worker>, t: nat, w: Worker)
    requires t < |ws|
    ensures WaitingWorkers(ws[t := w]) ==
            WaitingWorkers(ws) - (if WaitingWorker(ws[t]) then 1 else 0) + if WaitingWorker(w) then 1 else 0
  {
    var n := |ws| - 1;
    if t == n {
      assert ws[t := w][..n] == ws[..n];
    } else {
      WaitingUpdate(ws[..n], t, w);
      assert ws[t := w][..n] == ws[..n][t := w];
    }
  }

  lemma HamalUpdate(c: Setup, s: State, t: nat, h: Hamal)
    requires |s.workers| == c.workers && HamalOf(c, s, t).Some?
    ensures Pollers(WithHamal(c, s, t, h)) ==
            Pollers(s) - (if HamalOf(c, s, t).value.stage.Waiting? then 1 else 0) + if h.stage.Waiting? then 1 else 0
  {
    if t < c.workers {
      WaitingUpdate(s.workers, t, s.workers[t].(pc := Busy(h)));
    }
  }

  lemma PcUpdate(s: State, t: nat, w: Worker)
    requires t < |s.workers| && !WaitingWorker(s.workers[t]) && !WaitingWorker(w)
    ensures WaitingWorkers(s.workers[t := w]) == WaitingWorkers(s.workers)
  {
    WaitingUpdate(s.workers, t, w);
  }

  lemma QueueUpdate(s: State, t: nat, w: Worker)
    requires t < |s.workers| && w.pc == s.workers[t].pc
    ensures WaitingWorkers(s.workers[t := w]) == WaitingWorkers(s.workers)
  {
    WaitingUpdate(s.workers, t, w);
  }

  /** Every step, under any attribution of completions, keeps the difference between what is outstanding and
      who is polling. */
  lemma StepConserves(c: Setup, s: State, step: Step)
    requires Enabled(c, s, step) && |s.workers| == c.workers
    ensures |Apply(c, s, step).workers| == c.workers
    ensures Outstanding(Apply(c, s, step)) - Pollers(Apply(c, s, step)) == Outstanding(s) - Pollers(s)
  {
    var s' := Apply(c, s, step);
    match step {
      case Begin(task) =>
      case PushItem => QueueUpdate(s, s.caller.next, s'.workers[s.caller.next]);
      case PushCount => QueueUpdate(s, s.caller.next, s'.workers[s.caller.next]);
      case AwaitExit =>
      case LeaveInline =>
      case See(t) => PcUpdate(s, t, s'.workers[t]);
      case Erase(t) => PcUpdate(s, t, s'.workers[t]);
      case Decrement(t) => PcUpdate(s, t, s'.workers[t]);
      case Dereference(t) => PcUpdate(s, t, s'.workers[t]);
      case CopyIn(t) => HamalUpdate(c, s, t, HamalOf(c, s, t).value.(stage := Staged));
      case Post(t) =>
        var h, l := HamalOf(c, s, t).value, LaneOf(c, t);
        HamalUpdate(c, s, t, h.(stage := Waiting));
        PostedUpdate(s.qps, l, s.qps[l] + [WrOf(c, l, h)]);
      case Poll(t, k) => HamalUpdate(c, s, t, Polled(HamalOf(c, s, t).value));
      case CopyOut(t) => HamalUpdate(c, s, t, Advanced(HamalOf(c, s, t).value));
      case Finish(t) => if t < c.workers { PcUpdate(s, t, s'.workers[t]); }
      case Execute(lane) => PostedUpdate(s.qps, lane, s.qps[lane][1..]);
      case ExecuteOther(_) =>
    }
  }

  /** In every run, whoever takes whose completion, the signalled requests that are outstanding are exactly as many as
      the threads that poll and those that were outstanding at the start. */
  lemma {:induction false} Conservation(c: Setup, s: State, steps: seq<Step>, p: Policy)
    requires Between(c, s) && Run(c, s, steps, p)
    ensures |Exec(c, s, steps, p).workers| == c.workers
    ensures Outstanding(Exec(c, s, steps, p)) == Pollers(Exec(c, s, steps, p)) + Outstanding(s)
    decreases |steps|
  {
    if steps == [] {
      NoPoller(s.workers);
    } else {
      var n := |steps| - 1;
      Conservation(c, s, steps[..n], p);
      StepConserves(c, Exec(c, s, steps[..n], p), steps[n]);
    }
  }

  lemma {:induction false} SomePosted(qps: seq<seq<Wr>>) returns (l: nat)
    requires Posted(qps) > 0
    ensures l < |qps| && qps[l] != []
  {
    var n := |qps| - 1;
    if qps[n] != [] { l := n; } else { l := SomePosted(qps[..n]); }
  }

  lemma {:induction false} PollerCounts(ws: seq<Worker>, t: nat)
    requires t < |ws| && WaitingWorker(ws[t])
    ensures WaitingWorkers(ws) > 0
  {
    if t < |ws| - 1 { PollerCounts(ws[..|ws| - 1], t); }
  }

  /** No thread polls with nothing outstanding: a completion is there to take or a request is still posted. */
  lemma {:induction false} NoIdlePoller(c: Setup, s: State, steps: seq<Step>, p: Policy, t: nat)
    requires Between(c, s) && Run(c, s, steps, p)
    requires var h := HamalOf(c, Exec(c, s, steps, p), t); h.Some? && h.value.stage.Waiting?
    ensures var e := Exec(c, s, steps, p);
      e.cq != [] || e.others > 0 || exists l :: 0 <= l < |e.qps| && e.qps[l] != []
  {
    Conservation(c, s, steps, p);
    var e := Exec(c, s, steps, p);
    if t < c.workers { PollerCounts(e.workers, t); }
    if e.cq == [] && e.others == 0 { var l := SomePosted(e.qps); }
  }

  lemma {:induction false} NoPoller(ws: seq<Worker>)
    requires forall t :: 0 <= t < |ws| ==> !WaitingWorker(ws[t])
    ensures WaitingWorkers(ws) == 0
  {
    if ws != [] { NoPoller(ws[..|ws| - 1]); }
  }

  /** When no thread polls, exactly as much is outstanding as at the start: with nothing outstanding then, nothing is
      posted and no completion is left over for the next call. */
  lemma {:induction false} NothingLeftOver(c: Setup, s: State, steps: seq<Step>, p: Policy)
    requires Between(c, s) && Run(c, s, steps, p)
    requires forall t {:trigger HamalOf(c, Exec(c, s, steps, p), t)} :: 0 <= t <= c.workers ==>
               var h := HamalOf(c, Exec(c, s, steps, p), t); h.None? || !h.value.stage.Waiting?
    ensures var e := Exec(c, s, steps, p); Outstanding(e) == Outstanding(s)
    ensures var e := Exec(c, s, steps, p); Outstanding(s) == 0 ==>
      e.cq == [] && forall l :: 0 <= l < |e.qps| ==> e.qps[l] == []
  {
    Conservation(c, s, steps, p);
    var e := Exec(c, s, steps, p);
    forall t | 0 <= t < |e.workers|
      ensures !WaitingWorker(e.workers[t])
    {
      assert HamalOf(c, e, t).None? || !HamalOf(c, e, t).value.stage.Waiting?;
    }
    assert HamalOf(c, e, c.workers).None? || !HamalOf(c, e, c.workers).value.stage.Waiting?;
    NoPoller(e.workers);
    if Outstanding(s) == 0 { NonePosted(e.qps); }
  }

  lemma NonePosted(qps: seq<seq<Wr>>)
    requires Posted(qps) == 0
    ensures forall l :: 0 <= l < |qps| ==> qps[l] == []
  {
    forall l | 0 <= l < |qps|
      ensures qps[l] == []
    {
      PostedUpdate(qps, l, []);
    }
  }
}
