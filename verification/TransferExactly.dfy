/** Polls as they are written, with the two workers of the code, in every state that calls can leave behind: exactly
    when a call is one memcpy in every schedule, and exactly when it keeps its pools safe. */
module TransferExactly {
  import opened Memory
  import opened Transfer
  import opened TransferSafety
  import opened TransferRuns
  import opened TransferCount
  import opened TransferAny
  import opened TransferLive
  import opened TransferAsWritten
  import opened TransferLeftovers
  import opened TransferEchoes

  // ---------------------------------------------------------------- calls that return the right bytes

  /** Every schedule of the call that returns has done one memcpy. */
  ghost predicate CopiesRight(c: Setup, s: State, call: Task)
    requires Admissible(c, s.mem, call)
  {
    forall steps | NoBegin(steps) && Run(c, s, [Begin(call)] + steps, FirstCome) &&
                   Exec(c, s, [Begin(call)] + steps, FirstCome).caller.Idle? ::
      Agree(c, Exec(c, s, [Begin(call)] + steps, FirstCome).mem, Effect(c, s.mem, call))
  }

  /** The states in which it is: for an empty call, all writes that are posted are harmless; a call below 4 MiB finds
      nothing outstanding; and a read of at most one chunk may also find requests posted on its lane that fetch its
      range, and nothing else outstanding. */
  predicate FindsRight(c: Setup, s: State, call: Task)
    requires |s.qps| == c.workers >= 1
  {
    EchoStart(c, s, call) || (call.size < 4194304 && NoneOutstanding(s))
  }

  predicate NoneOutstanding(s: State) {
    s.cq == [] && s.others == 0 && forall l :: 0 <= l < |s.qps| ==> s.qps[l] == []
  }

  lemma {:induction false} OneCall(call: Task, steps: seq<Step>)
    requires NoBegin(steps)
    ensures Calls([Begin(call)] + steps) == [call]
  {
    var all := [Begin(call)] + steps;
    if steps == [] {
      assert all[..0] == [] && all == [Begin(call)];
    } else {
      var n := |steps| - 1;
      assert all[..n + 1] == [Begin(call)] + steps[..n];
      OneCall(call, steps[..n]);
    }
  }

  lemma SequentialOne(c: Setup, m: Mem, a: Task, r: Mem)
    requires Sequential(c, m, [a], r)
    ensures Admissible(c, m, a) && r == Effect(c, m, a)
  {
    assert [a][..0] == [];
    var m0 :| Sequential(c, m, [a][..0], m0) && Admissible(c, m0, a) && r == Effect(c, m0, a);
  }

  /** A small call that finds nothing outstanding. */
  lemma SmallCallRight(c: Setup, s: State, call: Task, steps: seq<Step>)
    requires Quiet(c, s) && s.cq == [] && s.others == 0 && !Large(call)
    requires NoBegin(steps) && Run(c, s, [Begin(call)] + steps, FirstCome)
    requires Exec(c, s, [Begin(call)] + steps, FirstCome).caller.Idle? && Admissible(c, s.mem, call)
    ensures Agree(c, Exec(c, s, [Begin(call)] + steps, FirstCome).mem, Effect(c, s.mem, call))
  {
    var all := [Begin(call)] + steps;
    OneLaneRuns(c, s, all);
    var done, r := RunsRefineSequential(c, s, all);
    OneCall(call, steps);
    assert done == [call];
    SequentialOne(c, s.mem, call, r);
  }

  lemma FindsRightCopies(c: Setup, s: State, call: Task)
    requires Between(c, s) && Admissible(c, s.mem, call) && FindsRight(c, s, call)
    ensures CopiesRight(c, s, call)
  {
    forall steps | NoBegin(steps) && Run(c, s, [Begin(call)] + steps, FirstCome)
        && Exec(c, s, [Begin(call)] + steps, FirstCome).caller.Idle?
      ensures Agree(c, Exec(c, s, [Begin(call)] + steps, FirstCome).mem, Effect(c, s.mem, call))
    {
      if EchoStart(c, s, call) { EchoesRight(c, s, call, steps); } else { SmallCallRight(c, s, call, steps); }
    }
  }

  /** Some schedule returns something else. */
  lemma ReturnedWrong(c: Setup, s: State, call: Task, r: State)
    requires Admissible(c, s.mem, call) && Reaches(c, s, call, r) && r.caller.Idle?
    requires !Agree(c, r.mem, Effect(c, s.mem, call))
    ensures !CopiesRight(c, s, call)
  {
    var steps :| NoBegin(steps) && RunsTo(c, s, call, steps, r);
  }

  /** A memory in which the first byte of the call shows a copy that went wrong. */
  ghost function Telling(m: Mem, call: Task): (r: Mem)
    ensures SameShape(m, r)
  {
    if call.write then Marked(m, true, call.user) else Mem(seq(|m.local|, _ => 0), seq(|m.remote|, _ => 1))
  }

  /** A lane that moves only zeros leaves zeros. */
  lemma {:induction false} ExecutedZeros(c: Setup, m: Mem, l: nat, qp: seq<Wr>)
    requires (forall j :: 0 <= j < |qp| ==> WrMapped(m, qp[j])) && RequestsOk(c, m, l, qp)
    requires (forall a :: 0 <= a < |m.remote| ==> m.remote[a] == 0)
    requires (forall a :: PoolAddr(c, l) <= a < PoolAddr(c, l) + CHUNK && a < |m.local| ==> m.local[a] == 0)
    ensures Executed(m, qp) == m
    decreases |qp|
  {
    if qp != [] {
      var n := |qp| - 1;
      ExecutedZeros(c, m, l, qp[..n]);
      assert RequestOk(c, m, l, qp[n]);
      assert NicCopy(m, qp[n]).local == m.local && NicCopy(m, qp[n]).remote == m.remote;
    }
  }

  lemma TellingDiffers(c: Setup, s: State, call: Task)
    requires Between(c, s) && c.workers == 2 && Admissible(c, s.mem, call) && call.size > 0
    ensures var s1 := s.(mem := Telling(s.mem, call));
      && Between(c, s1) && Admissible(c, s1.mem, call) && BothOk(c, s1.mem, s1.qps) && Differs(c, s1, call, 0)
  {
    var m := Telling(s.mem, call);
    MemBetween(c, s, m);
    BetweenBothOk(c, s.(mem := m));
    PoolsApart(c, 0, 1);
    PoolsApart(c, 1, 2);
    if call.write {
      OkMapped(c, m, 0, s.qps[0]);
      OkMapped(c, m, 1, s.qps[1]);
      ExecutedZeros(c, m, 0, s.qps[0]);
      ExecutedZeros(c, m, 1, s.qps[1]);
    }
  }

  lemma QuietOrPosted(c: Setup, s: State)
    requires Between(c, s)
    ensures |s.qps| == c.workers >= 1 && (NoneOutstanding(s) <==> Outstanding(s) == 0)
    ensures NoneOutstanding(s) ==> Quiet(c, s)
    ensures !NoneOutstanding(s) && !Elsewhere(s) ==> s.qps[0] != []
  {
    if Outstanding(s) == 0 { NonePosted(s.qps); }
    if NoneOutstanding(s) { NonePostedYet(s.qps); }
  }

  /** In every other state some memory shows it. */
  lemma OthersGoWrong(c: Setup, s: State, call: Task) returns (m: Mem)
    requires Between(c, s) && c.workers == 2 && Admissible(c, s.mem, call) && !FindsRight(c, s, call)
    ensures SameShape(m, s.mem) && Admissible(c, m, call) && !CopiesRight(c, s.(mem := m), call)
  {
    hide Reaches, CopiesRight, Effect, Agree, Between, Differs, BothOk;
    var r;
    QuietOrPosted(c, s);
    if call.size == 0 {
      var l :| 0 <= l < c.workers && !Harmless(s.qps[l]);
      m, r := EmptyReturnsWrong(c, s, call, l);
    } else if Large(call) || Elsewhere(s) || call.write {
      TellingDiffers(c, s, call);
      m := Telling(s.mem, call);
      QuietOrPosted(c, s.(mem := m));
      r := ReturnsWrong(c, s.(mem := m), call, 0);
    } else if call.size > CHUNK {
      m, r := LongReadReturnsWrong(c, s, call);
    } else if !Harmless(s.qps[0]) {
      m, r := HarmReturnsWrong(c, s, call);
    } else {
      assert !Fetched(s.qps[0], call);
      m, r := OtherBytesReturned(c, s, call);
    }
    ReturnedWrong(c, s.(mem := m), call, r);
  }

  /** With the two workers of the code and polls as they are written, a call that begins in any state that earlier calls
      can leave behind is one memcpy in every schedule, whatever memory holds, exactly in these. */
  lemma CopiesRightIff(c: Setup, s: State, call: Task)
    requires Between(c, s) && c.workers == 2 && Admissible(c, s.mem, call)
    ensures (forall m: Mem {:trigger s.(mem := m)} :: SameShape(m, s.mem) ==> CopiesRight(c, s.(mem := m), call))
            <==> FindsRight(c, s, call)
  {
    hide CopiesRight, EchoStart;
    if FindsRight(c, s, call) {
      forall m: Mem | SameShape(m, s.mem) ensures CopiesRight(c, s.(mem := m), call) {
        MemBetween(c, s, m);
        SameFinds(c, s, call, m);
        FindsRightCopies(c, s.(mem := m), call);
      }
    } else {
      var m := OthersGoWrong(c, s, call);
      assert !CopiesRight(c, s.(mem := m), call);
    }
  }

  lemma SameFinds(c: Setup, s: State, call: Task, m: Mem)
    requires |s.qps| == c.workers >= 1
    ensures FindsRight(c, s.(mem := m), call) == FindsRight(c, s, call)
  {
  }

  // ---------------------------------------------------------------- pools

  /** In every schedule of the call no pool is used while a posted request still needs it. */
  ghost predicate PoolsSafe(c: Setup, s: State, call: Task) {
    forall steps :: NoBegin(steps) && Run(c, s, [Begin(call)] + steps, FirstCome) ==>
      PoolSafe(c, Exec(c, s, [Begin(call)] + steps, FirstCome))
  }

  /** The states in which it is: an empty call always; otherwise nothing is posted on the lane of the call, and it is a
      write of at most one chunk, which uses its pool once, or it is below 4 MiB and nothing is outstanding. */
  predicate FindsSafe(s: State, call: Task)
    requires |s.qps| >= 1
  {
    call.size == 0 || (s.qps[0] == [] &&
      ((call.write && call.size <= 1048576) || (call.size < 4194304 && NoneOutstanding(s))))
  }

  lemma SmallCallSafe(c: Setup, s: State, call: Task, steps: seq<Step>)
    requires Quiet(c, s) && s.cq == [] && s.others == 0 && !Large(call)
    requires NoBegin(steps) && Run(c, s, [Begin(call)] + steps, FirstCome)
    ensures PoolSafe(c, Exec(c, s, [Begin(call)] + steps, FirstCome))
  {
    var all := [Begin(call)] + steps;
    OneLaneRuns(c, s, all);
    RunPools(c, s, all);
    var e := Exec(c, s, all, Own);
    forall t | 0 <= t <= c.workers && LaneOf(c, t) < |e.qps| && UsesPool(c, e, t)
      ensures e.qps[LaneOf(c, t)] == []
    {
      assert HamalOf(c, e, t).Some?;
    }
  }

  /** An empty call uses no pool, and a write of one chunk that finds nothing posted on its lane stages it before it
      posts. */
  ghost predicate Short(c: Setup, s: State) {
    && |s.qps| == c.workers >= 1
    && (s.call.size == 0 || (s.call.write && s.call.size <= CHUNK))
    && (s.caller.Inline? && s.caller.h.stage.Top? && s.caller.h.done < s.call.size ==> s.qps[0] == [])
    && (s.caller.Inline? && !s.caller.h.stage.Waiting? ==> s.caller.h.done == 0 || s.caller.h.done == s.call.size)
    && (s.caller.Inline? && s.caller.h.stage.Waiting? ==> s.caller.h.done == 0)
  }

  lemma StepShort(c: Setup, s: State, step: Step)
    requires Outline(c, s) && !Large(s.call) && Short(c, s) && Enabled(c, s, step) && !step.Begin?
    ensures Short(c, Apply(c, s, step))
  {
    SmallSteps(c, s, step);
    if step.CopyIn? || step.Post? || step.Poll? || step.CopyOut? || step.Finish? { ActiveShape(c, s, step.t); }
  }

  lemma BeginShort(c: Setup, s: State, call: Task)
    requires Between(c, s) && Enabled(c, s, Begin(call))
    requires call.size == 0 || (call.write && call.size <= CHUNK && s.qps[0] == [])
    ensures Short(c, Apply(c, s, Begin(call)))
  {
  }

  lemma {:induction false} RunShort(c: Setup, s: State, call: Task, steps: seq<Step>)
    requires Between(c, s) && NoBegin(steps) && Run(c, s, [Begin(call)] + steps, FirstCome)
    requires call.size == 0 || (call.write && call.size <= CHUNK && s.qps[0] == [])
    ensures var e := Exec(c, s, [Begin(call)] + steps, FirstCome); Outline(c, e) && e.call == call && Short(c, e)
    decreases |steps|
  {
    hide Outline, Apply;
    var all := [Begin(call)] + steps;
    CallKept(c, s, call, steps);
    RunLength(c, s, call, steps, FirstCome);
    if steps == [] {
      assert all[..0] == [] && all == [Begin(call)];
      BeginShort(c, s, call);
    } else {
      var n := |steps| - 1;
      assert all[..n + 1] == [Begin(call)] + steps[..n];
      RunShort(c, s, call, steps[..n]);
      StepShort(c, Exec(c, s, all[..n + 1], FirstCome), steps[n]);
    }
  }

  lemma ShortCallSafe(c: Setup, s: State, call: Task, steps: seq<Step>)
    requires Between(c, s) && NoBegin(steps) && Run(c, s, [Begin(call)] + steps, FirstCome)
    requires call.size == 0 || (call.write && call.size <= CHUNK && s.qps[0] == [])
    ensures PoolSafe(c, Exec(c, s, [Begin(call)] + steps, FirstCome))
  {
    RunShort(c, s, call, steps);
    var e := Exec(c, s, [Begin(call)] + steps, FirstCome);
    forall t | 0 <= t <= c.workers && LaneOf(c, t) < |e.qps| && UsesPool(c, e, t)
      ensures e.qps[LaneOf(c, t)] == []
    {
      assert HamalOf(c, e, t).Some?;
      ActiveShape(c, e, t);
    }
  }

  /** A thread that is about to stage a chunk while a request of its lane is posted. */
  lemma StagesTooEarly(c: Setup, s: State, call: Task) returns (u: State)
    requires Between(c, s) && Admissible(c, s.mem, call) && !Large(call) && call.write && call.size > 0
    requires s.qps[0] != []
    ensures Reaches(c, s, call, u) && !PoolSafe(c, u)
  {
    hide Reaches;
    ReachBegin(c, s, call);
    u := Apply(c, s, Begin(call));
    PoolsApart(c, 0, c.workers);
    assert UsesPool(c, u, c.workers) && HamalOf(c, u, c.workers).Some?;
  }

  lemma UnsafeReached(c: Setup, s: State, call: Task) returns (u: State)
    requires Between(c, s) && c.workers == 2 && Admissible(c, s.mem, call) && !FindsSafe(s, call)
    ensures Reaches(c, s, call, u) && !PoolSafe(c, u)
  {
    hide Reaches, Ready, Between;
    QuietOrPosted(c, s);
    if !Large(call) && call.write && s.qps[0] != [] {
      u := StagesTooEarly(c, s, call);
    } else {
      var t, task, e := c.workers, call, s;
      if Large(call) {
        t, task := 0, Part(c, call, 0);
        e := LargeSlips(c, s, call);
      } else if call.write {
        e := SmallDrained(c, s, call);
      } else {
        e := SmallReady(c, s, call);
      }
      u := SlipUnsafe(c, s, call, e, t, task);
    }
  }

  lemma SlipUnsafe(c: Setup, s: State, call: Task, e: State, t: nat, task: Task) returns (u: State)
    requires Reaches(c, s, call, e)
    requires if call.write then Slips(c, s, call, e, t, task) else Ready(c, s, call, e, t, task)
    requires call.write ==> call.size > CHUNK
    ensures Reaches(c, s, call, u) && !PoolSafe(c, u)
  {
    hide Reaches;
    if call.write { u := SlipWrite(c, s, call, e, t, task); } else { u := SlipRead(c, s, call, e, t, task); }
    assert UsesPool(c, u, t) && LaneOf(c, t) == 0 && u.qps[0] != [];
    assert HamalOf(c, u, t).Some?;
  }

  /** With the two workers of the code and polls as they are written, a call that begins in any state that earlier calls
      can leave behind keeps its pools safe in every schedule exactly in these. */
  lemma PoolSafeIff(c: Setup, s: State, call: Task)
    requires Between(c, s) && c.workers == 2 && Admissible(c, s.mem, call)
    ensures PoolsSafe(c, s, call) <==> FindsSafe(s, call)
  {
    hide PoolSafe;
    if FindsSafe(s, call) {
      forall steps | NoBegin(steps) && Run(c, s, [Begin(call)] + steps, FirstCome)
        ensures PoolSafe(c, Exec(c, s, [Begin(call)] + steps, FirstCome))
      {
        if call.size == 0 || (call.write && call.size <= CHUNK) {
          ShortCallSafe(c, s, call, steps);
        } else {
          SmallCallSafe(c, s, call, steps);
        }
      }
    } else {
      var u := UnsafeReached(c, s, call);
      var steps :| NoBegin(steps) && RunsTo(c, s, call, steps, u);
    }
  }
}
