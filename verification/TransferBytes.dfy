/** What a call does, byte by byte, and with the sizes of the source written out: 4 MiB from where a range is divided,
    4 KB parts, and staging pools of 1 MiB that start 4 KB into the memory of the client. */
module TransferBytes {
  import opened Memory
  import opened Wrappers
  import opened PartSplit
  import opened Transfer
  import opened TransferRuns
  import opened TransferAny
  import opened TransferLive
  import opened TransferExactly

  /** How many bytes `w` workers copy. */
  function CopiedBytes(w: nat, size: nat): nat
    requires 1 <= w <= 4
  {
    if size < 4194304 || w == 4 then size
    else if w == 1 then size / 4096 * 4096
    else if w == 2 then size / 8192 * 8192
    else size / 12288 * 12288
  }

  lemma AlignedParts(size: nat)
    ensures Align(size) == size / 4096 * 4096
    ensures 2 * Align(size / 2) == size / 8192 * 8192 && 3 * Align(size / 3) == size / 12288 * 12288
  {
    assert size / 2 / 4096 == size / 8192 && size / 3 / 4096 == size / 12288;
  }

  lemma CopiedIs(c: Setup, call: Task)
    requires ValidSetup(c) && (Large(call) ==> FitsInt(call.size, c.workers))
    ensures CopiedSize(c, call) == CopiedBytes(c.workers, call.size) <= call.size
  {
    if Large(call) {
      ShipSizeBounds(call.size, c.workers);
      AlignedParts(call.size);
      hide Align, ShipSize;
      var w := c.workers;
      assert w == 1 || w == 2 || w == 3 || w == 4;
    }
  }

  lemma PoolsAt(c: Setup, l: nat)
    ensures PoolAddr(c, l) == c.mm + 4096 + l * 1048576
  {
  }

  predicate InPool(c: Setup, a: int) { c.mm + 4096 <= a < c.mm + 4096 + c.workers * 1048576 }

  /** A write that has returned: exactly these bytes of the remote memory are the source's and all others are as before,
      and of the client's memory only pools may have changed. */
  ghost predicate WroteExactly(c: Setup, call: Task, n: nat, m: Mem, e: Mem) {
    && |e.local| == |m.local| && |e.remote| == |m.remote|
    && call.user + n <= |m.local| && call.remote + n <= |m.remote|
    && (forall a {:trigger e.remote[a]} :: 0 <= a < |m.remote| ==>
          e.remote[a] ==
            (if call.remote <= a < call.remote + n then m.local[call.user + (a - call.remote)] else m.remote[a]))
    && (forall a :: 0 <= a < |m.local| && !InPool(c, a) ==> e.local[a] == m.local[a])
  }

  /** A read that has returned: the same for the user buffer, and the remote memory is as before. */
  ghost predicate ReadExactly(c: Setup, call: Task, n: nat, m: Mem, e: Mem) {
    && |e.local| == |m.local| && e.remote == m.remote
    && call.user + n <= |m.local| && call.remote + n <= |m.remote|
    && (forall a {:trigger e.local[a]} :: 0 <= a < |m.local| && !InPool(c, a) ==>
          e.local[a] == if call.user <= a < call.user + n then m.remote[call.remote + (a - call.user)] else m.local[a])
    && (forall a :: call.user <= a < call.user + n ==> !InPool(c, a))
  }

  lemma WriteBytes(c: Setup, m: Mem, e: Mem, call: Task, n: nat)
    requires Admissible(c, m, call) && Agree(c, e, Effect(c, m, call)) && call.write
    requires n == CopiedSize(c, call) <= call.size
    ensures WroteExactly(c, call, n, m, e)
  {
    hide FitsInt, Covered;
    PoolsAt(c, 0);
    PoolsAt(c, c.workers);
  }

  lemma ReadBytes(c: Setup, m: Mem, e: Mem, call: Task, n: nat)
    requires Admissible(c, m, call) && Agree(c, e, Effect(c, m, call)) && !call.write
    requires n == CopiedSize(c, call) <= call.size
    ensures ReadExactly(c, call, n, m, e)
  {
    hide FitsInt, Covered;
    PoolsAt(c, 0);
    PoolsAt(c, c.workers);
  }

  lemma EffectBytes(c: Setup, m: Mem, e: Mem, call: Task)
    requires Admissible(c, m, call) && Agree(c, e, Effect(c, m, call))
    ensures var n := CopiedBytes(c.workers, call.size);
      if call.write then WroteExactly(c, call, n, m, e) else ReadExactly(c, call, n, m, e)
  {
    hide WroteExactly, ReadExactly, Effect, Agree, CopiedBytes, CopiedSize;
    CopiedIs(c, call);
    var n := CopiedSize(c, call);
    if call.write { WriteBytes(c, m, e, call, n); } else { ReadBytes(c, m, e, call, n); }
  }

  /** Every call that returns, for every size and in every schedule in which polls take their own completions. */
  lemma {:induction false} CallCopies(c: Setup, s: State, call: Task, steps: seq<Step>)
    requires Quiet(c, s) && OthersOnly(c, s) && NoBegin(steps) && Run(c, s, [Begin(call)] + steps, Own)
    requires Exec(c, s, [Begin(call)] + steps, Own).caller.Idle?
    ensures var n, e := CopiedBytes(c.workers, call.size), Exec(c, s, [Begin(call)] + steps, Own).mem;
      if call.write then WroteExactly(c, call, n, s.mem, e) else ReadExactly(c, call, n, s.mem, e)
  {
    var done, r := RunsRefineSequential(c, s, [Begin(call)] + steps);
    OneCall(call, steps);
    assert done == [call];
    SequentialOne(c, s.mem, call, r);
    EffectBytes(c, s.mem, Exec(c, s, [Begin(call)] + steps, Own).mem, call);
  }

  /** The number of steps of a small call, and the requests that make it up: one of at most 1 MiB for each round,
      between the pool of the lane and the next bytes of the range. */
  lemma SmallLength(c: Setup, call: Task)
    requires ValidSetup(c) && call.size < 4194304
    ensures CallLength(c, call) == 4 * ((call.size + 1048575) / 1048576) + 2
  {
    ChunksCeiling(call.size);
  }

  lemma PostedRequest(c: Setup, s: State, t: nat, h: Hamal)
    requires Enabled(c, s, Post(t)) && HamalOf(c, s, t) == Some(h)
    ensures h.done < h.task.size && LaneOf(c, t) < |s.qps|
    ensures Apply(c, s, Post(t)).qps[LaneOf(c, t)] == s.qps[LaneOf(c, t)] + [Wr(h.task.write,
      c.mm + 4096 + LaneOf(c, t) * 1048576, h.task.remote + h.done,
      if h.task.size - h.done >= 1048576 then 1048576 else h.task.size - h.done)]
    ensures LaneOf(c, t) == if t < c.workers then t else 0
  {
  }

  /** The counters of the polling queue and of the signal wrap around at 8 and 16 bits. */
  lemma CountersWrap(x: nat)
    ensures x < 256 ==> Inc8(x) == (x + 1) % 256
    ensures x < 65536 ==> Inc16(x) == (x + 1) % 65536
  {
  }

  /** Activations of the chunk loop that have ended since the last division of a range. */
  function Endings(start: nat, steps: seq<Step>): nat {
    if steps == [] then start
    else
      var k := |steps| - 1;
      match steps[k]
      case Begin(task) => if task.size >= 4194304 then 0 else Endings(start, steps[..k])
      case Finish(_) => Endings(start, steps[..k]) + 1
      case _ => Endings(start, steps[..k])
  }

  lemma StepSignal(c: Setup, s: State, step: Step)
    requires Enabled(c, s, step) && s.signal < 65536
    ensures var s' := Apply(c, s, step);
      && (step.Begin? ==> s'.signal == if step.task.size >= 4194304 then 0 else s.signal)
      && (step.Finish? ==> s'.signal == (s.signal + 1) % 65536)
      && (!step.Begin? && !step.Finish? ==> s'.signal == s.signal)
    ensures step.Decrement? ==>
      Apply(c, s, step).workers[step.t].offset == s.workers[step.t].offset - 1
  {
  }

  lemma NextEnding(m: nat)
    ensures (m % 65536 + 1) % 65536 == (m + 1) % 65536
  {
  }

  /** In every run the signal counts the activations that have ended since the last division of a range, modulo 2^16. */
  lemma {:induction false} SignalCounts(c: Setup, s: State, steps: seq<Step>, p: Policy)
    requires Run(c, s, steps, p) && s.signal < 65536
    ensures Exec(c, s, steps, p).signal == Endings(s.signal, steps) % 65536
    decreases |steps|
  {
    hide Apply, Enabled;
    if steps != [] {
      var k := |steps| - 1;
      SignalCounts(c, s, steps[..k], p);
      StepSignal(c, Exec(c, s, steps[..k], p), steps[k]);
      NextEnding(Endings(s.signal, steps[..k]));
    }
  }

  // ---------------------------------------------------------------- the completion queue

  /** The completions that the NIC has added in a run, and the polls of the run. */
  function Completed(c: Setup, steps: seq<Step>): seq<nat> {
    if steps == [] then []
    else
      var k := |steps| - 1;
      Completed(c, steps[..k]) +
      if steps[k].Execute? then [steps[k].lane] else if steps[k].ExecuteOther? then [c.workers + steps[k].from] else []
  }

  function Polls(steps: seq<Step>): nat {
    if steps == [] then 0 else Polls(steps[..|steps| - 1]) + if steps[|steps| - 1].Poll? then 1 else 0
  }

  lemma StepCq(c: Setup, s: State, step: Step)
    requires Allowed(c, s, step, FirstCome)
    ensures var cq := Apply(c, s, step).cq;
      && (step.Poll? ==> s.cq != [] && cq == s.cq[1..])
      && (step.Execute? ==> cq == s.cq + [step.lane])
      && (step.ExecuteOther? ==> cq == s.cq + [c.workers + step.from])
      && (!step.Poll? && !step.Execute? && !step.ExecuteOther? ==> cq == s.cq)
  {
    if step.Poll? { assert Without(s.cq, 0) == s.cq[1..]; }
  }

  /** As the code polls, completions are taken in the order in which the NIC has added them. */
  lemma {:induction false} CompletionsInOrder(c: Setup, s: State, steps: seq<Step>)
    requires Run(c, s, steps, FirstCome)
    ensures var all := s.cq + Completed(c, steps);
      Polls(steps) <= |all| && Exec(c, s, steps, FirstCome).cq == all[Polls(steps)..]
    decreases |steps|
  {
    hide Apply, Enabled;
    if steps != [] {
      var k := |steps| - 1;
      CompletionsInOrder(c, s, steps[..k]);
      StepCq(c, Exec(c, s, steps[..k], FirstCome), steps[k]);
      var before := Completed(c, steps[..k]);
      assert s.cq + Completed(c, steps) == s.cq + before + Completed(c, steps)[|before|..];
    }
  }
}
