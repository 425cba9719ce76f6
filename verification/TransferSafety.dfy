/** What every step of the transfer engine keeps when each poll returns the poller's own completion, and what
    follows over whole runs: a call is one memcpy in every interleaving. */
module TransferSafety {
  import opened Memory
  import opened PartSplit
  import opened Wrappers
  import opened Transfer

  // ---------------------------------------------------------------- one activation on its lane

  function Src(task: Task, m: Mem): seq<Byte> { if task.write then m.local else m.remote }
  function SrcAt(task: Task): nat { if task.write then task.user else task.remote }
  function Dst(task: Task, m: Mem): seq<Byte> { if task.write then m.remote else m.local }
  function DstAt(task: Task): nat { if task.write then task.remote else task.user }

  ghost predicate SameShape(m: Mem, n: Mem) {
    |m.local| == |n.local| && |m.remote| == |n.remote|
  }

  /** The first `n` bytes of the task have reached their destination. */
  ghost predicate Settled(c: Setup, lane: nat, task: Task, n: nat, m: Mem, start: Mem)
    requires Mapped(c, m, lane, task) && SameShape(m, start) && n <= task.size
  {
    Same(Dst(task, m), DstAt(task), Src(task, start), SrcAt(task), n)
  }

  /** The staging pool holds the current chunk. */
  ghost predicate PoolHolds(c: Setup, lane: nat, h: Hamal, m: Mem, start: Mem)
    requires Mapped(c, m, lane, h.task) && SameShape(m, start) && h.done <= h.task.size
  {
    Same(m.local, PoolAddr(c, lane), Src(h.task, start), SrcAt(h.task) + h.done, ChunkLen(h))
  }

  /** `qp` and `n` are the lane's posted requests and its completions in the CQ. */
  ghost predicate HamalOk(c: Setup, lane: nat, h: Hamal, qp: seq<Wr>, n: nat, m: Mem, start: Mem) {
    && Mapped(c, m, lane, h.task)
    && SameShape(m, start)
    && h.done <= h.task.size
    && Settled(c, lane, h.task, h.done, m, start)
    && (h.stage.Top? || h.done < h.task.size)
    && match h.stage
       case Top => qp == [] && n == 0
       case Staged => h.task.write && qp == [] && n == 0 && PoolHolds(c, lane, h, m, start)
       case Waiting =>
         if qp == [] then
           n == 1 && if h.task.write then Settled(c, lane, h.task, h.done + ChunkLen(h), m, start) else PoolHolds(c,
               lane, h, m, start)
         else
           n == 0 && qp == [WrOf(c, lane, h)] && (h.task.write ==> PoolHolds(c, lane, h, m, start))
       case Arrived => !h.task.write && qp == [] && n == 0 && PoolHolds(c, lane, h, m, start)
  }

  /** Nothing changed outside the lane's pool and the destination of the lane's task. */
  ghost predicate Touches(c: Setup, lane: nat, task: Task, m: Mem, m': Mem) {
    && SameShape(m, m')
    && (forall a {:trigger m'.local[a]} :: 0 <= a < |m.local| && m'.local[a] != m.local[a] ==>
          PoolAddr(c, lane) <= a < PoolAddr(c, lane) + CHUNK || (!task.write && task.user <= a < task.user + task.size))
    && (forall a {:trigger m'.remote[a]} :: 0 <= a < |m.remote| && m'.remote[a] != m.remote[a] ==>
          task.write && task.remote <= a < task.remote + task.size)
  }

  /** Two lanes and their tasks share no pool and no destination byte. */
  ghost predicate Apart(c: Setup, lane: nat, task: Task, lane': nat, task': Task) {
    && lane != lane'
    && task.write == task'.write
    && (DstAt(task) + task.size <= DstAt(task') || DstAt(task') + task'.size <= DstAt(task))
  }

  ghost predicate OffPools(c: Setup, task: Task) {
    task.user + task.size <= PoolAddr(c, 0) || PoolAddr(c, c.workers) <= task.user
  }

  lemma PoolsApart(c: Setup, a: nat, b: nat)
    requires a < b
    ensures PoolAddr(c, a) + CHUNK <= PoolAddr(c, b)
  {
  }

  /** What one lane does to memory leaves another lane's settled bytes alone. */
  lemma SettledFrame(c: Setup, lane: nat, task: Task, u: nat, other: Task, n: nat, m: Mem, m': Mem, start: Mem)
    requires u < c.workers && lane < c.workers && Apart(c, lane, task, u, other) && Touches(c, lane, task, m, m')
    requires OffPools(c, other) && n <= other.size && Mapped(c, m, u, other) && SameShape(m, start)
    requires Settled(c, u, other, n, m, start)
    ensures Settled(c, u, other, n, m', start)
  {
    PoolsApart(c, 0, c.workers);
    if 0 < lane { PoolsApart(c, 0, lane); }
    PoolsApart(c, lane, c.workers);
  }

  /** What one lane does to memory leaves another lane's activation as it was. */
  lemma HamalFrame(c: Setup, lane: nat, task: Task, u: nat, h: Hamal, qp: seq<Wr>, n: nat, m: Mem, m': Mem, start: Mem)
    requires u < c.workers && lane < c.workers && Apart(c, lane, task, u, h.task) && Touches(c, lane, task, m, m')
    requires OffPools(c, h.task) && OffPools(c, task)
    requires HamalOk(c, u, h, qp, n, m, start)
    ensures HamalOk(c, u, h, qp, n, m', start)
  {
    SettledFrame(c, lane, task, u, h.task, h.done, m, m', start);
    if h.stage.Waiting? && qp == [] && h.task.write {
      SettledFrame(c, lane, task, u, h.task, h.done + ChunkLen(h), m, m', start);
    }
    if lane < u { PoolsApart(c, lane, u); } else { PoolsApart(c, u, lane); }
    PoolsApart(c, u, c.workers);
    if 0 < u { PoolsApart(c, 0, u); }
    if h.stage.Staged? || h.stage.Arrived? || h.stage.Waiting? {
      assert PoolHolds(c, u, h, m, start) ==> PoolHolds(c, u, h, m', start);
    }
  }

  // ---------------------------------------------------------------- the five steps of an activation

  lemma CopyInOk(c: Setup, lane: nat, h: Hamal, m: Mem, start: Mem)
    requires HamalOk(c, lane, h, [], 0, m, start) && h.stage.Top? && h.task.write && h.done < h.task.size
    requires lane < c.workers && OffPools(c, h.task)
    requires Same(m.local, h.task.user, start.local, h.task.user, h.task.size)
    ensures HamalOk(c, lane, h.(stage := Staged), [], 0, CopiedIn(c, m, lane, h), start)
    ensures Touches(c, lane, h.task, m, CopiedIn(c, m, lane, h))
  {
  }

  lemma ExecuteWriteOk(c: Setup, lane: nat, h: Hamal, m: Mem, start: Mem, m': Mem)
    requires h.done <= h.task.size && h.task.write && h.stage.Waiting?
    requires HamalOk(c, lane, h, [WrOf(c, lane, h)], 0, m, start)
    requires var wr := WrOf(c, lane, h); m' == m.(remote := Blit(m.remote, wr.remote, m.local, wr.pool, wr.len))
    ensures HamalOk(c, lane, h, [], 1, m', start)
    ensures Touches(c, lane, h.task, m, m')
  {
    var wr := WrOf(c, lane, h);
    forall a | h.task.remote <= a < h.task.remote + h.done + wr.len
      ensures m'.remote[a] == start.local[h.task.user + (a - h.task.remote)]
    {
      if a < wr.remote {
        assert m'.remote[a] == m.remote[a];
      } else {
        assert m'.remote[a] == m.local[wr.pool + (a - wr.remote)];
      }
    }
    assert Settled(c, lane, h.task, h.done + ChunkLen(h), m', start);
    assert Settled(c, lane, h.task, h.done, m', start);
  }

  lemma ExecuteReadOk(c: Setup, lane: nat, h: Hamal, m: Mem, start: Mem, m': Mem)
    requires h.done <= h.task.size && !h.task.write && h.stage.Waiting?
    requires lane < c.workers && OffPools(c, h.task)
    requires HamalOk(c, lane, h, [WrOf(c, lane, h)], 0, m, start)
    requires Same(m.remote, h.task.remote, start.remote, h.task.remote, h.task.size)
    requires var wr := WrOf(c, lane, h); m' == m.(local := Blit(m.local, wr.pool, m.remote, wr.remote, wr.len))
    ensures HamalOk(c, lane, h, [], 1, m', start)
    ensures Touches(c, lane, h.task, m, m')
  {
    PoolsApart(c, lane, c.workers);
    if 0 < lane { PoolsApart(c, 0, lane); }
    assert Settled(c, lane, h.task, h.done, m', start);
    assert PoolHolds(c, lane, h, m', start);
  }

  lemma ExecuteOk(c: Setup, lane: nat, h: Hamal, qp: seq<Wr>, m: Mem, start: Mem)
    requires HamalOk(c, lane, h, qp, 0, m, start) && qp != []
    requires lane < c.workers && OffPools(c, h.task)
    requires !h.task.write ==> m.remote == start.remote
    ensures h.stage.Waiting? && qp == [WrOf(c, lane, h)] && WrMapped(m, qp[0])
    ensures HamalOk(c, lane, h, [], 1, NicCopy(m, qp[0]), start)
    ensures Touches(c, lane, h.task, m, NicCopy(m, qp[0]))
  {
    if h.task.write {
      ExecuteWriteOk(c, lane, h, m, start, NicCopy(m, qp[0]));
    } else {
      ExecuteReadOk(c, lane, h, m, start, NicCopy(m, qp[0]));
    }
  }

  lemma PostOk(c: Setup, lane: nat, h: Hamal, m: Mem, start: Mem)
    requires HamalOk(c, lane, h, [], 0, m, start) && h.done < h.task.size
    requires h.stage == if h.task.write then Staged else Top
    ensures HamalOk(c, lane, h.(stage := Waiting), [WrOf(c, lane, h)], 0, m, start)
  {
  }

  lemma PollOk(c: Setup, lane: nat, h: Hamal, qp: seq<Wr>, n: nat, m: Mem, start: Mem)
    requires HamalOk(c, lane, h, qp, n, m, start) && h.stage.Waiting? && n > 0
    ensures qp == [] && n == 1
    ensures HamalOk(c, lane, Polled(h), [], 0, m, start)
  {
  }

  lemma CopyOutOk(c: Setup, lane: nat, h: Hamal, m: Mem, start: Mem)
    requires HamalOk(c, lane, h, [], 0, m, start) && h.stage.Arrived?
    requires lane < c.workers && OffPools(c, h.task)
    ensures HamalOk(c, lane, Advanced(h), [], 0, CopiedOut(c, m, lane, h), start)
    ensures Touches(c, lane, h.task, m, CopiedOut(c, m, lane, h))
  {
  }

  // ---------------------------------------------------------------- the whole state

  ghost predicate Shape(c: Setup, s: State) {
    && ValidSetup(c)
    && |s.tasks| == 4 && |s.workers| == c.workers && |s.qps| == c.workers
    && PoolAddr(c, c.workers) <= |s.mem.local|
  }

  ghost predicate Resting(s: State, t: nat)
    requires t < |s.workers|
  {
    s.workers[t] == Worker([], 0, Spinning)
  }

  /** No request of the lane is posted and none of its completions waits in the CQ. */
  ghost predicate Calm(s: State, lane: nat)
    requires lane < |s.qps|
  {
    s.qps[lane] == [] && multiset(s.cq)[lane] == 0
  }

  /** What may already differ from the memories at the start of the call. */
  ghost predicate Frame(c: Setup, m: Mem, start: Mem, call: Task) {
    && Admissible(c, start, call)
    && SameShape(m, start)
    && (forall a {:trigger m.local[a]} :: 0 <= a < |m.local| && m.local[a] != start.local[a] ==>
          InPools(c, a) || (!call.write && call.user <= a < call.user + CopiedSize(c, call)))
    && (forall a {:trigger m.remote[a]} :: 0 <= a < |m.remote| && m.remote[a] != start.remote[a] ==>
          call.write && call.remote <= a < call.remote + CopiedSize(c, call))
  }

  datatype Progress = Unpushed | Half | Pushed

  function PushState(s: State, t: nat): Progress {
    match s.caller
    case Pushing(next, appended) => if t < next then Pushed else if t == next && appended then Half else Unpushed
    case _ => Pushed
  }

  /** Worker `t` has run its task of the current large call. */
  predicate IsFinished(s: State, t: nat)
    requires t < |s.workers|
  {
    PushState(s, t).Pushed? && s.workers[t].pc.Spinning? && s.workers[t].queue == []
  }

  ghost function FinishedSet(s: State): set<nat> {
    set t | 0 <= t < |s.workers| && IsFinished(s, t)
  }

  /** Where worker `t` stands in the current large call. */
  ghost predicate WorkerOk(c: Setup, s: State, t: nat)
    requires Shape(c, s) && Frame(c, s.mem, s.start, s.call) && Large(s.call) && t < c.workers
  {
    var w, part, p := s.workers[t], Part(c, s.call, t), PushState(s, t);
    && (!w.pc.Busy? ==> Calm(s, t))
    && match w.pc
       case Spinning =>
         (match p
          case Unpushed => w.queue == [] && w.offset == 0
          case Half => w.queue == [t] && w.offset == 0 && s.tasks[t] == Some(part)
          case Pushed =>
            if w.queue == [] then w.offset == 0 && Mapped(c, s.mem, t, part)
                && Settled(c, t, part, part.size, s.mem, s.start)
            else w.queue == [t] && w.offset == 1 && s.tasks[t] == Some(part))
       case Admitted => p.Pushed? && w.queue == [t] && w.offset == 1 && s.tasks[t] == Some(part)
       case Erased(ptr) => p.Pushed? && ptr == t && w.queue == [] && w.offset == 1 && s.tasks[t] == Some(part)
       case Holding(ptr) => p.Pushed? && ptr == t && w.queue == [] && w.offset == 0 && s.tasks[t] == Some(part)
       case Busy(h) =>
         && p.Pushed? && w.queue == [] && w.offset == 0 && h.task == part
         && HamalOk(c, t, h, s.qps[t], multiset(s.cq)[t], s.mem, s.start)
  }

  ghost predicate Inv(c: Setup, s: State) {
    && Shape(c, s)
    && match s.caller
       case Idle =>
         forall t :: 0 <= t < c.workers ==> Resting(s, t) && Calm(s, t)
       case Inline(h) =>
         && Frame(c, s.mem, s.start, s.call) && !Large(s.call)
         && (forall t :: 0 <= t < c.workers ==> Resting(s, t) && (t > 0 ==> Calm(s, t)))
         && h.task == s.call && HamalOk(c, 0, h, s.qps[0], multiset(s.cq)[0], s.mem, s.start)
       case Leaving =>
         && Frame(c, s.mem, s.start, s.call) && !Large(s.call)
         && (forall t :: 0 <= t < c.workers ==> Resting(s, t) && Calm(s, t))
         && Mapped(c, s.mem, 0, s.call) && Settled(c, 0, s.call, s.call.size, s.mem, s.start)
       case _ =>
         && (s.caller.Pushing? ==> s.caller.next < c.workers)
         && Frame(c, s.mem, s.start, s.call) && Large(s.call)
         && (forall t :: 0 <= t < c.workers ==> WorkerOk(c, s, t))
         && s.signal == |FinishedSet(s)|
  }

  // ---------------------------------------------------------------- facts about parts

  lemma PartIn(c: Setup, m: Mem, call: Task, t: nat)
    requires Admissible(c, m, call) && Large(call) && t < c.workers
    ensures var p := Part(c, call, t);
      && p.write == call.write
      && call.user <= p.user && p.user + p.size <= call.user + CopiedSize(c, call) <= call.user + call.size
      && call.remote <= p.remote && p.remote + p.size <= call.remote + CopiedSize(c, call) <= call.remote + call.size
      && Mapped(c, m, t, p) && OffPools(c, p)
  {
    PartsTile(call.size, c.workers);
    assert PartFollows(call.size, c.workers, t);
    if t + 1 < c.workers {
      PartsDisjoint(call.size, c.workers, t, c.workers - 1);
    }
    PoolsApart(c, t, c.workers);
  }

  lemma PartsApart(c: Setup, m: Mem, call: Task, t: nat, u: nat)
    requires Admissible(c, m, call) && Large(call) && t < c.workers && u < c.workers && t != u
    ensures Apart(c, t, Part(c, call, t), u, Part(c, call, u))
  {
    if t < u { PartsDisjoint(call.size, c.workers, t, u); } else { PartsDisjoint(call.size, c.workers, u, t); }
  }

  lemma FrameStep(c: Setup, lane: nat, task: Task, call: Task, m: Mem, m': Mem, start: Mem)
    requires Frame(c, m, start, call) && Touches(c, lane, task, m, m') && lane < c.workers && task.write == call.write
    requires call.user <= task.user && task.user + task.size <= call.user + CopiedSize(c, call)
    requires call.remote <= task.remote && task.remote + task.size <= call.remote + CopiedSize(c, call)
    ensures Frame(c, m', start, call)
  {
    PoolsApart(c, lane, c.workers);
    if 0 < lane { PoolsApart(c, 0, lane); }
  }

  /** A step that changes only worker `t` and its lane leaves the other workers as they were. */
  lemma OthersFrame(c: Setup, s: State, s': State, t: nat, u: nat)
    requires Inv(c, s) && (s.caller.Pushing? || s.caller.Awaiting?) && Shape(c, s') && t < c.workers
        && u < c.workers && t != u
    requires s'.call == s.call && s'.start == s.start && PushState(s', u) == PushState(s, u)
    requires s'.workers[u] == s.workers[u] && s'.qps[u] == s.qps[u] && s'.tasks[u] == s.tasks[u]
    requires multiset(s'.cq)[u] == multiset(s.cq)[u]
    requires Touches(c, t, Part(c, s.call, t), s.mem, s'.mem)
    requires Frame(c, s'.mem, s.start, s.call)
    ensures WorkerOk(c, s', u)
  {
    PartsApart(c, s.start, s.call, t, u);
    PartIn(c, s.start, s.call, t);
    PartIn(c, s.start, s.call, u);
    assert WorkerOk(c, s, u);
    var w, part := s.workers[u], Part(c, s.call, u);
    match w.pc {
      case Busy(h) =>
        HamalFrame(c, t, Part(c, s.call, t), u, h, s.qps[u], multiset(s.cq)[u], s.mem, s'.mem, s.start);
      case Spinning =>
        if PushState(s, u).Pushed? && w.queue == [] {
          SettledFrame(c, t, Part(c, s.call, t), u, part, part.size, s.mem, s'.mem, s.start);
        }
      case _ =>
    }
  }

  lemma FinishedStep(s: State, s': State, t: nat)
    requires t < |s.workers| == |s'.workers| && !IsFinished(s, t)
    requires forall u :: 0 <= u < |s.workers| && u != t ==> (IsFinished(s', u) <==> IsFinished(s, u))
    ensures |FinishedSet(s')| == |FinishedSet(s)| + if IsFinished(s', t) then 1 else 0
  {
    if IsFinished(s', t) {
      assert FinishedSet(s') == FinishedSet(s) + {t};
    } else {
      assert FinishedSet(s') == FinishedSet(s);
    }
  }

  /** The shape shared by all worker steps of a large call. */
  lemma WorkerStep(c: Setup, s: State, s': State, t: nat)
    requires Inv(c, s) && (s.caller.Pushing? || s.caller.Awaiting?) && Shape(c, s') && t < c.workers
    requires s'.caller == s.caller && s'.call == s.call && s'.start == s.start && s'.tasks == s.tasks
    requires forall u :: 0 <= u < c.workers && u != t ==>
      s'.workers[u] == s.workers[u] && s'.qps[u] == s.qps[u] && multiset(s'.cq)[u] == multiset(s.cq)[u]
    requires Touches(c, t, Part(c, s.call, t), s.mem, s'.mem)
    requires Frame(c, s'.mem, s.start, s.call) ==> WorkerOk(c, s', t)
    requires !IsFinished(s, t)
    requires s'.signal == s.signal + (if IsFinished(s', t) then 1 else 0)
    ensures Inv(c, s')
  {
    hide HamalOk, WorkerOk, Touches;
    PartIn(c, s.start, s.call, t);
    FrameStep(c, t, Part(c, s.call, t), s.call, s.mem, s'.mem, s.start);
    forall u | 0 <= u < c.workers
      ensures WorkerOk(c, s', u)
    {
      if u != t { OthersFrame(c, s, s', t, u); }
    }
    assert forall u :: 0 <= u < c.workers && u != t ==> (IsFinished(s', u) <==> IsFinished(s, u));
    FinishedStep(s, s', t);
  }
}
