/** The bulk transfer engine as a state machine: one caller of RemoteRead/RemoteWrite, `workers` transfer
    workers, and the NIC. Every field below is a variable of the program except `start`, which remembers
    the memories at the beginning of the current call so that properties can speak about them.

    A lane is a TaskID: it owns one queue pair and one staging pool. Worker `t` drives lane `t`; the caller
    drives lane 0 itself when the range is small. The NIC reads the staging pool when a request executes,
    not when it is posted. A poll may take any completion; the policies below say which ones a run allows. The
    client's remote calls use other queue pairs but the same CQ: `others` counts their signalled requests that are
    still to execute. */
module Transfer {
  import opened Memory
  import opened PartSplit
  import opened Wrappers

  const CHUNK: nat := 0x10_0000
  const SMALL_LIMIT: nat := 0x40_0000

  datatype Setup = Setup(workers: nat, mm: nat)

  /** A TransferTask, and also the arguments of a RemoteRead/RemoteWrite call. */
  datatype Task = Task(write: bool, user: nat, remote: nat, size: nat)

  datatype Stage = Top | Staged | Waiting | Arrived

  /** The locals of one InboundHamal/OutboundHamal activation. */
  datatype Hamal = Hamal(task: Task, done: nat, stage: Stage)

  datatype WorkerPc = Spinning | Admitted | Erased(ptr: nat) | Holding(ptr: nat) | Busy(h: Hamal)

  /** A worker thread with its polling queue: the vector and the counter beside it. */
  datatype Worker = Worker(queue: seq<nat>, offset: nat, pc: WorkerPc)

  datatype CallerPc = Idle | Pushing(next: nat, appended: bool) | Awaiting | Inline(h: Hamal) | Leaving

  datatype Wr = Wr(write: bool, pool: nat, remote: nat, len: nat)

  datatype State = State(
    caller: CallerPc,
    call: Task,
    tasks: seq<Option<Task>>,
    signal: nat,
    workers: seq<Worker>,
    qps: seq<seq<Wr>>,
    others: nat,
    cq: seq<nat>,
    mem: Mem,
    start: Mem)

  datatype Step =
    | Begin(task: Task)
    | PushItem
    | PushCount
    | AwaitExit
    | LeaveInline
    | See(t: nat)
    | Erase(t: nat)
    | Decrement(t: nat)
    | Dereference(t: nat)
    | CopyIn(t: nat)
    | Post(t: nat)
    | Poll(t: nat, k: nat)
    | CopyOut(t: nat)
    | Finish(t: nat)
    | Execute(lane: nat)
    | ExecuteOther(from: nat)

  /** Which completion a poll may take: any one, only the poller's own, or whichever is first in the CQ
      (which is what the code does). */
  datatype Policy = Any | Own | FirstCome

  predicate ValidSetup(c: Setup) {
    1 <= c.workers <= 4
  }

  function PoolAddr(c: Setup, lane: nat): nat {
    c.mm + 4096 + lane * CHUNK
  }

  function LaneOf(c: Setup, t: nat): nat {
    if t == c.workers then 0 else t
  }

  function Min(a: nat, b: nat): nat {
    if a <= b then a else b
  }

  function ChunkLen(h: Hamal): nat
    requires h.done <= h.task.size
  {
    Min(CHUNK, h.task.size - h.done)
  }

  predicate Large(call: Task) {
    call.size >= SMALL_LIMIT
  }

  /** The user buffer and the remote range exist, the user buffer is not part of the staging pools, and the
      32-bit part arithmetic does not overflow. */
  predicate Admissible(c: Setup, m: Mem, call: Task) {
    && ValidSetup(c)
    && PoolAddr(c, c.workers) <= |m.local|
    && call.user + call.size <= |m.local|
    && call.remote + call.size <= |m.remote|
    && (call.user + call.size <= PoolAddr(c, 0) || PoolAddr(c, c.workers) <= call.user)
    && (Large(call) ==> FitsInt(call.size, c.workers))
  }

  /** `tasks[t]` as the caller fills it in. */
  function Part(c: Setup, call: Task, t: nat): Task
    requires ValidSetup(c) && FitsInt(call.size, c.workers) && t < c.workers
  {
    PartEnd(call.size, c.workers, t);
    var off := PartOffset(call.size, c.workers, t);
    Task(call.write, call.user + off, call.remote + off, PartSize(call.size, c.workers, t))
  }

  function HamalOf(c: Setup, s: State, t: nat): Option<Hamal> {
    if t == c.workers && s.caller.Inline? then Some(s.caller.h)
    else if t < c.workers && t < |s.workers| && s.workers[t].pc.Busy? then Some(s.workers[t].pc.h)
    else None
  }

  function WithHamal(c: Setup, s: State, t: nat, h: Hamal): State
    requires HamalOf(c, s, t).Some?
  {
    if t == c.workers then s.(caller := Inline(h)) else SetPc(s, t, Busy(h))
  }

  function SetPc(s: State, t: nat, pc: WorkerPc): State
    requires t < |s.workers|
  {
    s.(workers := s.workers[t := s.workers[t].(pc := pc)])
  }

  function WrOf(c: Setup, lane: nat, h: Hamal): Wr
    requires h.done <= h.task.size
  {
    Wr(h.task.write, PoolAddr(c, lane), h.task.remote + h.done, ChunkLen(h))
  }

  /** Increment of the 8-bit queue counter and of the 16-bit TransferSignal. */
  function Inc8(x: nat): nat { if x == 0xFF then 0 else x + 1 }
  function Inc16(x: nat): nat { if x == 0xFFFF then 0 else x + 1 }

  /** Every address that the activation can touch exists. */
  predicate Mapped(c: Setup, m: Mem, lane: nat, task: Task) {
    && PoolAddr(c, lane) + CHUNK <= |m.local|
    && task.user + task.size <= |m.local|
    && task.remote + task.size <= |m.remote|
  }

  predicate WrMapped(m: Mem, wr: Wr) {
    wr.pool + wr.len <= |m.local| && wr.remote + wr.len <= |m.remote|
  }

  /** What the NIC does to memory when it executes a request. */
  function NicCopy(m: Mem, wr: Wr): Mem
    requires WrMapped(m, wr)
  {
    if wr.write then m.(remote := Blit(m.remote, wr.remote, m.local, wr.pool, wr.len))
    else m.(local := Blit(m.local, wr.pool, m.remote, wr.remote, wr.len))
  }

  /** memcpy of the next chunk from the user buffer into the staging pool. */
  function CopiedIn(c: Setup, m: Mem, lane: nat, h: Hamal): Mem
    requires Mapped(c, m, lane, h.task) && h.done <= h.task.size
  {
    m.(local := Blit(m.local, PoolAddr(c, lane), m.local, h.task.user + h.done, ChunkLen(h)))
  }

  /** memcpy of the chunk that has arrived from the staging pool to the user buffer. */
  function CopiedOut(c: Setup, m: Mem, lane: nat, h: Hamal): Mem
    requires Mapped(c, m, lane, h.task) && h.done <= h.task.size
  {
    m.(local := Blit(m.local, h.task.user + h.done, m.local, PoolAddr(c, lane), ChunkLen(h)))
  }

  /** The activation after its chunk is done. */
  function Advanced(h: Hamal): Hamal
    requires h.done <= h.task.size
  {
    h.(done := h.done + ChunkLen(h), stage := Top)
  }

  /** The activation after its poll. */
  function Polled(h: Hamal): Hamal
    requires h.done <= h.task.size
  {
    if h.task.write then Advanced(h) else h.(stage := Arrived)
  }

  function Without(cq: seq<nat>, k: nat): seq<nat>
    requires k < |cq|
  {
    cq[..k] + cq[k + 1..]
  }

  predicate Enabled(c: Setup, s: State, step: Step) {
    match step
    case Begin(task) => s.caller.Idle? && Admissible(c, s.mem, task)
    case PushItem =>
      && s.caller.Pushing? && !s.caller.appended && s.caller.next < c.workers
      && s.caller.next < |s.tasks| && s.caller.next < |s.workers|
      && ValidSetup(c) && FitsInt(s.call.size, c.workers)
    case PushCount => s.caller.Pushing? && s.caller.appended && s.caller.next < |s.workers|
    case AwaitExit => s.caller.Awaiting? && s.signal == c.workers
    case LeaveInline => s.caller.Leaving?
    case See(t) => t < |s.workers| && s.workers[t].pc.Spinning? && s.workers[t].offset != 0
    case Erase(t) => t < |s.workers| && s.workers[t].pc.Admitted? && s.workers[t].queue != []
    case Decrement(t) => t < |s.workers| && s.workers[t].pc.Erased? && s.workers[t].offset != 0
    case Dereference(t) =>
      && t < |s.workers| && s.workers[t].pc.Holding?
      && s.workers[t].pc.ptr < |s.tasks| && s.tasks[s.workers[t].pc.ptr].Some?
    case CopyIn(t) =>
      var h := HamalOf(c, s, t);
      && h.Some? && h.value.task.write && h.value.stage.Top? && h.value.done < h.value.task.size
      && Mapped(c, s.mem, LaneOf(c, t), h.value.task)
    case Post(t) =>
      var h := HamalOf(c, s, t);
      && h.Some? && h.value.stage == (if h.value.task.write then Staged else Top)
      && h.value.done < h.value.task.size && LaneOf(c, t) < |s.qps|
    case Poll(t, k) =>
      var h := HamalOf(c, s, t);
      h.Some? && h.value.stage.Waiting? && h.value.done <= h.value.task.size && k < |s.cq|
    case CopyOut(t) =>
      var h := HamalOf(c, s, t);
      && h.Some? && h.value.stage.Arrived? && h.value.done <= h.value.task.size
      && Mapped(c, s.mem, LaneOf(c, t), h.value.task)
    case Finish(t) =>
      var h := HamalOf(c, s, t);
      h.Some? && h.value.stage.Top? && h.value.done >= h.value.task.size
    case Execute(lane) => lane < |s.qps| && s.qps[lane] != [] && WrMapped(s.mem, s.qps[lane][0])
    case ExecuteOther(_) => s.others > 0
  }

  predicate Allowed(c: Setup, s: State, step: Step, p: Policy) {
    && Enabled(c, s, step)
    && (step.Poll? && p.Own? ==> s.cq[step.k] == LaneOf(c, step.t))
    && (step.Poll? && p.FirstCome? ==> step.k == 0)
  }

  function Apply(c: Setup, s: State, step: Step): State
    requires Enabled(c, s, step)
  {
    match step
    case Begin(task) =>
      var s1 := s.(call := task, start := s.mem);
      if Large(task) then s1.(caller := Pushing(0, false), signal := 0)
      else s1.(caller := Inline(Hamal(task, 0, Top)))
    case PushItem =>
      var i := s.caller.next;
      s.(caller := Pushing(i, true),
         tasks := s.tasks[i := Some(Part(c, s.call, i))],
         workers := s.workers[i := s.workers[i].(queue := s.workers[i].queue + [i])])
    case PushCount =>
      var i := s.caller.next;
      s.(caller := if i + 1 < c.workers then Pushing(i + 1, false) else Awaiting,
         workers := s.workers[i := s.workers[i].(offset := Inc8(s.workers[i].offset))])
    case AwaitExit => s.(caller := Idle, tasks := [None, None, None, None])
    case LeaveInline => s.(caller := Idle)
    case See(t) => SetPc(s, t, Admitted)
    case Erase(t) =>
      s.(workers := s.workers[t := s.workers[t].(queue := s.workers[t].queue[1..],
          pc := Erased(s.workers[t].queue[0]))])
    case Decrement(t) =>
      s.(workers := s.workers[t := s.workers[t].(offset := s.workers[t].offset - 1,
          pc := Holding(s.workers[t].pc.ptr))])
    case Dereference(t) =>
      SetPc(s, t, Busy(Hamal(s.tasks[s.workers[t].pc.ptr].value, 0, Top)))
    case CopyIn(t) =>
      var h := HamalOf(c, s, t).value;
      WithHamal(c, s, t, h.(stage := Staged)).(mem := CopiedIn(c, s.mem, LaneOf(c, t), h))
    case Post(t) =>
      var h, lane := HamalOf(c, s, t).value, LaneOf(c, t);
      WithHamal(c, s, t, h.(stage := Waiting)).(qps := s.qps[lane := s.qps[lane] + [WrOf(c, lane, h)]])
    case Poll(t, k) =>
      WithHamal(c, s, t, Polled(HamalOf(c, s, t).value)).(cq := Without(s.cq, k))
    case CopyOut(t) =>
      var h := HamalOf(c, s, t).value;
      WithHamal(c, s, t, Advanced(h)).(mem := CopiedOut(c, s.mem, LaneOf(c, t), h))
    case Finish(t) =>
      (if t == c.workers then s.(caller := Leaving) else SetPc(s, t, Spinning)).(signal := Inc16(s.signal))
    case Execute(lane) =>
      var wr := s.qps[lane][0];
      s.(qps := s.qps[lane := s.qps[lane][1..]],
         cq := s.cq + [lane],
         mem := NicCopy(s.mem, wr))
    case ExecuteOther(from) => s.(others := s.others - 1, cq := s.cq + [c.workers + from])
  }

  /** `steps` can be taken one after another from `s`, each allowed by the policy. */
  ghost predicate Run(c: Setup, s: State, steps: seq<Step>, p: Policy)
    decreases |steps|, 0
  {
    steps == [] ||
    (Run(c, s, steps[..|steps| - 1], p) &&
     Allowed(c, Exec(c, s, steps[..|steps| - 1], p), steps[|steps| - 1], p))
  }

  ghost function Exec(c: Setup, s: State, steps: seq<Step>, p: Policy): State
    requires Run(c, s, steps, p)
    decreases |steps|, 1
  {
    if steps == [] then s
    else Apply(c, Exec(c, s, steps[..|steps| - 1], p), steps[|steps| - 1])
  }

  /** A posted request uses its lane's pool and exists in the remote memory. */
  predicate RequestOk(c: Setup, m: Mem, lane: nat, wr: Wr) {
    wr.pool == PoolAddr(c, lane) && 0 < wr.len <= CHUNK && wr.remote + wr.len <= |m.remote|
  }

  predicate RequestsOk(c: Setup, m: Mem, lane: nat, qp: seq<Wr>) {
    forall j :: 0 <= j < |qp| ==> RequestOk(c, m, lane, qp[j])
  }

  /** Between calls: every worker is in PopPolling and nothing is queued. Calls whose polls took other completions may
      have left requests posted, and the CQ, which the client uses for all its queue pairs, may hold completions that
      nobody has polled. */
  ghost predicate Between(c: Setup, s: State) {
    && ValidSetup(c)
    && s.caller.Idle?
    && |s.tasks| == 4 && |s.workers| == c.workers && |s.qps| == c.workers
    && (forall t :: 0 <= t < c.workers ==> s.workers[t] == Worker([], 0, Spinning))
    && (forall l :: 0 <= l < c.workers ==> RequestsOk(c, s.mem, l, s.qps[l]))
    && PoolAddr(c, c.workers) <= |s.mem.local|
  }

  /** Between calls, with no request posted. */
  ghost predicate Quiet(c: Setup, s: State) {
    Between(c, s) && forall l :: 0 <= l < c.workers ==> s.qps[l] == []
  }

  /** What the CQ holds are completions of other queue pairs than the lanes. */
  ghost predicate OthersOnly(c: Setup, s: State) {
    forall k :: 0 <= k < |s.cq| ==> s.cq[k] >= c.workers
  }

  /** The range that a call copies: all of a small one, the covered prefix of a large one. */
  function CopiedSize(c: Setup, call: Task): nat
    requires ValidSetup(c) && (Large(call) ==> FitsInt(call.size, c.workers))
  {
    if Large(call) then Covered(call.size, c.workers) else call.size
  }

  /** The sequential specification of a call: one memcpy between the two memories. */
  ghost function Effect(c: Setup, m: Mem, call: Task): Mem
    requires Admissible(c, m, call)
  {
    var n := CopiedSize(c, call);
    assert n <= call.size by { if Large(call) { PartsTile(call.size, c.workers); } }
    if call.write then m.(remote := Blit(m.remote, call.remote, m.local, call.user, n))
    else m.(local := Blit(m.local, call.user, m.remote, call.remote, n))
  }

  ghost predicate InPools(c: Setup, a: int) {
    PoolAddr(c, 0) <= a < PoolAddr(c, c.workers)
  }

  /** The two memories are the same except for what the staging pools hold. */
  ghost predicate Agree(c: Setup, m: Mem, n: Mem) {
    && m.remote == n.remote
    && |m.local| == |n.local|
    && forall a {:trigger m.local[a]} {:trigger n.local[a]} ::
         0 <= a < |m.local| && !InPools(c, a) ==> m.local[a] == n.local[a]
  }
}
