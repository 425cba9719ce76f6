/** Calls of one single-threaded client: RdmaCall with its resend loop, the NIC, and the worker of each server that
    serves this client.

    Request and reply share one buffer at the client, and one slot at each server, so a posted write is only a
    count: its content is what the buffer holds when it executes. `asked`, `again`, `dirty` and `lost` are history.
    Task ids are counted before they wrap around. */
module RpcClient {
  import opened Messages

  datatype Header = Header(message: Message, taskID: nat)

  datatype Caller = Idle | Prepared(dest: nat) | Waiting(dest: nat)

  /** What the worker of a server has done for the completion it took. */
  datatype Worker = Free | Got | Read(task: nat) | Checked(task: nat) | Overwritten | Replied

  /** At one server: the slot of this client, writes posted to it, their completions, and replies posted. */
  datatype Server = Server(slot: Header, wire: nat, cq: nat, worker: Worker, back: nat, receives: int, lost: nat)

  datatype State = State(
    issued: nat, buf: Header, caller: Caller, servers: map<nat, Server>,
    asked: Message, again: bool, dirty: bool)

  datatype Step =
    | Prepare(dest: nat, msg: Message)
    | Post
    | Resend
    | Return
    | Arrive(y: nat)
    | Poll(y: nat)
    | ReadTask(y: nat)
    | Check(y: nat)
    | Overwrite(y: nat)
    | Reply(y: nat)
    | Land(y: nat)
    | Repost(y: nat)

  const Fresh: Server := Server(Header(Other, 0), 0, 0, Free, 0, DEPTH, 0)

  const Start: State := State(0, Header(Other, 0), Idle, map[], Other, false, false)

  function At(s: State, y: nat): Server { if y in s.servers then s.servers[y] else Fresh }

  function With(s: State, y: nat, v: Server): State { s.(servers := s.servers[y := v]) }

  predicate Enabled(s: State, step: Step) {
    match step
    case Prepare(_, _) => s.caller.Idle?
    case Post => s.caller.Prepared?
    case Resend => s.caller.Waiting?
    case Return => s.caller.Waiting? && s.buf.message.Response?
    case Arrive(y) => At(s, y).wire > 0 && At(s, y).receives > 0
    case Poll(y) => At(s, y).worker.Free? && At(s, y).cq > 0
    case ReadTask(y) => At(s, y).worker.Got?
    case Check(y) => At(s, y).worker.Read?
    case Overwrite(y) => At(s, y).worker.Checked?
    case Reply(y) => At(s, y).worker.Overwritten?
    case Land(y) => At(s, y).back > 0
    case Repost(y) => At(s, y).worker.Replied?
  }

  /** Dropping a request leaves the worker free and posts no receive. */
  function Drop(v: Server): Server { v.(worker := Free, lost := v.lost + 1) }

  function Apply(s: State, step: Step): State
    requires Enabled(s, step)
  {
    match step
    case Prepare(dest, msg) =>
      s.(issued := s.issued + 1, buf := Header(msg, s.issued + 1),
          caller := if NeverPosted(msg) then Idle else Prepared(dest),
         asked := msg, again := false, dirty := s.dirty || s.again)
    case Post =>
      var y := s.caller.dest;
      With(s, y, At(s, y).(wire := At(s, y).wire + 1)).(caller := Waiting(y), again := s.asked.Response?)
    case Resend =>
      var y := s.caller.dest;
      With(s, y, At(s, y).(wire := At(s, y).wire + 1)).(again := true)
    case Return => s.(caller := Idle)
    case Arrive(y) =>
      var v := At(s, y);
      With(s, y, v.(wire := v.wire - 1, slot := s.buf, cq := v.cq + 1, receives := v.receives - 1))
    case Poll(y) => With(s, y, At(s, y).(cq := At(s, y).cq - 1, worker := Got))
    case ReadTask(y) =>
      var v := At(s, y);
      With(s, y, if Ignored(v.slot.message) then Drop(v) else v.(worker := Read(v.slot.taskID)))
    case Check(y) =>
      var v := At(s, y);
      With(s, y, if v.slot.message.Test? then v.(worker := Checked(v.worker.task)) else Drop(v))
    case Overwrite(y) =>
      var v := At(s, y);
      With(s, y, v.(slot := Header(Response, v.worker.task), worker := Overwritten))
    case Reply(y) => With(s, y, At(s, y).(back := At(s, y).back + 1, worker := Replied))
    case Land(y) => With(s, y, At(s, y).(back := At(s, y).back - 1)).(buf := At(s, y).slot)
    case Repost(y) => With(s, y, At(s, y).(worker := Free, receives := At(s, y).receives + 1))
  }

  ghost predicate Run(s: State, steps: seq<Step>)
    decreases |steps|, 0
  {
    steps == [] || (Run(s, steps[..|steps| - 1]) && Enabled(Exec(s, steps[..|steps| - 1]), steps[|steps| - 1]))
  }

  ghost function Exec(s: State, steps: seq<Step>): State
    requires Run(s, steps)
    decreases |steps|, 1
  {
    if steps == [] then s else Apply(Exec(s, steps[..|steps| - 1]), steps[|steps| - 1])
  }

  // ---------------------------------------------------------------- no reply is from the future

  function TaskOf(w: Worker): nat { if w.Read? || w.Checked? then w.task else 0 }

  ghost predicate Bounded(s: State) {
    && s.buf.taskID <= s.issued
    && forall y {:trigger At(s, y)} :: At(s, y).slot.taskID <= s.issued && TaskOf(At(s, y).worker) <= s.issued
  }

  // ---------------------------------------------------------------- until a call has resent

  predicate Busy(w: Worker) { w.Got? || w.Read? || w.Checked? || w.Overwritten? }

  /** Copies of the current request, and replies to it, that are still under way at a server. */
  function Tokens(v: Server): nat { v.wire + v.cq + (if Busy(v.worker) then 1 else 0) + v.back }

  /** Whatever is under way at the server carries the task id of the current call. */
  ghost predicate Current(s: State, v: Server) {
    && (v.cq > 0 || Busy(v.worker) || v.back > 0 ==> v.slot.taskID == s.issued)
    && (v.worker.Read? || v.worker.Checked? ==> v.worker.task == s.issued)
  }

  /** The single copy of a request that was posted once: where it is and what it finds there. */
  ghost predicate Single(s: State, v: Server) {
    var request := Header(s.asked, s.issued);
    && Tokens(v) <= 1
    && (s.buf.message.Response? ==> Tokens(v) == 0)
    && (v.wire > 0 ==> s.buf == request)
    && (v.cq > 0 || v.worker.Got? || v.worker.Read? ==> v.slot == request)
    && (v.worker.Checked? ==> s.asked.Test?)
    && (v.worker.Overwritten? || v.back > 0 ==> v.slot == Header(Response, s.issued))
  }

  /** No call so far has resent, except perhaps the one that is running or has just returned. */
  ghost predicate Clean(s: State) {
    (s.caller.Idle? && s.again) || (
      && s.buf.taskID == s.issued
      && (forall y {:trigger At(s, y)} :: !(s.caller.Waiting? && y == s.caller.dest) ==> Tokens(At(s, y)) == 0)
      && (s.caller.Prepared? ==> !s.again && s.buf == Header(s.asked, s.issued))
      && (s.caller.Waiting? ==>
            && Current(s, At(s, s.caller.dest))
            && (!s.again ==> !s.asked.Response? && Single(s, At(s, s.caller.dest)))))
  }

  ghost predicate Inv(s: State) { Bounded(s) && (!s.dirty ==> Clean(s)) }

  lemma StepBounded(s: State, step: Step)
    requires Bounded(s) && Enabled(s, step)
    ensures Bounded(Apply(s, step))
  {
    var s' := Apply(s, step);
    forall y
      ensures At(s', y).slot.taskID <= s'.issued && TaskOf(At(s', y).worker) <= s'.issued
    {
      assert At(s, y).slot.taskID <= s.issued && TaskOf(At(s, y).worker) <= s.issued;
    }
  }

  /** Nothing under way at any server but the one that is waited for. */
  ghost predicate OthersEmpty(s: State) {
    forall y {:trigger At(s, y)} :: !(s.caller.Waiting? && y == s.caller.dest) ==> Tokens(At(s, y)) == 0
  }

  lemma OthersKept(s: State, s': State, y: nat, v: Server)
    requires OthersEmpty(s) && s.caller.Waiting? && y == s.caller.dest && s'.caller == s.caller
        && s'.servers == s.servers[y := v]
    ensures OthersEmpty(s')
  {
    forall z | z != y ensures Tokens(At(s', z)) == 0 { assert Tokens(At(s, z)) == 0; }
  }

  lemma CallerClean(s: State, step: Step)
    requires Clean(s) && Enabled(s, step) && !Apply(s, step).dirty
    requires step.Prepare? || step.Post? || step.Resend? || step.Return?
    ensures Clean(Apply(s, step))
  {
    var s' := Apply(s, step);
    forall y | !(s'.caller.Waiting? && y == s'.caller.dest) && !(s'.caller.Idle? && s'.again)
      ensures Tokens(At(s', y)) == 0
    {
      assert !(s.caller.Waiting? && y == s.caller.dest) && !(s.caller.Idle? && s.again) ==> Tokens(At(s, y)) == 0;
    }
  }

  /** A step of the NIC or of a worker: only at the server that is waited for is there anything to do, unless a call
      that resent has just returned. */
  lemma ServerClean(s: State, step: Step, y: nat)
    requires Clean(s) && Enabled(s, step) && y == (match step
      case Arrive(z) => z case Poll(z) => z case ReadTask(z) => z case Check(z) => z
      case Overwrite(z) => z case Reply(z) => z case Land(z) => z case Repost(z) => z case _ => 0)
    requires !step.Prepare? && !step.Post? && !step.Resend? && !step.Return?
    ensures Clean(Apply(s, step))
  {
    var s' := Apply(s, step);
    if !(s.caller.Idle? && s.again) {
      if s.caller.Waiting? && y == s.caller.dest {
        OthersKept(s, s', y, At(s', y));
      } else {
        assert Tokens(At(s, y)) == 0;
        forall z ensures !(s.caller.Waiting? && z == s.caller.dest) ==> Tokens(At(s', z)) == 0 {
          assert !(s.caller.Waiting? && z == s.caller.dest) ==> Tokens(At(s, z)) == 0;
        }
      }
    }
  }

  lemma StepClean(s: State, step: Step)
    requires Clean(s) && Enabled(s, step) && !Apply(s, step).dirty
    ensures Clean(Apply(s, step))
  {
    hide Clean;
    match step {
      case Prepare(_, _) => CallerClean(s, step);
      case Post => CallerClean(s, step);
      case Resend => CallerClean(s, step);
      case Return => CallerClean(s, step);
      case Arrive(y) => ServerClean(s, step, y);
      case Poll(y) => ServerClean(s, step, y);
      case ReadTask(y) => ServerClean(s, step, y);
      case Check(y) => ServerClean(s, step, y);
      case Overwrite(y) => ServerClean(s, step, y);
      case Reply(y) => ServerClean(s, step, y);
      case Land(y) => ServerClean(s, step, y);
      case Repost(y) => ServerClean(s, step, y);
    }
  }

  lemma {:induction false} RunInv(steps: seq<Step>)
    requires Run(Start, steps)
    ensures Inv(Exec(Start, steps))
    decreases |steps|
  {
    if steps != [] {
      var k := |steps| - 1;
      RunInv(steps[..k]);
      StepBounded(Exec(Start, steps[..k]), steps[k]);
      if !Exec(Start, steps).dirty { StepClean(Exec(Start, steps[..k]), steps[k]); }
    }
  }

  /** In every run, with any resends and late replies: a call never returns a reply to a call yet to come. */
  lemma {:induction false} NeverFromTheFuture(steps: seq<Step>)
    requires Run(Start, steps) && Enabled(Exec(Start, steps), Return)
    ensures Exec(Start, steps).buf.taskID <= Exec(Start, steps).issued
  {
    RunInv(steps);
  }

  /** The step makes its call post a request twice, or post one that looks like a reply already. */
  predicate Careless(step: Step) { step.Resend? || (step.Prepare? && step.msg.Response?) }

  /** Every careless step belongs to the last call of the run. */
  ghost predicate OnlyLastCareless(steps: seq<Step>) {
    forall j, k :: 0 <= j < k < |steps| && Careless(steps[j]) ==> !steps[k].Prepare?
  }

  lemma {:induction false} NotDirtyYet(steps: seq<Step>)
    requires Run(Start, steps) && OnlyLastCareless(steps)
    ensures var s := Exec(Start, steps);
      && !s.dirty
      && (s.again || (s.caller.Prepared? && s.asked.Response?) ==> exists j :: 0 <= j < |steps| && Careless(steps[j]))
    decreases |steps|
  {
    if steps != [] {
      var k := |steps| - 1;
      var s, s' := Exec(Start, steps[..k]), Exec(Start, steps);
      assert OnlyLastCareless(steps[..k]);
      NotDirtyYet(steps[..k]);
      if exists j :: 0 <= j < k && Careless(steps[..k][j]) {
        var j :| 0 <= j < k && Careless(steps[..k][j]);
        assert Careless(steps[j]);
      } else if steps[k].Resend? || steps[k].Prepare? {
        assert Careless(steps[k]) || !s'.asked.Response?;
      }
    }
  }

  /** A call returns the reply to itself as long as no earlier call resent its request: up to and including the
      first call that resends, whatever the servers, the schedule and the late replies of that call. */
  lemma {:induction false} OwnReplyUntilResend(steps: seq<Step>)
    requires Run(Start, steps) && OnlyLastCareless(steps) && Enabled(Exec(Start, steps), Return)
    ensures Exec(Start, steps).buf.taskID == Exec(Start, steps).issued
  {
    RunInv(steps);
    NotDirtyYet(steps);
  }

  // ---------------------------------------------------------------- exactly which resends do harm

  /** Calls begun so far. */
  function Prepares(steps: seq<Step>): nat {
    if steps == [] then 0
    else Prepares(steps[..|steps| - 1]) + if steps[|steps| - 1].Prepare? then 1 else 0
  }

  /** At most `n` calls, none with a message that looks like a reply; calls are numbered from 1, and only those with
      their number in `a` resend. */
  predicate Within(steps: seq<Step>, n: nat, a: set<nat>) {
    steps == [] ||
    var k := |steps| - 1;
    && Within(steps[..k], n, a)
    && (steps[k].Prepare? ==> !steps[k].msg.Response? && Prepares(steps[..k]) < n)
    && (steps[k].Resend? ==> Prepares(steps[..k]) in a)
  }

  /** Every call that returns in the run has its own task id. */
  ghost predicate OwnReturns(steps: seq<Step>)
    requires Run(Start, steps)
  {
    steps == [] ||
    var k := |steps| - 1;
    && OwnReturns(steps[..k])
    && (steps[k].Return? ==> Exec(Start, steps[..k]).buf.taskID == Exec(Start, steps[..k]).issued)
  }

  predicate Harmless(n: nat, a: set<nat>) { forall i :: i in a ==> !(0 < i < n) }

  /** When at most the last call resends, no reply to it can meet another call. */
  lemma {:induction false} HarmlessRuns(steps: seq<Step>, n: nat, a: set<nat>)
    requires Run(Start, steps) && Within(steps, n, a) && Harmless(n, a)
    ensures var s := Exec(Start, steps);
      && s.issued == Prepares(steps) && !s.dirty && (s.again ==> s.issued >= n)
      && (!s.caller.Idle? ==> s.issued > 0 && !s.asked.Response?)
    ensures OwnReturns(steps)
    decreases |steps|
  {
    if steps != [] {
      var k := |steps| - 1;
      HarmlessRuns(steps[..k], n, a);
      RunInv(steps[..k]);
    }
  }

  /** A run within the bounds that has led to `s`. */
  ghost predicate Leads(steps: seq<Step>, s: State, n: nat, a: set<nat>) {
    Run(Start, steps) && Exec(Start, steps) == s && Within(steps, n, a) && Prepares(steps) == s.issued
  }

  lemma Extend(steps: seq<Step>, s: State, step: Step, n: nat, a: set<nat>) returns (longer: seq<Step>, s': State)
    requires Leads(steps, s, n, a) && Enabled(s, step)
    requires (step.Prepare? ==> !step.msg.Response? && s.issued < n) && (step.Resend? ==> s.issued in a)
    ensures s' == Apply(s, step) && Leads(longer, s', n, a)
  {
    longer := steps + [step];
    s' := Apply(s, step);
    assert longer[..|steps|] == steps;
  }

  /** One request at server 1, from its arrival until the worker knows its task id; and then until its reply is
      posted and the worker free again. */
  lemma Take(steps: seq<Step>, s: State, n: nat, a: set<nat>) returns (longer: seq<Step>, s': State)
    requires Leads(steps, s, n, a) && s.buf.message.Test?
    requires At(s, 1).wire > 0 && At(s, 1).receives > 0 && At(s, 1).worker.Free? && At(s, 1).cq == 0
    ensures Leads(longer, s', n, a)
    ensures var v := At(s, 1);
      s' == With(s, 1, Server(s.buf, v.wire - 1, 0, Read(s.buf.taskID), v.back, v.receives - 1, v.lost))
  {
    hide Leads;
    longer, s' := Extend(steps, s, Arrive(1), n, a);
    longer, s' := Extend(longer, s', Poll(1), n, a);
    longer, s' := Extend(longer, s', ReadTask(1), n, a);
  }

  lemma Answer(steps: seq<Step>, s: State, n: nat, a: set<nat>) returns (longer: seq<Step>, s': State)
    requires Leads(steps, s, n, a) && At(s, 1).worker.Read? && At(s, 1).slot.message.Test?
    ensures Leads(longer, s', n, a)
    ensures var v := At(s, 1);
      s' == With(s, 1, Server(Header(Response, v.worker.task), v.wire, v.cq, Free, v.back + 1, v.receives + 1, v.lost))
  {
    hide Leads;
    longer, s' := Extend(steps, s, Check(1), n, a);
    longer, s' := Extend(longer, s', Overwrite(1), n, a);
    longer, s' := Extend(longer, s', Reply(1), n, a);
    longer, s' := Extend(longer, s', Repost(1), n, a);
  }

  /** Between calls, with nothing under way at server 1. */
  predicate Rests(s: State) {
    var v := At(s, 1);
    s.caller.Idle? && v.wire == 0 && v.cq == 0 && v.worker.Free? && v.back == 0 && v.receives > 0
  }

  /** The next call: posted, taken and answered. */
  lemma AnsweredCall(steps: seq<Step>, s: State, n: nat, a: set<nat>) returns (longer: seq<Step>, s': State)
    requires Leads(steps, s, n, a) && Rests(s) && s.issued < n
    ensures Leads(longer, s', n, a) && s'.issued == s.issued + 1 && s'.caller == Waiting(1)
        && s'.buf == Header(Test, s'.issued)
    ensures var v := At(s', 1);
      && v.slot == Header(Response, s'.issued) && v.wire == 0 && v.cq == 0 && v.worker.Free? && v.back == 1
          && v.receives > 0
  {
    hide Leads;
    longer, s' := Extend(steps, s, Prepare(1, Test), n, a);
    longer, s' := Extend(longer, s', Post, n, a);
    longer, s' := Take(longer, s', n, a);
    longer, s' := Answer(longer, s', n, a);
  }

  /** Any number of calls without a resend. */
  lemma {:induction false} PlainCalls(m: nat, n: nat, a: set<nat>) returns (steps: seq<Step>, s: State)
    requires m <= n
    ensures Leads(steps, s, n, a) && Rests(s) && s.issued == m
    decreases m
  {
    if m == 0 {
      steps, s := [], Start;
    } else {
      steps, s := PlainCalls(m - 1, n, a);
      hide Leads;
      steps, s := AnsweredCall(steps, s, n, a);
      steps, s := Extend(steps, s, Land(1), n, a);
      steps, s := Extend(steps, s, Return, n, a);
    }
  }

  /** A call that resends is answered once, and again when its copy arrives, before either reply lands. */
  lemma AnsweredTwice(steps: seq<Step>, s: State, n: nat, a: set<nat>) returns (longer: seq<Step>, s': State)
    requires Leads(steps, s, n, a) && Rests(s) && s.issued < n && s.issued + 1 in a
    ensures Leads(longer, s', n, a) && s'.issued == s.issued + 1 && s'.caller == Waiting(1)
    ensures var v := At(s', 1);
      && v.slot == Header(Response, s'.issued) && v.wire == 0 && v.cq == 0 && v.worker.Free? && v.back == 2
          && v.receives > 0
  {
    hide Leads;
    longer, s' := AnsweredCall(steps, s, n, a);
    longer, s' := Extend(longer, s', Resend, n, a);
    longer, s' := Take(longer, s', n, a);
    longer, s' := Answer(longer, s', n, a);
  }

  /** When call `i` may resend and another one follows, there is a run in which the second reply to `i` lands after call
      `i + 1` has started, which then returns the reply to `i`. */
  lemma NextCallReturnsOldReply(n: nat, a: set<nat>, i: nat) returns (steps: seq<Step>, s: State)
    requires i in a && 0 < i < n
    ensures Leads(steps, s, n, a) && Enabled(s, Return) && s.issued == i + 1 && s.buf == Header(Response, i)
  {
    steps, s := PlainCalls(i - 1, n, a);
    hide Leads;
    steps, s := AnsweredTwice(steps, s, n, a);
    steps, s := Extend(steps, s, Land(1), n, a);
    steps, s := Extend(steps, s, Return, n, a);
    steps, s := Extend(steps, s, Prepare(1, Test), n, a);
    steps, s := Extend(steps, s, Post, n, a);
    steps, s := Extend(steps, s, Land(1), n, a);
  }

  /** Exactly which resends do harm: in every run of at most `n` calls in which only those numbered in `a` resend, every
      call returns its own task id, if and only if no call that another one can follow is in `a`. */
  lemma ResendIff(n: nat, a: set<nat>)
    ensures (forall steps :: Run(Start, steps) && Within(steps, n, a) ==> OwnReturns(steps)) <==> Harmless(n, a)
  {
    if Harmless(n, a) {
      forall steps | Run(Start, steps) && Within(steps, n, a) ensures OwnReturns(steps) { HarmlessRuns(steps, n, a); }
    } else {
      var i :| i in a && 0 < i < n;
      var steps, s := NextCallReturnsOldReply(n, a, i);
      BadReturn(steps, s, n, a);
    }
  }

  /** A return with another task id shows in the run. */
  lemma BadReturn(steps: seq<Step>, s: State, n: nat, a: set<nat>)
    requires Leads(steps, s, n, a) && Enabled(s, Return) && s.buf.taskID != s.issued
    ensures Run(Start, steps + [Return]) && Within(steps + [Return], n, a) && !OwnReturns(steps + [Return])
  {
    assert (steps + [Return])[..|steps|] == steps;
  }

  // ---------------------------------------------------------------- receives

  predicate InService(w: Worker) { !w.Free? }

  ghost predicate Conserved(v: Server) {
    v.receives + v.cq + (if InService(v.worker) then 1 else 0) + v.lost == 128
  }

  lemma StepReceives(s: State, step: Step, y: nat)
    requires Enabled(s, step) && Conserved(At(s, y))
    ensures Conserved(At(Apply(s, step), y))
  {
  }

  /** At every server and in every run: receives still posted, requests arrived or in service, and requests
      dropped make up 128. */
  lemma {:induction false} ReceivesConserved(steps: seq<Step>, y: nat)
    requires Run(Start, steps)
    ensures Conserved(At(Exec(Start, steps), y))
    decreases |steps|
  {
    hide Conserved;
    if steps == [] {
      assert Conserved(Fresh) by { ConservedFresh(); }
    } else {
      var k := |steps| - 1;
      ReceivesConserved(steps[..k], y);
      StepReceives(Exec(Start, steps[..k]), steps[k], y);
    }
  }

  lemma ConservedFresh()
    ensures Conserved(Fresh)
  {
  }

  predicate OnlyTests(steps: seq<Step>) {
    forall k :: 0 <= k < |steps| ==> !steps[k].Resend? && (steps[k].Prepare? ==> steps[k].msg.Test?)
  }

  /** Only test messages, none resent, and none dropped at server `y`. */
  ghost predicate Careful(s: State, y: nat) {
    && (s.issued > 0 || !s.caller.Idle? ==> s.asked.Test?) && !s.again && !s.dirty && At(s, y).lost == 0
  }

  lemma StepCareful(s: State, step: Step, y: nat)
    requires Clean(s) && Careful(s, y) && Enabled(s, step) && !step.Resend? && (step.Prepare? ==> step.msg.Test?)
    ensures Careful(Apply(s, step), y)
  {
    if step.ReadTask? || step.Check? { assert Tokens(At(s, step.y)) > 0; }
  }

  lemma {:induction false} RunCareful(steps: seq<Step>, y: nat)
    requires Run(Start, steps) && OnlyTests(steps)
    ensures Careful(Exec(Start, steps), y)
    decreases |steps|
  {
    hide Apply, Careful;
    if steps == [] {
      assert Careful(Start, y) by { CarefulStart(y); }
    } else {
      var k := |steps| - 1;
      RunInv(steps[..k]);
      assert OnlyTests(steps[..k]);
      RunCareful(steps[..k], y);
      NotDirty(Exec(Start, steps[..k]), y);
      StepCareful(Exec(Start, steps[..k]), steps[k], y);
    }
  }

  lemma CarefulStart(y: nat)
    ensures Careful(Start, y)
  {
  }

  lemma NotDirty(s: State, y: nat)
    requires Careful(s, y)
    ensures !s.dirty
  {
  }

  /** With test messages only and without resends no request is dropped, at most one is under way, and a posted
      request never finds the receive queue empty. */
  lemma {:induction false} TestsNeverStarve(steps: seq<Step>, y: nat)
    requires Run(Start, steps) && OnlyTests(steps)
    ensures var s := Exec(Start, steps);
      && At(s, y).lost == 0 && Tokens(At(s, y)) <= 1 && At(s, y).receives >= 126
      && (At(s, y).wire > 0 ==> Enabled(s, Arrive(y)))
  {
    RunInv(steps);
    ReceivesConserved(steps, y);
    RunCareful(steps, y);
    var s := Exec(Start, steps);
    assert Tokens(At(s, y)) <= 1;
  }
}
