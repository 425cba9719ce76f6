/** What becomes of the calls of a client, read from the steps of a run: which messages are posted, to which server,
    what each taken request costs, and which calls can return at all. */
module RpcClientTrace {
  import opened Messages
  import opened RpcClient

  // ---------------------------------------------------------------- one call

  /** A call that has begun is over exactly for these three kinds of message; otherwise its next step posts one request
      to its server, and nothing else changes at any server. */
  lemma BegunOrOver(s: State, dest: nat, msg: Message)
    requires Enabled(s, Prepare(dest, msg))
    ensures var s' := Apply(s, Prepare(dest, msg));
      && s'.servers == s.servers && s'.issued == s.issued + 1 && s'.buf == Header(msg, s.issued + 1)
      && (s'.caller.Idle? <==> msg == Disconnect || msg == UpdateMeta || msg == ExtentReadEnd)
      && (Enabled(s', Post) <==> msg != Disconnect && msg != UpdateMeta && msg != ExtentReadEnd)
      && (Enabled(s', Post) ==>
            var s'' := Apply(s', Post);
            && s''.caller == Waiting(dest) && s''.buf == s'.buf
            && At(s'', dest) == At(s, dest).(wire := At(s, dest).wire + 1)
            && forall y :: y != dest ==> At(s'', y) == At(s, y))
  {
  }

  // ---------------------------------------------------------------- accounts

  function Count(steps: seq<Step>, step: Step): nat {
    if steps == [] then 0
    else Count(steps[..|steps| - 1], step) + if steps[|steps| - 1] == step then 1 else 0
  }

  /** The server and the message of the last call so far. */
  function LastDest(steps: seq<Step>): nat {
    if steps == [] then 0
    else if steps[|steps| - 1].Prepare? then steps[|steps| - 1].dest else LastDest(steps[..|steps| - 1])
  }

  function LastMessage(steps: seq<Step>): Message {
    if steps == [] then Other
    else if steps[|steps| - 1].Prepare? then steps[|steps| - 1].msg else LastMessage(steps[..|steps| - 1])
  }

  /** Requests posted to server `y`, resent ones included. */
  function SentTo(steps: seq<Step>, y: nat): nat {
    if steps == [] then 0
    else
      var k := |steps| - 1;
      SentTo(steps[..k], y) + if (steps[k].Post? || steps[k].Resend?) && LastDest(steps[..k]) == y then 1 else 0
  }

  /** Requests that server `y` took up and dropped: the poller ignores three kinds of message, and of the others only a
      test is answered. */
  ghost function DroppedAt(steps: seq<Step>, y: nat): nat
    requires Run(Start, steps)
    decreases |steps|
  {
    if steps == [] then 0
    else
      var k := |steps| - 1;
      var found := At(Exec(Start, steps[..k]), y).slot.message;
      DroppedAt(steps[..k], y) +
      if (steps[k] == ReadTask(y) && (found == Malloc || found == Scan || found == Expire))
          || (steps[k] == Check(y) && found != Test) then 1 else 0
  }

  lemma StepLast(s: State, step: Step)
    requires Enabled(s, step)
    ensures var s' := Apply(s, step);
      && (step.Prepare? ==> s'.asked == step.msg && (s'.caller.Idle? || s'.caller.dest == step.dest))
      && (!step.Prepare? ==>
            && s'.asked == s.asked
            && (s'.caller.Idle? || (!s.caller.Idle? && s'.caller.dest == s.caller.dest)))
  {
  }

  lemma {:induction false} LastCall(steps: seq<Step>)
    requires Run(Start, steps)
    ensures var s := Exec(Start, steps);
      s.asked == LastMessage(steps) && (s.caller.Idle? || s.caller.dest == LastDest(steps))
    decreases |steps|
  {
    hide Apply;
    if steps != [] {
      LastCall(steps[..|steps| - 1]);
      StepLast(Exec(Start, steps[..|steps| - 1]), steps[|steps| - 1]);
    }
  }

  /** What a step adds to the accounts of server `y`. */
  lemma StepAccounts(s: State, step: Step, y: nat)
    requires Enabled(s, step)
    ensures var v, w := At(s, y), At(Apply(s, step), y);
      && w.wire == v.wire + (if (step.Post? || step.Resend?) && s.caller.dest == y then 1 else 0)
           - (if step == Arrive(y) then 1 else 0)
      && w.cq == v.cq + (if step == Arrive(y) then 1 else 0) - (if step == Poll(y) then 1 else 0)
      && w.back == v.back + (if step == Reply(y) then 1 else 0) - (if step == Land(y) then 1 else 0)
      && w.receives == v.receives + (if step == Repost(y) then 1 else 0) - (if step == Arrive(y) then 1 else 0)
      && (step == Arrive(y) ==> v.receives > 0)
  {
  }

  lemma StepLost(s: State, step: Step, y: nat)
    requires Enabled(s, step)
    ensures var found := At(s, y).slot.message;
      At(Apply(s, step), y).lost == At(s, y).lost +
        if (step == ReadTask(y) && (found == Malloc || found == Scan || found == Expire))
            || (step == Check(y) && found != Test) then 1 else 0
  {
  }

  /** In every run: what is on its way to a server, arrived and not taken up, on its way back, and the receives still
      posted, from the numbers of steps alone. */
  lemma {:induction false} Accounts(steps: seq<Step>, y: nat)
    requires Run(Start, steps)
    ensures var v := At(Exec(Start, steps), y);
      && v.wire == SentTo(steps, y) - Count(steps, Arrive(y))
      && v.cq == Count(steps, Arrive(y)) - Count(steps, Poll(y))
      && v.back == Count(steps, Reply(y)) - Count(steps, Land(y))
      && v.receives == 128 - Count(steps, Arrive(y)) + Count(steps, Repost(y)) >= 0
      && v.lost == DroppedAt(steps, y)
    decreases |steps|
  {
    hide Apply, Enabled;
    if steps == [] {
      assert At(Start, y) == Fresh;
    } else {
      var k := |steps| - 1;
      Accounts(steps[..k], y);
      LastCall(steps[..k]);
      Posting(Exec(Start, steps[..k]), steps[k]);
      StepAccounts(Exec(Start, steps[..k]), steps[k], y);
      StepLost(Exec(Start, steps[..k]), steps[k], y);
    }
  }

  lemma Posting(s: State, step: Step)
    requires Enabled(s, step)
    ensures step.Post? || step.Resend? ==> !s.caller.Idle?
  {
  }

  /** Who writes the two messages: the buffer of the client, the beginning of a call and a reply that lands; the slot
      at a server, a request that arrives, whole, and the answer. */
  lemma StepWrites(s: State, step: Step, y: nat)
    requires Enabled(s, step)
    ensures var s' := Apply(s, step);
      && (if step.Prepare? then s'.buf == Header(step.msg, s.issued + 1)
          else if step.Land? then s'.buf == At(s, step.y).slot else s'.buf == s.buf)
      && (if step == Arrive(y) then At(s', y).slot == s.buf
          else if step == Overwrite(y) then At(s', y).slot.message.Response?
          else At(s', y).slot == At(s, y).slot)
  {
  }

  // ---------------------------------------------------------------- which calls can return

  predicate Answerable(m: Message) { m == Test || m == Response }

  /** While a call waits whose message is no test and does not look like a reply, its server has nothing to send
      back. */
  ghost predicate Unanswered(s: State) {
    s.caller.Waiting? && !Answerable(s.asked) ==>
      var v, request := At(s, s.caller.dest), Header(s.asked, s.issued);
      && s.buf == request && v.back == 0 && !v.worker.Checked? && !v.worker.Overwritten?
      && (v.cq > 0 || v.worker.Got? || v.worker.Read? ==> v.slot == request)
  }

  lemma CallerUnanswered(s: State, step: Step)
    requires Clean(s) && Unanswered(s) && Enabled(s, step)
    requires step.Prepare? || step.Post? || step.Resend? || step.Return?
    ensures Unanswered(Apply(s, step))
  {
    if step.Post? && s.caller.Prepared? { assert Tokens(At(s, s.caller.dest)) == 0; }
  }

  lemma ServerUnanswered(s: State, step: Step)
    requires Clean(s) && Unanswered(s) && Enabled(s, step)
    requires !step.Prepare? && !step.Post? && !step.Resend? && !step.Return?
    ensures Unanswered(Apply(s, step))
  {
    if step.Land? { assert Tokens(At(s, step.y)) > 0; }
  }

  lemma {:induction false} RunUnanswered(steps: seq<Step>)
    requires Run(Start, steps) && OnlyLastCareless(steps)
    ensures Unanswered(Exec(Start, steps))
    decreases |steps|
  {
    hide Apply, Enabled, Unanswered, Clean;
    if steps == [] {
      StartUnanswered();
    } else {
      var k := |steps| - 1;
      assert OnlyLastCareless(steps[..k]);
      RunUnanswered(steps[..k]);
      NotDirtyYet(steps[..k]);
      RunInv(steps[..k]);
      if steps[k].Prepare? || steps[k].Post? || steps[k].Resend? || steps[k].Return? {
        CallerUnanswered(Exec(Start, steps[..k]), steps[k]);
      } else {
        ServerUnanswered(Exec(Start, steps[..k]), steps[k]);
      }
    }
  }

  lemma StartUnanswered()
    ensures Unanswered(Start)
  {
  }

  /** As long as no earlier call resent, only a call with a test message can return, or one that looks like a reply
      itself: all others wait forever. */
  lemma {:induction false} OnlyTestsReturn(steps: seq<Step>)
    requires Run(Start, steps) && OnlyLastCareless(steps) && Enabled(Exec(Start, steps), Return)
    ensures LastMessage(steps) == Test || LastMessage(steps) == Response
  {
    RunUnanswered(steps);
    LastCall(steps);
  }
}
