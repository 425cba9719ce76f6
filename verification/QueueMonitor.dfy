/** The blocking queue: push and pop under a mutex with a condition variable, for any number of threads, with
    spurious wake-ups. `pushed` and `popped` are history. */
module QueueMonitor {

  /** Who holds the mutex, and how far it is. A popper remembers whether it comes from a wait. */
  datatype Holder = Nobody | Pusher(t: nat, appended: bool) | Popper(t: nat, fromWait: bool, taken: bool)

  /** Threads that are in none of the sets and do not hold the mutex are outside the queue. `pending` threads have
      unlocked after a push and not yet notified; `waiting` ones are blocked; `woken` ones need the mutex again. */
  datatype State<T> = State(
    items: seq<T>, holder: Holder, pending: set<nat>, waiting: set<nat>, woken: set<nat>,
    pushed: seq<T>, popped: seq<T>)

  datatype Step<T> =
    | LockPush(t: nat)
    | Append(x: T)
    | UnlockPush
    | Notify(t: nat, u: nat)
    | LockPop(t: nat)
    | Wait
    | Spurious(u: nat)
    | Relock(u: nat)
    | Take
    | UnlockPop

  function Start<T>(): State<T> { State([], Nobody, {}, {}, {}, [], []) }

  predicate Outside<T>(s: State<T>, t: nat) {
    && t !in s.pending && t !in s.waiting && t !in s.woken
    && (s.holder.Pusher? ==> s.holder.t != t) && (s.holder.Popper? ==> s.holder.t != t)
  }

  predicate Enabled<T>(s: State<T>, step: Step<T>) {
    match step
    case LockPush(t) => s.holder.Nobody? && Outside(s, t)
    case Append(_) => s.holder.Pusher? && !s.holder.appended
    case UnlockPush => s.holder.Pusher? && s.holder.appended
    case Notify(t, u) => t in s.pending && (s.waiting != {} ==> u in s.waiting)
    case LockPop(t) => s.holder.Nobody? && Outside(s, t)
    case Wait => s.holder.Popper? && !s.holder.taken && s.items == []
    case Spurious(u) => u in s.waiting
    case Relock(u) => s.holder.Nobody? && u in s.woken
    case Take => s.holder.Popper? && !s.holder.taken && s.items != []
    case UnlockPop => s.holder.Popper? && s.holder.taken
  }

  function Apply<T>(s: State<T>, step: Step<T>): State<T>
    requires Enabled(s, step)
  {
    match step
    case LockPush(t) => s.(holder := Pusher(t, false))
    case Append(x) => s.(items := s.items + [x], holder := Pusher(s.holder.t, true), pushed := s.pushed + [x])
    case UnlockPush => s.(holder := Nobody, pending := s.pending + {s.holder.t})
    case Notify(t, u) =>
      if s.waiting == {} then s.(pending := s.pending - {t})
      else s.(pending := s.pending - {t}, waiting := s.waiting - {u}, woken := s.woken + {u})
    case LockPop(t) => s.(holder := Popper(t, false, false))
    case Wait => s.(holder := Nobody, waiting := s.waiting + {s.holder.t})
    case Spurious(u) => s.(waiting := s.waiting - {u}, woken := s.woken + {u})
    case Relock(u) => s.(holder := Popper(u, true, false), woken := s.woken - {u})
    case Take => s.(items := s.items[1..], holder := s.holder.(taken := true), popped := s.popped + [s.items[0]])
    case UnlockPop => s.(holder := Nobody)
  }

  ghost predicate Run<T>(steps: seq<Step<T>>)
    decreases |steps|, 0
  {
    steps == [] || (Run(steps[..|steps| - 1]) && Enabled(Exec(steps[..|steps| - 1]), steps[|steps| - 1]))
  }

  ghost function Exec<T>(steps: seq<Step<T>>): State<T>
    requires Run(steps)
    decreases |steps|, 1
  {
    if steps == [] then Start() else Apply(Exec(steps[..|steps| - 1]), steps[|steps| - 1])
  }

  // ---------------------------------------------------------------- what every step keeps

  /** Pushes that have still to notify. */
  function Notifies<T>(s: State<T>): nat {
    |s.pending| + if s.holder.Pusher? && s.holder.appended then 1 else 0
  }

  /** Consumers that were woken and have not yet looked at the queue again. */
  function Awake<T>(s: State<T>): nat {
    |s.woken| + if s.holder.Popper? && s.holder.fromWait && !s.holder.taken then 1 else 0
  }

  /** No thread is in two places. */
  ghost predicate Apart<T>(s: State<T>) {
    && s.pending !! s.waiting !! s.woken
    && (!s.holder.Nobody? ==> s.holder.t !in s.pending && s.holder.t !in s.waiting && s.holder.t !in s.woken)
  }

  ghost predicate WakeUps<T>(s: State<T>) { s.waiting != {} ==> |s.items| <= Notifies(s) + Awake(s) }

  ghost predicate Inv<T>(s: State<T>) { Apart(s) && s.pushed == s.popped + s.items && WakeUps(s) }

  lemma StepApart<T>(s: State<T>, step: Step<T>)
    requires Apart(s) && Enabled(s, step)
    ensures Apart(Apply(s, step))
  {
  }

  lemma StepOrder<T>(s: State<T>, step: Step<T>)
    requires s.pushed == s.popped + s.items && Enabled(s, step)
    ensures var s' := Apply(s, step); s'.pushed == s'.popped + s'.items
  {
    if step.Take? { assert s.items == [s.items[0]] + s.items[1..]; }
  }

  lemma StepWakeUps<T>(s: State<T>, step: Step<T>)
    requires Apart(s) && WakeUps(s) && Enabled(s, step)
    ensures WakeUps(Apply(s, step))
  {
    var s' := Apply(s, step);
    match step {
      case UnlockPush => assert |s'.pending| == |s.pending| + 1;
      case Notify(t, u) =>
        assert |s'.pending| == |s.pending| - 1;
        if s.waiting != {} { assert |s'.woken| == |s.woken| + 1; }
      case Spurious(u) => assert |s'.woken| == |s.woken| + 1;
      case Relock(u) => assert |s'.woken| == |s.woken| - 1;
      case _ =>
    }
  }

  lemma StepInv<T>(s: State<T>, step: Step<T>)
    requires Inv(s) && Enabled(s, step)
    ensures Inv(Apply(s, step))
  {
    hide Apply, Apart, WakeUps;
    StepApart(s, step);
    StepOrder(s, step);
    StepWakeUps(s, step);
  }

  lemma {:induction false} RunInv<T>(steps: seq<Step<T>>)
    requires Run(steps)
    ensures Inv(Exec(steps))
    decreases |steps|
  {
    if steps != [] {
      var k := |steps| - 1;
      RunInv(steps[..k]);
      StepInv(Exec(steps[..k]), steps[k]);
    }
  }

  /** First in, first out: in every run the items popped, followed by those still queued, are the items pushed. */
  lemma {:induction false} FirstInFirstOut<T>(steps: seq<Step<T>>)
    requires Run(steps)
    ensures var s := Exec(steps); s.popped + s.items == s.pushed
  {
    RunInv(steps);
  }

  /** The items of the pushes of a run, and the number of items taken. */
  function Pushes<T>(steps: seq<Step<T>>): seq<T> {
    if steps == [] then []
    else
      var k := |steps| - 1;
      Pushes(steps[..k]) + if steps[k].Append? then [steps[k].x] else []
  }

  function Takes<T>(steps: seq<Step<T>>): nat {
    if steps == [] then 0 else Takes(steps[..|steps| - 1]) + if steps[|steps| - 1].Take? then 1 else 0
  }

  lemma StepItems<T>(s: State<T>, step: Step<T>)
    requires Enabled(s, step)
    ensures var s' := Apply(s, step);
      && (step.Append? ==> s'.items == s.items + [step.x])
      && (step.Take? ==> s.items != [] && s'.items == s.items[1..] && s'.popped == s.popped + [s.items[0]])
      && (!step.Append? && !step.Take? ==> s'.items == s.items)
      && (!step.Take? ==> s'.popped == s.popped)
  {
  }

  /** So the queue holds the items pushed, in order, without those taken, and what the pops have returned are the first
      of them. */
  lemma {:induction false} TakenInOrder<T>(steps: seq<Step<T>>)
    requires Run(steps)
    ensures Takes(steps) <= |Pushes(steps)|
    ensures Exec(steps).items == Pushes(steps)[Takes(steps)..] && Exec(steps).popped == Pushes(steps)[..Takes(steps)]
    decreases |steps|
  {
    hide Apply, Enabled;
    if steps != [] {
      var k := |steps| - 1;
      TakenInOrder(steps[..k]);
      StepItems(Exec(steps[..k]), steps[k]);
    }
  }

  /** Steps that begin or end a push or a pop. */
  function Begun<T>(steps: seq<Step<T>>, pop: bool): nat {
    if steps == [] then 0
    else
      var k := |steps| - 1;
      Begun(steps[..k], pop) + if (if pop then steps[k].LockPop? else steps[k].LockPush?) then 1 else 0
  }

  function Ended<T>(steps: seq<Step<T>>, pop: bool): nat {
    if steps == [] then 0
    else
      var k := |steps| - 1;
      Ended(steps[..k], pop) + if (if pop then steps[k].UnlockPop? else steps[k].Notify?) then 1 else 0
  }

  /** Threads inside a pop, and inside a push. */
  function Popping<T>(s: State<T>): nat { |s.waiting| + |s.woken| + if s.holder.Popper? then 1 else 0 }
  function Pushing<T>(s: State<T>): nat { |s.pending| + if s.holder.Pusher? then 1 else 0 }

  lemma StepThreads<T>(s: State<T>, step: Step<T>)
    requires Apart(s) && Enabled(s, step)
    ensures var s' := Apply(s, step);
      && Popping(s') == Popping(s) + (if step.LockPop? then 1 else 0) - (if step.UnlockPop? then 1 else 0)
      && Pushing(s') == Pushing(s) + (if step.LockPush? then 1 else 0) - (if step.Notify? then 1 else 0)
  {
    var s' := Apply(s, step);
    match step {
      case UnlockPush => assert |s'.pending| == |s.pending| + 1;
      case Notify(t, u) =>
        assert |s'.pending| == |s.pending| - 1;
        if s.waiting != {} {
          assert |s'.waiting| == |s.waiting| - 1;
          assert |s'.woken| == |s.woken| + 1;
        }
      case Wait => assert |s'.waiting| == |s.waiting| + 1;
      case Spurious(u) =>
        assert |s'.waiting| == |s.waiting| - 1;
        assert |s'.woken| == |s.woken| + 1;
      case Relock(u) => assert |s'.woken| == |s.woken| - 1;
      case _ =>
    }
  }

  /** No thread gets lost: calls begun are those that have ended and the threads inside, and each pop that has ended has
      taken exactly one item. */
  lemma {:induction false} ThreadsAccounted<T>(steps: seq<Step<T>>)
    requires Run(steps)
    ensures var s := Exec(steps);
      && Begun(steps, true) == Ended(steps, true) + Popping(s)
      && Begun(steps, false) == Ended(steps, false) + Pushing(s)
      && Takes(steps) == Ended(steps, true) + Taken(s) && |Pushes(steps)| == Ended(steps, false) + Notifies(s)
    decreases |steps|
  {
    hide Apart, WakeUps, Popping, Pushing;
    if steps == [] {
      NobodyInside<T>();
    } else {
      var k := |steps| - 1;
      ThreadsAccounted(steps[..k]);
      RunInv(steps[..k]);
      StepThreads(Exec(steps[..k]), steps[k]);
      StepTaken(Exec(steps[..k]), steps[k]);
    }
  }

  lemma NobodyInside<T>()
    ensures Popping(Start<T>()) == 0 == Pushing(Start<T>())
  {
  }

  function Taken<T>(s: State<T>): nat { if s.holder.Popper? && s.holder.taken then 1 else 0 }

  lemma StepTaken<T>(s: State<T>, step: Step<T>)
    requires Apart(s) && Enabled(s, step)
    ensures var s' := Apply(s, step);
      && Taken(s') == Taken(s) + (if step.Take? then 1 else 0) - (if step.UnlockPop? then 1 else 0)
      && Notifies(s') == Notifies(s) + (if step.Append? then 1 else 0) - (if step.Notify? then 1 else 0)
  {
    var s' := Apply(s, step);
    if step.UnlockPush? { assert |s'.pending| == |s.pending| + 1; }
    if step.Notify? { assert |s'.pending| == |s.pending| - 1; }
  }

  /** No wake-up is lost: while a consumer waits, every queued item has a notification or an awake consumer coming
      for it. */
  lemma {:induction false} NoLostWakeUp<T>(steps: seq<Step<T>>)
    requires Run(steps)
    ensures var s := Exec(steps); s.waiting != {} ==> |s.items| <= Notifies(s) + Awake(s)
  {
    RunInv(steps);
  }

  /** A step of a thread that is already inside the queue and not blocked. */
  predicate OfActive<T>(step: Step<T>) { !step.LockPush? && !step.LockPop? && !step.Spurious? }

  /** So a consumer is never stuck beside an item: if one waits and an item is queued, a thread inside the queue can
      go on without any new call or spurious wake-up. */
  lemma {:induction false} NeverStuck<T>(steps: seq<Step<T>>) returns (step: Step<T>)
    requires Run(steps) && Exec(steps).waiting != {} && Exec(steps).items != []
    ensures OfActive(step) && Enabled(Exec(steps), step)
  {
    RunInv(steps);
    var s := Exec(steps);
    step := Take;
    match s.holder {
      case Pusher(_, true) => step := UnlockPush;
      case Pusher(_, false) => step := Append(s.items[0]);
      case Popper(_, _, taken) => step := if taken then UnlockPop else Take;
      case Nobody =>
        if s.woken != {} {
          var u :| u in s.woken;
          step := Relock(u);
        } else {
          var t :| t in s.pending;
          var u :| u in s.waiting;
          step := Notify(t, u);
        }
    }
  }

  /** How many steps the threads inside the queue can take without new calls and spurious wake-ups. */
  function Rank<T>(s: State<T>): nat {
    4 * |s.pending| + 3 * |s.woken| +
    match s.holder
    case Nobody => 0
    case Pusher(_, appended) => if appended then 5 else 6
    case Popper(_, _, taken) => if taken then 1 else 2
  }

  lemma ActiveStepRank<T>(s: State<T>, step: Step<T>)
    requires Apart(s) && Enabled(s, step) && OfActive(step)
    ensures Rank(Apply(s, step)) < Rank(s)
  {
    var s' := Apply(s, step);
    match step {
      case UnlockPush => assert |s'.pending| == |s.pending| + 1;
      case Notify(t, u) =>
        assert |s'.pending| == |s.pending| - 1;
        if s.waiting != {} { assert |s'.woken| == |s.woken| + 1; }
      case Relock(u) => assert |s'.woken| == |s.woken| - 1;
      case _ =>
    }
  }

  lemma Extend<T>(steps: seq<Step<T>>, step: Step<T>)
    requires Run(steps) && Enabled(Exec(steps), step)
    ensures Run(steps + [step]) && Exec(steps + [step]) == Apply(Exec(steps), step)
  {
    assert (steps + [step])[..|steps|] == steps;
  }

  /** Left to themselves, the threads inside the queue reach a state in which no consumer waits beside an item, in
      at most Rank steps. */
  lemma {:induction false} Drains<T>(steps: seq<Step<T>>) returns (more: seq<Step<T>>)
    requires Run(steps)
    ensures Run(steps + more) && |more| <= Rank(Exec(steps)) && (forall k :: 0 <= k < |more| ==> OfActive(more[k]))
    ensures Exec(steps + more).waiting == {} || Exec(steps + more).items == []
    decreases Rank(Exec(steps))
  {
    hide Rank, Enabled, Apply, Run, Exec, OfActive, Inv;
    var s := Exec(steps);
    if s.waiting == {} || s.items == [] {
      more := [];
      assert steps + more == steps;
    } else {
      var step := NeverStuck(steps);
      assert Apart(s) by { RunInv(steps); InvApart(s); }
      ActiveStepRank(s, step);
      Extend(steps, step);
      var rest := Drains(steps + [step]);
      more := [step] + rest;
      assert steps + more == steps + [step] + rest;
    }
  }

  lemma InvApart<T>(s: State<T>)
    requires Inv(s)
    ensures Apart(s)
  {
  }
}
