/** The loops in which servers and clients connect: each goes once through the identifiers of the configuration, in
    some order of its own. Their runs are runs of Connections. */
module ConnectLoops {
  import opened Connections

  /** The number of servers, and the order in which each party goes through their identifiers. */
  datatype Conf = Conf(n: nat, order: Party -> seq<nat>)

  ghost predicate ValidConf(f: Conf) {
    forall p {:trigger f.order(p)} ::
      && (forall x :: x in f.order(p) <==> 1 <= x <= f.n)
      && (forall i, j :: 0 <= i < j < |f.order(p)| ==> f.order(p)[i] != f.order(p)[j])
  }

  /** `pos` is the position of each loop. What the parties have tried is history here. */
  datatype Loops = Loops(s: State, pos: map<Party, nat>)

  datatype LoopStep = Do(step: Step) | Skip(p: Party)

  function Pos(l: Loops, p: Party): nat { if p in l.pos then l.pos[p] else 0 }

  function PartyOf(step: Step): Party { if step.Servers? then Node(step.a) else Process(step.c) }

  /** The loop of `p` is at identifier `x`. */
  predicate IsAt(f: Conf, l: Loops, p: Party, x: nat) { Pos(l, p) < |f.order(p)| && f.order(p)[Pos(l, p)] == x }

  predicate LoopEnabled(f: Conf, l: Loops, step: LoopStep) {
    match step
    case Do(d) =>
      && Feasible(f.n, l.s, d)
      && (d.Next? ==> IsAt(f, l, Process(d.c), d.y))
      && (d.Servers? ==> IsAt(f, l, Node(d.a), d.b))
    case Skip(Process(c)) => c in l.s.ids && c !in l.s.stopped && IsAt(f, l, Process(c), 1)
    case Skip(Node(a)) =>
      a !in l.s.nodeStopped && Pos(l, Node(a)) < |f.order(Node(a))| && f.order(Node(a))[Pos(l, Node(a))] >= a
  }

  function LoopApply(f: Conf, l: Loops, step: LoopStep): Loops
    requires LoopEnabled(f, l, step)
  {
    match step
    case Do(d) =>
      Loops(Apply(f.n, l.s, d), if d.First? then l.pos else l.pos[PartyOf(d) := Pos(l, PartyOf(d)) + 1])
    case Skip(p) => l.(pos := l.pos[p := Pos(l, p) + 1])
  }

  ghost predicate LoopRun(f: Conf, steps: seq<LoopStep>)
    decreases |steps|, 0
  {
    steps == [] || (LoopRun(f, steps[..|steps| - 1])
        && LoopEnabled(f, LoopExec(f, steps[..|steps| - 1]), steps[|steps| - 1]))
  }

  ghost function LoopExec(f: Conf, steps: seq<LoopStep>): Loops
    requires LoopRun(f, steps)
    decreases |steps|, 1
  {
    if steps == [] then Loops(Start(f.n), map[]) else LoopApply(f, LoopExec(f, steps[..|steps| - 1]),
        steps[|steps| - 1])
  }

  /** What a party has tried are the identifiers that its loop has passed, as far as it connects to them. */
  ghost predicate ClientPassed(f: Conf, l: Loops, c: nat) {
    && Pos(l, Process(c)) <= |f.order(Process(c))|
    && (forall y :: y in Tried(l.s, c) ==> y == 1 || y in f.order(Process(c))[..Pos(l, Process(c))])
  }

  ghost predicate ServerPassed(f: Conf, l: Loops, a: nat) {
    && Pos(l, Node(a)) <= |f.order(Node(a))|
    && (forall b :: b in NodeTried(l.s, a) <==> b < a && b in f.order(Node(a))[..Pos(l, Node(a))])
  }

  ghost predicate Passed(f: Conf, l: Loops) {
    (forall c :: ClientPassed(f, l, c)) && (forall a :: ServerPassed(f, l, a))
  }

  lemma NotBefore(f: Conf, p: Party, k: nat)
    requires ValidConf(f) && k < |f.order(p)|
    ensures f.order(p)[k] !in f.order(p)[..k]
    ensures forall x :: x in f.order(p)[..k + 1] <==> x in f.order(p)[..k] || x == f.order(p)[k]
  {
    assert f.order(p)[..k + 1] == f.order(p)[..k] + [f.order(p)[k]];
  }

  /** A party that is at an identifier has not tried it. */
  lemma NotTriedYet(f: Conf, l: Loops, step: Step)
    requires ValidConf(f) && Passed(f, l) && LoopEnabled(f, l, Do(step))
    ensures Enabled(f.n, l.s, step)
  {
    if step.Next? {
      assert ClientPassed(f, l, step.c);
      NotBefore(f, Process(step.c), Pos(l, Process(step.c)));
    } else if step.Servers? {
      assert ServerPassed(f, l, step.a);
      NotBefore(f, Node(step.a), Pos(l, Node(step.a)));
    }
  }

  lemma StepPassed(f: Conf, l: Loops, step: LoopStep)
    requires ValidConf(f) && Passed(f, l) && LoopEnabled(f, l, step)
    ensures Passed(f, LoopApply(f, l, step))
  {
    var l' := LoopApply(f, l, step);
    var p := if step.Skip? then step.p else PartyOf(step.step);
    if Pos(l', p) != Pos(l, p) { NotBefore(f, p, Pos(l, p)); }
    forall c ensures ClientPassed(f, l', c) { assert ClientPassed(f, l, c); }
    forall a ensures ServerPassed(f, l', a) { assert ServerPassed(f, l, a); }
  }

  /** The attempts of a run of the loops. */
  function Attempts(steps: seq<LoopStep>): seq<Step> {
    if steps == [] then []
    else Attempts(steps[..|steps| - 1]) + if steps[|steps| - 1].Do? then [steps[|steps| - 1].step] else []
  }

  /** Every run of the loops is a run of Connections: nobody tries the same server twice, so all that is said of
      Connections holds for the loops. */
  lemma {:induction false} LoopsRefine(f: Conf, steps: seq<LoopStep>)
    requires ValidConf(f) && LoopRun(f, steps)
    ensures Run(f.n, Attempts(steps)) && Exec(f.n, Attempts(steps)) == LoopExec(f, steps).s
    ensures Passed(f, LoopExec(f, steps))
    decreases |steps|
  {
    if steps == [] {
      forall p ensures f.order(p)[..0] == [] { }
      forall c ensures ClientPassed(f, LoopExec(f, steps), c) { }
      forall a ensures ServerPassed(f, LoopExec(f, steps), a) { }
    } else {
      var k := |steps| - 1;
      var l := LoopExec(f, steps[..k]);
      LoopsRefine(f, steps[..k]);
      StepPassed(f, l, steps[k]);
      if steps[k].Do? {
        NotTriedYet(f, l, steps[k].step);
        var before := Attempts(steps[..k]);
        assert (before + [steps[k].step])[..|before|] == before;
      } else {
        assert Attempts(steps) == Attempts(steps[..k]);
      }
    }
  }

  /** When two servers try to connect, the one with the higher identifier opens, and neither has tried the other
      before. */
  lemma {:induction false} OneAttemptPerPair(f: Conf, steps: seq<LoopStep>, d: Step)
    requires ValidConf(f) && LoopRun(f, steps) && d.Servers? && LoopEnabled(f, LoopExec(f, steps), Do(d))
    ensures var s := LoopExec(f, steps).s;
      d.b < d.a && d.b !in NodeTried(s, d.a) && d.a !in NodeTried(s, d.b)
  {
    LoopsRefine(f, steps);
    NotTriedYet(f, LoopExec(f, steps), d);
    assert ServerPassed(f, LoopExec(f, steps), d.b);
  }

  lemma {:induction false} AttemptOf(steps: seq<LoopStep>, k: nat)
    requires k < |Attempts(steps)|
    ensures Do(Attempts(steps)[k]) in steps
  {
    var n := |steps| - 1;
    if k < |Attempts(steps[..n])| { AttemptOf(steps[..n], k); } else { assert steps[n] == Do(Attempts(steps)[k]); }
  }

  /** When no attempt between servers failed and a server has gone through its loop, it is connected both ways to every
      lower server: once all have, every pair is. */
  lemma {:induction false} LoopConnects(f: Conf, steps: seq<LoopStep>, a: nat, b: nat)
    requires ValidConf(f) && LoopRun(f, steps) && 1 <= b < a <= f.n
    requires forall d :: Do(d) in steps && d.Servers? ==> d.out == Swapped(true, true)
    requires Pos(LoopExec(f, steps), Node(a)) == |f.order(Node(a))|
    ensures Entry(a, b) in LoopExec(f, steps).s.peers && Entry(b, a) in LoopExec(f, steps).s.peers
  {
    LoopsRefine(f, steps);
    var l := LoopExec(f, steps);
    assert ServerPassed(f, l, a);
    assert f.order(Node(a))[..Pos(l, Node(a))] == f.order(Node(a));
    assert b in f.order(Node(a));
    forall k | 0 <= k < |Attempts(steps)|
        && Attempts(steps)[k].Servers? ensures Attempts(steps)[k].out == Swapped(true, true) {
      AttemptOf(steps, k);
    }
    PairsConnected(f.n, Attempts(steps), a, b);
  }

  // ---------------------------------------------------------------- clients

  /** A client whose loop has passed a server other than server 1 has tried it, and it has begun with server 1. */
  ghost predicate ClientCovers(f: Conf, l: Loops, c: nat) {
    && Pos(l, Process(c)) <= |f.order(Process(c))|
    && (Pos(l, Process(c)) > 0 ==> c in l.s.ids)
    && (forall y :: y in f.order(Process(c))[..Pos(l, Process(c))] && y != 1 ==> y in Tried(l.s, c))
  }

  lemma StepCovers(f: Conf, l: Loops, step: LoopStep, c: nat)
    requires ValidConf(f) && ClientCovers(f, l, c) && LoopEnabled(f, l, step)
    ensures ClientCovers(f, LoopApply(f, l, step), c)
  {
    var l', p := LoopApply(f, l, step), Process(c);
    if Pos(l', p) != Pos(l, p) { NotBefore(f, p, Pos(l, p)); }
  }

  lemma {:induction false} RunCovers(f: Conf, steps: seq<LoopStep>, c: nat)
    requires ValidConf(f) && LoopRun(f, steps)
    ensures ClientCovers(f, LoopExec(f, steps), c)
    decreases |steps|
  {
    hide ClientCovers, LoopApply;
    if steps == [] {
      StartCovers(f, c);
    } else {
      RunCovers(f, steps[..|steps| - 1], c);
      StepCovers(f, LoopExec(f, steps[..|steps| - 1]), steps[|steps| - 1], c);
    }
  }

  lemma StartCovers(f: Conf, c: nat)
    ensures ClientCovers(f, Loops(Start(f.n), map[]), c)
  {
    assert f.order(Process(c))[..0] == [];
  }

  /** The attempt in which a client tried a server. */
  lemma {:induction false} AttemptAt(n: nat, steps: seq<Step>, c: nat, y: nat) returns (k: nat)
    requires Run(n, steps) && y in Tried(Exec(n, steps), c)
    ensures k < |steps| && !steps[k].Servers? && steps[k].c == c && y == if steps[k].First? then 1 else steps[k].y
    decreases |steps|
  {
    var j := |steps| - 1;
    if y in Tried(Exec(n, steps[..j]), c) { k := AttemptAt(n, steps[..j], c, y); } else { k := j; }
  }

  /** A client that has gone through its loop without a failed attempt is connected both ways to every server. */
  lemma {:induction false} ClientConnects(f: Conf, steps: seq<LoopStep>, c: nat, y: nat)
    requires ValidConf(f) && LoopRun(f, steps) && 1 <= y <= f.n
    requires forall d :: Do(d) in steps && !d.Servers? && d.c == c ==> d.out == Swapped(true, true)
    requires Pos(LoopExec(f, steps), Process(c)) == |f.order(Process(c))|
    ensures var s := LoopExec(f, steps).s;
      c in s.ids && Entry(c, y) in s.clientPeers && Entry(y, s.ids[c]) in s.peers
  {
    LoopsRefine(f, steps);
    RunCovers(f, steps, c);
    var l := LoopExec(f, steps);
    assert f.order(Process(c))[..Pos(l, Process(c))] == f.order(Process(c));
    assert y in f.order(Process(c));
    RunInv(f.n, Attempts(steps));
    var k := AttemptAt(f.n, Attempts(steps), c, y);
    AttemptOf(steps, k);
    ClientConnected(f.n, Attempts(steps), k, y);
  }

  // ---------------------------------------------------------------- progress

  /** A loop that has not gone through its identifiers can go on, unless an attempt of its party has failed: it passes
      an identifier that it does not connect to, or attempts to connect, with whatever outcome. A client attempts to
      connect to all but server 1, a server to those below itself. */
  lemma LoopGoesOn(f: Conf, l: Loops, p: Party, out: Outcome, open: seq<nat>, accept: seq<nat>) returns (step: LoopStep)
    requires ValidConf(f) && Pos(l, p) < |f.order(p)|
    requires p.Process? ==> p.c in l.s.ids && p.c !in l.s.stopped && |open| == 3 && |accept| == 3 && l.s.ids[p.c] > f.n
    requires p.Node? ==> 1 <= p.a <= f.n && p.a !in l.s.nodeStopped && |open| == |accept| == 2
    ensures LoopEnabled(f, l, step) && Pos(LoopApply(f, l, step), p) == Pos(l, p) + 1
    ensures var x := f.order(p)[Pos(l, p)];
      match p
      case Process(c) => step == if x == 1 then Skip(p) else Do(Next(c, x, out, open, accept))
      case Node(a) => step == if x >= a then Skip(p) else Do(Servers(a, x, out, open, accept))
  {
    var x := f.order(p)[Pos(l, p)];
    assert x in f.order(p);
    match p {
      case Process(c) => step := if x == 1 then Skip(p) else Do(Next(c, x, out, open, accept));
      case Node(a) => step := if x >= a then Skip(p) else Do(Servers(a, x, out, open, accept));
    }
  }
}
