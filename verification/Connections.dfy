/** Connecting and identifiers: clients that connect to server 1 first and then to the others, servers that connect to
    every lower server, with attempts that may fail at any point on either side.

    `n` is the number of servers, which have the identifiers 1 to n. `owner` is history. Runs end before the
    16-bit counter of identifiers wraps around. */
module Connections {

  const TWO16: nat := 0x1_0000

  /** What one end keeps about a connection: its own queue pairs and the numbers it was told. */
  datatype Peer = Peer(qps: seq<nat>, remote: seq<nat>)

  /** Entry `key` in the table of peers at `at`. */
  datatype Entry = Entry(at: nat, key: nat)

  datatype Party = Process(c: nat) | Node(a: nat)

  /** How far an attempt comes: no identifiers exchanged, no metadata exchanged, or up to each side's own setup. */
  datatype Outcome = NoSwap | NoMeta | Swapped(openerOk: bool, accepterOk: bool)

  datatype State = State(
    maxNode: nat,
    ids: map<nat, nat>,
    tried: map<nat, set<nat>>,
    stopped: set<nat>,
    clientPeers: map<Entry, Peer>,
    nodeTried: map<nat, set<nat>>,
    nodeStopped: set<nat>,
    peers: map<Entry, Peer>,
    owner: map<Entry, Party>)

  /** The numbers of the queue pairs are whatever the device gives. */
  datatype Step =
    | First(c: nat, out: Outcome, open: seq<nat>, accept: seq<nat>)
    | Next(c: nat, y: nat, out: Outcome, open: seq<nat>, accept: seq<nat>)
    | Servers(a: nat, b: nat, out: Outcome, open: seq<nat>, accept: seq<nat>)

  function Start(n: nat): State { State(n + 1, map[], map[], {}, map[], map[], {}, map[], map[]) }

  function Tried(s: State, c: nat): set<nat> { if c in s.tried then s.tried[c] else {} }
  function NodeTried(s: State, a: nat): set<nat> { if a in s.nodeTried then s.nodeTried[a] else {} }

  /** Queue pairs created for a peer: data channels only between a client and a server. */
  function QpCount(n: nat, isServer: bool, peerId: nat): nat { if !isServer || peerId > n then 3 else 2 }

  /** The client sees server `y` under its number; the server sees the client under `id`. */
  predicate Created(n: nat, y: nat, id: nat, open: seq<nat>, accept: seq<nat>) {
    |open| == QpCount(n, false, y) && |accept| == QpCount(n, true, id)
  }

  /** What one attempt needs, apart from its place in a loop. */
  predicate Feasible(n: nat, s: State, step: Step) {
    match step
    case First(c, _, open, accept) =>
      n >= 1 && c !in s.tried && s.maxNode < TWO16 && Created(n, 1, s.maxNode, open, accept)
    case Next(c, y, _, open, accept) =>
      2 <= y <= n && c in s.ids && c !in s.stopped && Created(n, y, s.ids[c], open, accept)
    case Servers(a, b, _, open, accept) =>
      && 1 <= b < a <= n && a !in s.nodeStopped
      && |open| == QpCount(n, true, b) && |accept| == QpCount(n, true, a)
  }

  /** Nobody tries the same server again; the module ConnectLoops derives this from the loops. */
  predicate Enabled(n: nat, s: State, step: Step) {
    && Feasible(n, s, step)
    && (step.Next? ==> step.y !in Tried(s, step.c))
    && (step.Servers? ==> step.b !in NodeTried(s, step.a))
  }

  /** What both sides file once the metadata is exchanged. */
  function File(table: map<Entry, Peer>, ok: bool, e: Entry, qps: seq<nat>, remote: seq<nat>): map<Entry, Peer> {
    if ok then table[e := Peer(qps, remote)] else table
  }

  predicate OpenerOk(out: Outcome) { out.Swapped? && out.openerOk }
  predicate AccepterOk(out: Outcome) { out.Swapped? && out.accepterOk }

  function Apply(n: nat, s: State, step: Step): State
    requires Feasible(n, s, step)
  {
    match step
    case First(c, out, open, accept) =>
      var id := s.maxNode;
      var s1 := s.(tried := s.tried[c := {1}], stopped := if OpenerOk(out) then s.stopped else s.stopped + {c});
      if out.NoSwap? then s1
      else s1.(
        maxNode := id + 1,
        ids := s.ids[c := id],
        clientPeers := File(s.clientPeers, OpenerOk(out), Entry(c, 1), open, accept),
        peers := File(s.peers, AccepterOk(out), Entry(1, id), accept, open),
        owner := if AccepterOk(out) then s.owner[Entry(1, id) := Process(c)] else s.owner)
    case Next(c, y, out, open, accept) =>
      var id := s.ids[c];
      s.(tried := s.tried[c := Tried(s, c) + {y}],
         stopped := if OpenerOk(out) then s.stopped else s.stopped + {c},
         clientPeers := File(s.clientPeers, OpenerOk(out), Entry(c, y), open, accept),
         peers := File(s.peers, AccepterOk(out), Entry(y, id), accept, open),
         owner := if AccepterOk(out) then s.owner[Entry(y, id) := Process(c)] else s.owner)
    case Servers(a, b, out, open, accept) =>
      var t1 := File(s.peers, OpenerOk(out), Entry(a, b), open, accept);
      var o1 := if OpenerOk(out) then s.owner[Entry(a, b) := Node(b)] else s.owner;
      s.(nodeTried := s.nodeTried[a := NodeTried(s, a) + {b}],
         nodeStopped := if OpenerOk(out) then s.nodeStopped else s.nodeStopped + {a},
         peers := File(t1, AccepterOk(out), Entry(b, a), accept, open),
         owner := if AccepterOk(out) then o1[Entry(b, a) := Node(a)] else o1)
  }

  ghost predicate Run(n: nat, steps: seq<Step>)
    decreases |steps|, 0
  {
    steps == [] || (Run(n, steps[..|steps| - 1]) && Enabled(n, Exec(n, steps[..|steps| - 1]), steps[|steps| - 1]))
  }

  ghost function Exec(n: nat, steps: seq<Step>): State
    requires Run(n, steps)
    decreases |steps|, 1
  {
    if steps == [] then Start(n) else Apply(n, Exec(n, steps[..|steps| - 1]), steps[|steps| - 1])
  }

  // ---------------------------------------------------------------- what every step keeps

  ghost predicate IdsOk(n: nat, s: State) {
    && s.maxNode > n
    && (forall c :: c in s.ids ==> n < s.ids[c] < s.maxNode && c in s.tried && 1 in s.tried[c])
    && (forall c, d :: c in s.ids && d in s.ids && c != d ==> s.ids[c] != s.ids[d])
  }

  /** Of two servers, the higher one has tried to reach the lower one. */
  predicate PairTried(s: State, a: nat, b: nat) { if a > b then b in NodeTried(s, a) else a in NodeTried(s, b) }

  ghost predicate EntryOk(n: nat, s: State, e: Entry) {
    && e in s.owner && 1 <= e.at <= n
    && match s.owner[e]
       case Process(c) => c in s.ids && s.ids[c] == e.key && e.at in Tried(s, c)
       case Node(a) => e.key == a && 1 <= a <= n && a != e.at && PairTried(s, a, e.at)
  }

  predicate Paired(p: Peer, q: Peer, count: nat) { p.qps == q.remote && p.remote == q.qps
      && |p.qps| == |q.qps| == count }

  ghost predicate ClientEntryOk(n: nat, s: State, e: Entry) {
    && e in s.clientPeers && e.at in s.ids && 1 <= e.key <= n && e.key in Tried(s, e.at)
    && (Entry(e.key, s.ids[e.at]) in s.peers ==> Paired(s.clientPeers[e], s.peers[Entry(e.key, s.ids[e.at])], 3))
  }

  ghost predicate NodePairOk(n: nat, s: State, a: nat, b: nat) {
    1 <= a <= n && 1 <= b <= n && Entry(a, b) in s.peers && Entry(b, a) in s.peers ==>
      Paired(s.peers[Entry(a, b)], s.peers[Entry(b, a)], 2)
  }

  ghost predicate Inv(n: nat, s: State) {
    && IdsOk(n, s)
    && (forall e {:trigger e in s.peers} :: e in s.peers ==> EntryOk(n, s, e))
    && (forall e {:trigger e in s.clientPeers} :: e in s.clientPeers ==> ClientEntryOk(n, s, e))
    && (forall a, b {:trigger NodePairOk(n, s, a, b)} :: NodePairOk(n, s, a, b))
  }

  /** The entries that a step writes. */
  predicate Writes(s: State, step: Step, e: Entry) {
    match step
    case First(_, out, _, _) => AccepterOk(out) && e == Entry(1, s.maxNode)
    case Next(c, y, out, _, _) => AccepterOk(out) && c in s.ids && e == Entry(y, s.ids[c])
    case Servers(a, b, out, _, _) => (OpenerOk(out) && e == Entry(a, b)) || (AccepterOk(out) && e == Entry(b, a))
  }

  /** Nor does the step leave it half replaced: it belongs to neither end of the pair of servers that connect. */
  predicate Apart(s: State, step: Step, e: Entry) {
    !Writes(s, step, e) && (step.Servers? ==> e != Entry(step.a, step.b) && e != Entry(step.b, step.a))
  }

  /** No step writes an entry that is already there. */
  lemma NotWritten(n: nat, s: State, step: Step, e: Entry)
    requires IdsOk(n, s) && EntryOk(n, s, e) && Enabled(n, s, step)
    ensures Apart(s, step, e)
  {
  }

  lemma AllApart(n: nat, s: State, step: Step)
    requires Inv(n, s) && Enabled(n, s, step)
    ensures forall e {:trigger e in s.peers} :: e in s.peers ==> Apart(s, step, e)
  {
    forall e | e in s.peers ensures Apart(s, step, e) {
      assert EntryOk(n, s, e);
      NotWritten(n, s, step, e);
    }
  }

  ghost predicate Kept(s: State, s': State) {
    && (forall e {:trigger e in s'.peers} :: e in s.peers ==> e in s'.peers && s'.peers[e] == s.peers[e])
    && (forall e {:trigger e in s'.owner} :: e in s.owner && e in s.peers ==>
          e in s'.owner && s'.owner[e] == s.owner[e])
  }

  lemma StepKeeps(n: nat, s: State, step: Step)
    requires Inv(n, s) && Enabled(n, s, step)
    ensures Kept(s, Apply(n, s, step))
  {
    AllApart(n, s, step);
  }

  lemma StepIds(n: nat, s: State, step: Step)
    requires IdsOk(n, s) && Enabled(n, s, step)
    ensures IdsOk(n, Apply(n, s, step))
  {
  }

  lemma OldEntry(n: nat, s: State, step: Step, e: Entry)
    requires IdsOk(n, s) && Enabled(n, s, step) && EntryOk(n, s, e) && Apart(s, step, e)
    ensures EntryOk(n, Apply(n, s, step), e)
  {
  }

  lemma NewEntry(n: nat, s: State, step: Step, e: Entry)
    requires IdsOk(n, s) && Enabled(n, s, step) && e in Apply(n, s, step).peers && e !in s.peers
    ensures EntryOk(n, Apply(n, s, step), e)
  {
  }

  lemma OldClientEntry(n: nat, s: State, step: Step, e: Entry)
    requires Inv(n, s) && Enabled(n, s, step) && e in s.clientPeers && ClientEntryOk(n, s, e)
    ensures ClientEntryOk(n, Apply(n, s, step), e)
  {
    var f := Entry(e.key, s.ids[e.at]);
    AllApart(n, s, step);
    assert f !in s.peers ==> !Writes(s, step, f);
  }

  lemma NewClientEntry(n: nat, s: State, step: Step, e: Entry)
    requires IdsOk(n, s) && Enabled(n, s, step) && e !in s.clientPeers && e in Apply(n, s, step).clientPeers
    requires forall g {:trigger g in s.peers} :: g in s.peers ==> EntryOk(n, s, g)
    ensures ClientEntryOk(n, Apply(n, s, step), e)
  {
    var s' := Apply(n, s, step);
    var f := Entry(e.key, s'.ids[e.at]);
    assert f in s.peers ==> EntryOk(n, s, f);
  }

  lemma StepNodePair(n: nat, s: State, step: Step, a: nat, b: nat)
    requires Inv(n, s) && Enabled(n, s, step)
    ensures NodePairOk(n, Apply(n, s, step), a, b)
  {
    assert NodePairOk(n, s, a, b);
    AllApart(n, s, step);
  }

  lemma StepInv(n: nat, s: State, step: Step)
    requires Inv(n, s) && Enabled(n, s, step)
    ensures Inv(n, Apply(n, s, step))
  {
    var s' := Apply(n, s, step);
    StepIds(n, s, step);
    AllApart(n, s, step);
    forall e | e in s'.peers ensures EntryOk(n, s', e) {
      if e in s.peers { OldEntry(n, s, step, e); } else { NewEntry(n, s, step, e); }
    }
    forall e | e in s'.clientPeers ensures ClientEntryOk(n, s', e) {
      if e in s.clientPeers { OldClientEntry(n, s, step, e); } else { NewClientEntry(n, s, step, e); }
    }
    forall a, b ensures NodePairOk(n, s', a, b) { StepNodePair(n, s, step, a, b); }
  }

  lemma {:induction false} RunInv(n: nat, steps: seq<Step>)
    requires Run(n, steps)
    ensures Inv(n, Exec(n, steps))
    decreases |steps|
  {
    if steps == [] {
      forall a, b ensures NodePairOk(n, Start(n), a, b) { }
    } else {
      var k := |steps| - 1;
      RunInv(n, steps[..k]);
      StepInv(n, Exec(n, steps[..k]), steps[k]);
    }
  }

  // ---------------------------------------------------------------- main results

  /** In every run the identifiers given to clients are distinct and above those of the servers. */
  lemma {:induction false} IdsDistinct(n: nat, steps: seq<Step>, c: nat, d: nat)
    requires Run(n, steps) && c in Exec(n, steps).ids && d in Exec(n, steps).ids
    ensures n < Exec(n, steps).ids[c] < Exec(n, steps).maxNode
    ensures Exec(n, steps).ids[c] == Exec(n, steps).ids[d] <==> c == d
  {
    RunInv(n, steps);
  }

  /** Whatever a server has filed, it filed under the identifier that the other party has itself, and never over
      another entry. */
  lemma {:induction false} FiledUnderOwnId(n: nat, steps: seq<Step>, e: Entry)
    requires Run(n, steps) && e in Exec(n, steps).peers
    ensures var s := Exec(n, steps);
      && e in s.owner
      && (s.owner[e].Process? ==> s.owner[e].c in s.ids && s.ids[s.owner[e].c] == e.key)
      && (s.owner[e].Node? ==> s.owner[e].a == e.key)
    ensures forall step :: Enabled(n, Exec(n, steps), step) ==>
      e in Apply(n, Exec(n, steps), step).peers && Apply(n, Exec(n, steps), step).peers[e] == Exec(n, steps).peers[e]
  {
    RunInv(n, steps);
    var s := Exec(n, steps);
    assert EntryOk(n, s, e);
    forall step | Enabled(n, s, step)
      ensures e in Apply(n, s, step).peers && Apply(n, s, step).peers[e] == s.peers[e]
    {
      StepKeeps(n, s, step);
    }
  }

  /** When both ends of a connection have filed it, each queue pair of one end was told the number of the queue
      pair with the same index at the other: three for a client, two between servers. */
  lemma {:induction false} EndsAgree(n: nat, steps: seq<Step>, c: nat, y: nat, a: nat, b: nat)
    requires Run(n, steps)
    ensures var s := Exec(n, steps); Entry(c, y) in s.clientPeers && c in s.ids && Entry(y, s.ids[c]) in s.peers ==>
      Paired(s.clientPeers[Entry(c, y)], s.peers[Entry(y, s.ids[c])], 3)
    ensures var s := Exec(n, steps); 1 <= a <= n && 1 <= b <= n && Entry(a, b) in s.peers && Entry(b, a) in s.peers ==>
      Paired(s.peers[Entry(a, b)], s.peers[Entry(b, a)], 2)
  {
    RunInv(n, steps);
    var s := Exec(n, steps);
    assert NodePairOk(n, s, a, b);
    if Entry(c, y) in s.clientPeers { assert ClientEntryOk(n, s, Entry(c, y)); }
  }

  /** When every server has tried all lower ones and no attempt failed, every pair is connected, both ways. */
  lemma {:induction false} PairsConnected(n: nat, steps: seq<Step>, a: nat, b: nat)
    requires Run(n, steps) && forall k :: 0 <= k < |steps| && steps[k].Servers? ==> steps[k].out == Swapped(true, true)
    requires 1 <= b < a <= n && b in NodeTried(Exec(n, steps), a)
    ensures Entry(a, b) in Exec(n, steps).peers && Entry(b, a) in Exec(n, steps).peers
    decreases |steps|
  {
    if steps != [] {
      var k := |steps| - 1;
      var s := Exec(n, steps[..k]);
      assert steps[k].Servers? ==> steps[k].out == Swapped(true, true);
      RunInv(n, steps[..k]);
      StepKeeps(n, s, steps[k]);
      if b in NodeTried(s, a) { PairsConnected(n, steps[..k], a, b); }
    }
  }

  // ---------------------------------------------------------------- what each attempt files

  /** The ends of an attempt: where the opener files it, and where the accepter does, which knows a client by the
      identifier that the client has after the step. */
  predicate OpenerFiles(s: State, step: Step, e: Entry, p: Peer) {
    match step
    case First(c, out, open, accept) => OpenerOk(out) && e == Entry(c, 1) && p == Peer(open, accept)
    case Next(c, y, out, open, accept) => OpenerOk(out) && e == Entry(c, y) && p == Peer(open, accept)
    case Servers(a, b, out, open, accept) => OpenerOk(out) && e == Entry(a, b) && p == Peer(open, accept)
  }

  predicate AccepterFiles(s: State, step: Step, e: Entry, p: Peer) {
    match step
    case First(c, out, open, accept) =>
      AccepterOk(out) && c in s.ids && e == Entry(1, s.ids[c]) && p == Peer(accept, open)
    case Next(c, y, out, open, accept) =>
      AccepterOk(out) && c in s.ids && e == Entry(y, s.ids[c]) && p == Peer(accept, open)
    case Servers(a, b, out, open, accept) => AccepterOk(out) && e == Entry(b, a) && p == Peer(accept, open)
  }

  /** Entries and identifiers, once there, stay as they are. */
  ghost predicate Grows(s: State, s': State) {
    && Kept(s, s')
    && (forall c :: c in s.ids ==> c in s'.ids && s'.ids[c] == s.ids[c])
    && (forall e :: e in s.peers ==> e in s'.peers && s'.peers[e] == s.peers[e])
    && (forall e :: e in s.clientPeers ==> e in s'.clientPeers && s'.clientPeers[e] == s.clientPeers[e])
  }

  lemma StepGrows(n: nat, s: State, step: Step)
    requires Inv(n, s) && Enabled(n, s, step)
    ensures Grows(s, Apply(n, s, step))
  {
    StepKeeps(n, s, step);
    forall e | e in s.clientPeers
      ensures e in Apply(n, s, step).clientPeers && Apply(n, s, step).clientPeers[e] == s.clientPeers[e]
    {
      assert ClientEntryOk(n, s, e);
    }
    forall e | e in s.peers ensures e in Apply(n, s, step).peers && Apply(n, s, step).peers[e] == s.peers[e] {
      AllApart(n, s, step);
    }
  }

  lemma StepFiles(n: nat, s: State, step: Step, e: Entry, p: Peer)
    requires Inv(n, s) && Enabled(n, s, step)
    ensures var s' := Apply(n, s, step);
      && (OpenerFiles(s', step, e, p) ==>
            if step.Servers? then e in s'.peers && s'.peers[e] == p else e in s'.clientPeers && s'.clientPeers[e] == p)
      && (AccepterFiles(s', step, e, p) ==> e in s'.peers && s'.peers[e] == p)
      && (!step.Servers? && (OpenerOk(step.out) || AccepterOk(step.out)) ==> step.c in s'.ids)
  {
  }

  /** From the attempt on, each side for which it succeeded has filed it: its own queue pairs, the numbers that it was
      told, under the identifier of the other side. */
  lemma {:induction false} Filed(n: nat, steps: seq<Step>, k: nat, e: Entry, p: Peer)
    requires Run(n, steps) && k < |steps|
    ensures var s, step := Exec(n, steps), steps[k];
      && (OpenerFiles(s, step, e, p) ==>
            if step.Servers? then e in s.peers && s.peers[e] == p else e in s.clientPeers && s.clientPeers[e] == p)
      && (AccepterFiles(s, step, e, p) ==> e in s.peers && s.peers[e] == p)
      && (!step.Servers? && (OpenerOk(step.out) || AccepterOk(step.out)) ==> step.c in s.ids)
    decreases |steps|
  {
    hide Inv, Apply, Enabled;
    var j := |steps| - 1;
    var s := Exec(n, steps[..j]);
    RunInv(n, steps[..j]);
    if k == j {
      StepFiles(n, s, steps[k], e, p);
    } else {
      Filed(n, steps[..j], k, e, p);
      StepGrows(n, s, steps[j]);
    }
  }

  /** A client that connected to server `y` without a failure is filed at both ends from then on. */
  lemma {:induction false} ClientConnected(n: nat, steps: seq<Step>, k: nat, y: nat)
    requires Run(n, steps) && k < |steps| && !steps[k].Servers? && steps[k].out == Swapped(true, true)
    requires y == if steps[k].First? then 1 else steps[k].y
    ensures var s, c := Exec(n, steps), steps[k].c;
      && c in s.ids && Entry(c, y) in s.clientPeers && Entry(y, s.ids[c]) in s.peers
      && s.clientPeers[Entry(c, y)] == Peer(steps[k].open, steps[k].accept)
      && s.peers[Entry(y, s.ids[c])] == Peer(steps[k].accept, steps[k].open)
  {
    var c, p, q := steps[k].c, Peer(steps[k].open, steps[k].accept), Peer(steps[k].accept, steps[k].open);
    Filed(n, steps, k, Entry(c, y), p);
    Filed(n, steps, k, Entry(y, Exec(n, steps).ids[c]), q);
  }

  /** First attempts of clients that came as far as the exchange of identifiers. */
  function Given(steps: seq<Step>): nat {
    if steps == [] then 0
    else
      var k := |steps| - 1;
      Given(steps[..k]) + if steps[k].First? && !steps[k].out.NoSwap? then 1 else 0
  }

  /** Server 1 gives out n + 1, n + 2, and so on, one for each of these. */
  lemma {:induction false} IdsInOrder(n: nat, steps: seq<Step>, k: nat)
    requires Run(n, steps) && k < |steps| && steps[k].First? && !steps[k].out.NoSwap?
    ensures var s := Exec(n, steps); steps[k].c in s.ids && s.ids[steps[k].c] == n + 1 + Given(steps[..k])
    decreases |steps|
  {
    hide Inv;
    var j := |steps| - 1;
    RunInv(n, steps[..j]);
    NextGiven(n, steps[..j]);
    if k < j {
      assert steps[..j][..k] == steps[..k];
      IdsInOrder(n, steps[..j], k);
      StepGrows(n, Exec(n, steps[..j]), steps[j]);
    }
  }

  lemma {:induction false} NextGiven(n: nat, steps: seq<Step>)
    requires Run(n, steps)
    ensures Exec(n, steps).maxNode == n + 1 + Given(steps)
    decreases |steps|
  {
    if steps != [] { NextGiven(n, steps[..|steps| - 1]); }
  }

  // ---------------------------------------------------------------- a failure ends the loop

  predicate SameParty(a: Step, b: Step) {
    if a.Servers? then b.Servers? && a.a == b.a else !b.Servers? && a.c == b.c
  }

  predicate HasStopped(s: State, step: Step) {
    if step.Servers? then step.a in s.nodeStopped else step.c in s.stopped
  }

  lemma StoppedStays(n: nat, s: State, step: Step, before: Step)
    requires Enabled(n, s, step) && HasStopped(s, before)
    ensures HasStopped(Apply(n, s, step), before)
  {
  }

  lemma {:induction false} StoppedAfter(n: nat, steps: seq<Step>, j: nat)
    requires Run(n, steps) && j < |steps| && !OpenerOk(steps[j].out)
    ensures HasStopped(Exec(n, steps), steps[j])
    decreases |steps|
  {
    var k := |steps| - 1;
    if j < k {
      StoppedAfter(n, steps[..k], j);
      StoppedStays(n, Exec(n, steps[..k]), steps[k], steps[j]);
    }
  }

  lemma {:induction false} Prefix(n: nat, steps: seq<Step>, k: nat)
    requires Run(n, steps) && k <= |steps|
    ensures Run(n, steps[..k])
    decreases |steps|
  {
    if k < |steps| {
      Prefix(n, steps[..|steps| - 1], k);
      assert steps[..|steps| - 1][..k] == steps[..k];
    } else {
      assert steps[..k] == steps;
    }
  }

  /** A party makes no attempt after one that failed on its side, and a client begins with server 1, once. */
  lemma {:induction false} FailureEnds(n: nat, steps: seq<Step>, j: nat, k: nat)
    requires Run(n, steps) && j < k < |steps| && SameParty(steps[j], steps[k])
    ensures OpenerOk(steps[j].out) && !steps[k].First?
  {
    hide Apply;
    Prefix(n, steps, k + 1);
    assert steps[..k + 1][..k] == steps[..k];
    if !OpenerOk(steps[j].out) { StoppedAfter(n, steps[..k], j); NotStopped(n, steps[..k], steps[k]); }
    if steps[k].First? { TriedAfter(n, steps[..k], j); }
  }

  /** Only parties that have begun can have stopped. */
  lemma {:induction false} NotStopped(n: nat, steps: seq<Step>, step: Step)
    requires Run(n, steps) && Enabled(n, Exec(n, steps), step)
    ensures !HasStopped(Exec(n, steps), step)
  {
    StoppedTried(n, steps);
  }

  lemma StepStopped(n: nat, s: State, step: Step)
    requires Inv(n, s) && Enabled(n, s, step) && forall c :: c in s.stopped ==> c in s.tried
    ensures forall c :: c in Apply(n, s, step).stopped ==> c in Apply(n, s, step).tried
  {
    hide NodePairOk, EntryOk, ClientEntryOk;
  }

  lemma {:induction false} StoppedTried(n: nat, steps: seq<Step>)
    requires Run(n, steps)
    ensures forall c :: c in Exec(n, steps).stopped ==> c in Exec(n, steps).tried
    decreases |steps|
  {
    hide Inv, Apply, Enabled;
    if steps != [] {
      StoppedTried(n, steps[..|steps| - 1]);
      RunInv(n, steps[..|steps| - 1]);
      StepStopped(n, Exec(n, steps[..|steps| - 1]), steps[|steps| - 1]);
    }
  }

  lemma {:induction false} TriedAfter(n: nat, steps: seq<Step>, j: nat)
    requires Run(n, steps) && j < |steps| && !steps[j].Servers?
    ensures steps[j].c in Exec(n, steps).tried
    decreases |steps|
  {
    if j < |steps| - 1 { TriedAfter(n, steps[..|steps| - 1], j); }
  }
}
