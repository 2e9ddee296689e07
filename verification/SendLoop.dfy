/**
When the send loop of `_DoAccumulateAndWait` sends everything.

`done` starts at 1, counting the sender's own node, and an own segment that is empty is counted a
second time while the segments are opened. This module shows the exact consequence: every run sends
everything before waiting if and only if each user's own segment is non-empty or the whole vector is.
*/
module SendLoop {
  import opened Accumulator
  import opened AccumulatorTheorems
  import opened Chunks
  import opened Counting
  import Rounds

  // ---- what `done` counts ----

  /** The nodes `done` has counted, besides the initial 1. */
  function Counted(c: Config, x: Sender, u: nat): seq<bool>
    requires |c.start| == |c.end| == c.nodes == |x.cursor| && u < |c.home|
  {
    seq(c.nodes, k requires 0 <= k < c.nodes =>
      if x.pc.Open? then k < x.pc.i && Empty(c, k)
      else Empty(c, k) || (k != c.home[u] && x.cursor[k] == c.end[k]))
  }

  ghost predicate DoneOk(c: Config, x: Sender, calls: nat, u: nat)
    requires Ok(c) && u < |c.home| && |x.cursor| == c.nodes
  {
    calls > 0 ==> x.done == 1 + Count(Counted(c, x, u)) && (x.pc == Out ==> x.done >= c.nodes)
  }

  ghost predicate CountsOk(c: Config, s: State) {
    && Inv(c, s)
    && forall u :: 0 <= u < |c.home| ==> DoneOk(c, s.senders[u], s.net.users[u].calls, u)
  }

  lemma DoneAfterCall(c: Config, s: State, u: nat)
    requires Inv(c, s) && Moves(c, s, Call(u))
    ensures |NextSender(c, s, Call(u), u).cursor| == c.nodes
    ensures DoneOk(c, NextSender(c, s, Call(u), u), s.net.users[u].calls + 1, u)
  {
    CountNone(Counted(c, NextSender(c, s, Call(u), u), u));
  }

  lemma DoneAfterOpen(c: Config, x: Sender, calls: nat, u: nat)
    requires Ok(c) && u < |c.home| && |x.cursor| == c.nodes && DoneOk(c, x, calls, u)
    requires x.pc.Open? && x.pc.i < c.nodes
    ensures DoneOk(c, x.(pc := Open(x.pc.i + 1), done := if Empty(c, x.pc.i) then x.done + 1 else x.done), calls, u)
  {
    var i := x.pc.i;
    var x' := x.(pc := Open(i + 1), done := if Empty(c, i) then x.done + 1 else x.done);
    if Empty(c, i) {
      assert Counted(c, x', u) == Counted(c, x, u)[i := true];
      CountSet(Counted(c, x, u), i);
    } else {
      assert Counted(c, x', u) == Counted(c, x, u);
    }
  }

  lemma DoneAfterOwn(c: Config, x: Sender, calls: nat, u: nat)
    requires Ok(c) && u < |c.home| && |x.cursor| == c.nodes && DoneOk(c, x, calls, u)
    requires x.pc == Open(c.nodes) && x.cursor == c.start
    ensures DoneOk(c, x.(pc := Head, cursor := x.cursor[c.home[u] := c.end[c.home[u]]]), calls, u)
  {
    var x' := x.(pc := Head, cursor := x.cursor[c.home[u] := c.end[c.home[u]]]);
    assert Counted(c, x', u) == Counted(c, x, u);
  }

  lemma DoneAfterScan(c: Config, x: Sender, pc: Pc, calls: nat, u: nat)
    requires Ok(c) && u < |c.home| && |x.cursor| == c.nodes && DoneOk(c, x, calls, u)
    requires !x.pc.Open? && !pc.Open? && (pc == Out ==> x.done >= c.nodes)
    ensures DoneOk(c, x.(pc := pc), calls, u)
  {
    assert Counted(c, x.(pc := pc), u) == Counted(c, x, u);
  }

  lemma DoneAfterChunk(c: Config, x: Sender, x': Sender, calls: nat, u: nat, k: nat, advance: nat)
    requires Ok(c) && u < |c.home| && |x.cursor| == c.nodes && DoneOk(c, x, calls, u)
    requires x.pc.Scan? && x'.pc.Scan? && k < c.nodes && k != c.home[u] && CursorOk(c, x, k) && x.cursor[k] < c.end[k]
    requires x'.cursor == x.cursor[k := x.cursor[k] + advance]
    requires x'.done == if x'.cursor[k] == c.end[k] then x.done + 1 else x.done
    ensures DoneOk(c, x', calls, u)
  {
    if x'.cursor[k] == c.end[k] {
      assert Counted(c, x', u) == Counted(c, x, u)[k := true];
      CountSet(Counted(c, x, u), k);
    } else {
      assert Counted(c, x', u) == Counted(c, x, u);
    }
  }

  lemma DoneWhenSending(c: Config, s: State, u: nat, sparse: bool)
    requires CountsOk(c, s) && Moves(c, s, SendChunk(u, sparse))
    requires |NextSender(c, s, SendChunk(u, sparse), u).cursor| == c.nodes
    ensures DoneOk(c, NextSender(c, s, SendChunk(u, sparse), u), s.net.users[u].calls, u)
  {
    var x := s.senders[u];
    assert DoneOk(c, x, s.net.users[u].calls, u);
    DoneAfterChunk(c, x, NextSender(c, s, SendChunk(u, sparse), u), s.net.users[u].calls, u, x.pc.i,
                   Cut(c, s, u, x.pc.i, sparse).advance);
  }

  lemma DoneOtherwise(c: Config, s: State, step: Step, u: nat)
    requires CountsOk(c, s) && Moves(c, s, step) && u < |c.home| && ActsFor(step, u)
    requires !step.Call? && !step.SendChunk? && |NextSender(c, s, step, u).cursor| == c.nodes
    ensures DoneOk(c, NextSender(c, s, step, u), s.net.users[u].calls, u)
  {
    var x, y := s.senders[u], s.net.users[u];
    assert DoneOk(c, x, y.calls, u) && UserInv(c, x, y, u);
    match step
    case OpenNext(_) => DoneAfterOpen(c, x, y.calls, u);
    case SendOwn(_) => DoneAfterOwn(c, x, y.calls, u);
    case Test(_) => DoneAfterScan(c, x, NextSender(c, s, step, u).pc, y.calls, u);
    case Skip(_) => DoneAfterScan(c, x, NextSender(c, s, step, u).pc, y.calls, u);
    case Return(_) =>
  }

  lemma DoneRests(c: Config, s: State, step: Step, u: nat)
    requires CountsOk(c, s) && Moves(c, s, step) && u < |c.home| && !ActsFor(step, u)
    ensures NextSender(c, s, step, u) == s.senders[u] && |s.senders[u].cursor| == c.nodes
    ensures DoneOk(c, s.senders[u], NetUser(c, s, step, u).calls, u)
  {
    assert DoneOk(c, s.senders[u], s.net.users[u].calls, u);
    if step.Deliver? || step.Report? || step.WakeArrives? {
      Rounds.ReceivingFrame(s.net, NetStep(c, s, step)[0], u);
    }
  }

  lemma DoneKept(c: Config, s: State, step: Step, u: nat)
    requires CountsOk(c, s) && Moves(c, s, step) && u < |c.home|
    requires |NextSender(c, s, step, u).cursor| == c.nodes
    ensures DoneOk(c, NextSender(c, s, step, u), NetUser(c, s, step, u).calls, u)
  {
    if !ActsFor(step, u) {
      DoneRests(c, s, step, u);
    } else if step.Call? {
      DoneAfterCall(c, s, u);
    } else if step.SendChunk? {
      DoneWhenSending(c, s, u, step.sparse);
    } else {
      DoneOtherwise(c, s, step, u);
    }
  }

  lemma CountsStep(c: Config, s: State, step: Step)
    requires CountsOk(c, s) && Moves(c, s, step)
    ensures CountsOk(c, Apply(c, s, step))
  {
    var s' := Apply(c, s, step);
    StepInv(c, s, step);
    StepShape(c, s, step);
    forall u | 0 <= u < |c.home| ensures DoneOk(c, s'.senders[u], s'.net.users[u].calls, u) {
      EveryUserKept(c, s, step, u);
      DoneKept(c, s, step, u);
    }
  }

  lemma InitCounts(c: Config, arr: seq<real>)
    requires Ok(c) && |arr| == c.len
    ensures CountsOk(c, Init(c, arr))
  {
    InitInv(c, arr);
  }

  lemma {:induction false} PathCounts(c: Config, s: State, steps: seq<Step>, s2: State)
    requires CountsOk(c, s) && Path(c, s, steps, s2)
    ensures CountsOk(c, s2)
    decreases |steps|
  {
    if steps != [] {
      CountsStep(c, s, steps[0]);
      PathCounts(c, Apply(c, s, steps[0]), steps[1..], s2);
    }
  }

  // ---- a good own segment makes the loop send everything ----

  ghost predicate VectorEmpty(c: Config)
    requires Ok(c)
  {
    forall k :: 0 <= k < c.nodes ==> Empty(c, k)
  }

  /** The guard: u's own segment is non-empty, unless all segments are empty. */
  ghost predicate Guard(c: Config, u: nat)
    requires Ok(c) && u < |c.home|
  {
    !Empty(c, c.home[u]) || VectorEmpty(c)
  }

  lemma AllButOne(b: seq<bool>, h: nat, k: nat)
    requires h < |b| && !b[h] && Count(b) >= |b| - 1 && k < |b| && k != h
    ensures b[k]
  {
    CountSet(b, h);
    CountFull(b[h := true]);
    assert b[h := true][k] == b[k];
  }

  /** A user that waits has sent its final message to every node. */
  ghost predicate WaitsDone(c: Config, s: State, u: nat)
    requires Shape(c, s) && u < |c.home|
  {
    s.net.users[u].phase == Rounds.Waiting ==> forall k :: 0 <= k < c.nodes ==> s.net.users[u].finished[k]
  }

  lemma GuardSendsAll(c: Config, s: State, u: nat)
    requires CountsOk(c, s) && u < |c.home| && Guard(c, u)
    ensures WaitsDone(c, s, u)
  {
    var x, y := s.senders[u], s.net.users[u];
    assert UserInv(c, x, y, u) && DoneOk(c, x, y.calls, u) && Rounds.UserOk(y, s.net.rounds);
    if y.phase == Rounds.Waiting {
      var b := Counted(c, x, u);
      assert Count(b) >= c.nodes - 1;
      forall k | 0 <= k < c.nodes ensures y.finished[k] {
        assert y.finished[k] <==> DoneWith(c, x, u, k);
        if k != c.home[u] && !Empty(c, k) {
          AllButOne(b, c.home[u], k);
        }
      }
    }
  }

  // ---- a bad own segment lets the loop stop early ----

  /** One step of the code. */
  ghost predicate Leads(c: Config, s: State, step: Step, s2: State) {
    Moves(c, s, step) && s2 == Apply(c, s, step)
  }

  /** A piece of a run with all its states: states[n] and states[n + 1] are before and after steps[n]. */
  datatype Trace = Trace(states: seq<State>, steps: seq<Step>)

  predicate Complete(tr: Trace) {
    |tr.states| == |tr.steps| + 1
  }

  ghost predicate Hop(c: Config, tr: Trace, n: nat)
    requires Complete(tr) && n < |tr.steps|
  {
    Leads(c, tr.states[n], tr.steps[n], tr.states[n + 1])
  }

  /** A trace from s to s2. */
  ghost predicate Follows(c: Config, tr: Trace, s: State, s2: State) {
    && Complete(tr) && tr.states[0] == s && tr.states[|tr.steps|] == s2
    && forall n {:trigger Hop(c, tr, n)} :: 0 <= n < |tr.steps| ==> Hop(c, tr, n)
  }

  function Join(a: Trace, b: Trace): Trace
    requires Complete(a) && Complete(b)
  {
    Trace(a.states + b.states[1..], a.steps + b.steps)
  }

  lemma JoinFollows(c: Config, a: Trace, b: Trace, s: State, s1: State, s2: State)
    requires Follows(c, a, s, s1) && Follows(c, b, s1, s2)
    ensures Follows(c, Join(a, b), s, s2)
  {
    var tr, k := Join(a, b), |a.steps|;
    forall n | 0 <= n < |tr.steps| ensures Hop(c, tr, n) {
      if n < k {
        assert Hop(c, a, n);
      } else {
        assert Hop(c, b, n - k);
      }
    }
  }

  ghost function Single(s: State, step: Step, s2: State): Trace {
    Trace([s, s2], [step])
  }

  lemma SingleFollows(c: Config, s: State, step: Step, s2: State)
    requires Leads(c, s, step, s2)
    ensures Follows(c, Single(s, step, s2), s, s2)
  {
    assert Hop(c, Single(s, step, s2), 0);
  }

  lemma Prepend(c: Config, s: State, step: Step, s1: State, rest: Trace, s2: State) returns (tr: Trace)
    requires Leads(c, s, step, s1) && Follows(c, rest, s1, s2)
    ensures Follows(c, tr, s, s2)
  {
    SingleFollows(c, s, step, s1);
    JoinFollows(c, Single(s, step, s1), rest, s, s1, s2);
    tr := Join(Single(s, step, s1), rest);
  }

  /** A trace is a path. */
  lemma {:induction false} TraceIsPath(c: Config, tr: Trace, s: State, s2: State)
    requires Follows(c, tr, s, s2)
    ensures Path(c, s, tr.steps, s2)
    decreases |tr.steps|
  {
    if tr.steps != [] {
      var rest := Trace(tr.states[1..], tr.steps[1..]);
      assert Hop(c, tr, 0);
      forall n | 0 <= n < |rest.steps| ensures Hop(c, rest, n) {
        assert Hop(c, tr, n + 1);
      }
      TraceIsPath(c, rest, tr.states[1], s2);
    }
  }

  /** User u is inside its call. */
  ghost predicate Inside(c: Config, s: State, u: nat) {
    CountsOk(c, s) && u < |c.home| && s.net.users[u].calls > 0 && s.net.users[u].phase != Rounds.Idle
  }

  /** What user u's own steps leave to the others. */
  ghost predicate Beside(s: State, s2: State, u: nat) {
    && |s2.senders| == |s.senders| && |s2.net.users| == |s.net.users| && s2.net.rounds == s.net.rounds
    && (forall v {:trigger s2.senders[v]} :: 0 <= v < |s.senders| && v != u ==> s2.senders[v] == s.senders[v])
    && (forall v {:trigger s2.net.users[v]} :: 0 <= v < |s.net.users| ==> s2.net.users[v].calls == s.net.users[v].calls)
  }

  predicate CallFree(steps: seq<Step>) {
    forall n {:trigger steps[n]} :: 0 <= n < |steps| ==> !steps[n].Call?
  }

  /** Steps of user u, inside its call. */
  ghost predicate Goes(c: Config, tr: Trace, s: State, s2: State, u: nat) {
    Follows(c, tr, s, s2) && CallFree(tr.steps) && Inside(c, s2, u) && Beside(s, s2, u)
  }

  lemma JoinGoes(c: Config, a: Trace, b: Trace, s: State, s1: State, s2: State, u: nat)
    requires Goes(c, a, s, s1, u) && Goes(c, b, s1, s2, u)
    ensures Goes(c, Join(a, b), s, s2, u)
  {
    JoinFollows(c, a, b, s, s1, s2);
  }

  lemma Stays(c: Config, s: State, u: nat) returns (tr: Trace)
    requires Inside(c, s, u)
    ensures Goes(c, tr, s, s, u)
  {
    tr := Trace([s], []);
  }

  predicate OwnKind(step: Step) {
    step.OpenNext? || step.SendOwn? || step.Test? || step.Skip? || step.SendChunk?
  }

  /** What user u has sent in this call after its step. */
  ghost function SentAfter(c: Config, s: State, step: Step, u: nat): seq<seq<Part>>
    requires Moves(c, s, step) && u < |c.home| && ActsFor(step, u)
  {
    var sent := s.net.users[u].sent;
    var ops := NetStep(c, s, step);
    if ops != [] && ops[0].Send? then sent[ops[0].n := sent[ops[0].n] + [ops[0].payload]] else sent
  }

  lemma OwnBeside(c: Config, s: State, u: nat, step: Step)
    requires Moves(c, s, step) && ActsFor(step, u) && OwnKind(step) && Shape(c, Apply(c, s, step))
    ensures Beside(s, Apply(c, s, step), u) && Apply(c, s, step).senders[u] == NextSender(c, s, step, u)
    ensures Apply(c, s, step).net.users[u].phase == Rounds.Idle ==> s.net.users[u].phase == Rounds.Idle
    ensures Apply(c, s, step).net.users[u].sent == SentAfter(c, s, step, u)
  {
  }

  /** A step user u takes by itself. */
  lemma OwnStep(c: Config, s: State, u: nat, step: Step) returns (s2: State)
    requires Inside(c, s, u) && Enabled(c, s, step) && ActsFor(step, u) && OwnKind(step)
    ensures Leads(c, s, step, s2) && Goes(c, Single(s, step, s2), s, s2, u)
    ensures Ready(c, s, step) && s2.senders[u] == NextSender(c, s, step, u) && s2.net.users[u].sent == SentAfter(c, s, step, u)
  {
    StepsAreReady(c, s, step);
    CountsStep(c, s, step);
    s2 := Apply(c, s, step);
    OwnBeside(c, s, u, step);
    SingleFollows(c, s, step, s2);
  }

  lemma PrependGoes(c: Config, s: State, step: Step, s1: State, rest: Trace, s2: State, u: nat) returns (tr: Trace)
    requires Goes(c, Single(s, step, s1), s, s1, u) && Goes(c, rest, s1, s2, u)
    ensures Goes(c, tr, s, s2, u)
  {
    JoinGoes(c, Single(s, step, s1), rest, s, s1, s2, u);
    tr := Join(Single(s, step, s1), rest);
  }

  lemma Skips(c: Config, s: State, u: nat, upto: nat) returns (tr: Trace, s2: State)
    requires Inside(c, s, u) && s.senders[u].pc.Scan? && s.senders[u].pc.i <= upto <= c.nodes
    ensures Goes(c, tr, s, s2, u) && s2.senders[u] == s.senders[u].(pc := Scan(upto))
    ensures s2.net.users[u].sent == s.net.users[u].sent
    decreases upto - s.senders[u].pc.i
  {
    if s.senders[u].pc.i == upto {
      s2 := s;
      tr := Stays(c, s, u);
    } else {
      var s1 := OwnStep(c, s, u, Skip(u));
      var rest, s3 := Skips(c, s1, u, upto);
      s2 := s3;
      tr := PrependGoes(c, s, Skip(u), s1, rest, s3, u);
    }
  }

  /** Skips to the end of the scan, and on to the test. */
  lemma SkipsToHead(c: Config, s: State, u: nat) returns (tr: Trace, s2: State)
    requires Inside(c, s, u) && s.senders[u].pc.Scan? && s.senders[u].pc.i <= c.nodes
    ensures Goes(c, tr, s, s2, u) && s2.senders[u] == s.senders[u].(pc := Head)
    ensures s2.net.users[u].sent == s.net.users[u].sent
  {
    var rest, sn := Skips(c, s, u, c.nodes);
    s2 := OwnStep(c, sn, u, Skip(u));
    JoinGoes(c, rest, Single(sn, Skip(u), s2), s, sn, s2, u);
    tr := Join(rest, Single(sn, Skip(u), s2));
  }

  /** Words not yet sent to the first k nodes. */
  function Left(c: Config, x: Sender, k: nat): nat
    requires |c.end| == |x.cursor| && k <= |c.end|
  {
    if k == 0 then 0
    else Left(c, x, k - 1) + (if x.cursor[k - 1] < c.end[k - 1] then c.end[k - 1] - x.cursor[k - 1] else 0)
  }

  lemma {:induction false} LeftShrinks(c: Config, x: Sender, x': Sender, j: nat, v: nat, k: nat)
    requires |c.end| == |x.cursor| && k <= |c.end| && j < |c.end|
    requires x'.cursor == x.cursor[j := v] && x.cursor[j] < v <= c.end[j]
    ensures Left(c, x', k) <= Left(c, x, k) && (j < k ==> Left(c, x', k) < Left(c, x, k))
  {
    if k > 0 {
      LeftShrinks(c, x, x', j, v, k - 1);
    }
  }

  lemma ChunkEffect(c: Config, s: State, u: nat, k: nat, sparse: bool)
    requires Moves(c, s, SendChunk(u, sparse)) && s.senders[u].pc == Scan(k)
    ensures NextSender(c, s, SendChunk(u, sparse), u).pc == Scan(k + 1)
    ensures var cut := Cut(c, s, u, k, sparse);
            && NextSender(c, s, SendChunk(u, sparse), u).cursor == s.senders[u].cursor[k := s.senders[u].cursor[k] + cut.advance]
            && SentAfter(c, s, SendChunk(u, sparse), u)
               == s.net.users[u].sent[k := s.net.users[u].sent[k] + [Part(s.senders[u].cursor[k], cut.payload)]]
  {
  }

  /** The next chunk for node k, whose turn it is in the scan. */
  lemma SendsTo(c: Config, s: State, u: nat, k: nat, sparse: bool) returns (s2: State)
    requires Inside(c, s, u) && s.senders[u].pc == Scan(k) && Pending(c, s, u, k) && CursorOk(c, s.senders[u], k)
    ensures Goes(c, Single(s, SendChunk(u, sparse), s2), s, s2, u) && s2.senders[u].pc == Scan(k + 1)
    ensures var cut := Cut(c, s, u, k, sparse);
            && s2.senders[u].cursor == s.senders[u].cursor[k := s.senders[u].cursor[k] + cut.advance]
            && s2.net.users[u].sent == s.net.users[u].sent[k := s.net.users[u].sent[k] + [Part(s.senders[u].cursor[k], cut.payload)]]
  {
    StepsAreReady(c, s, SendChunk(u, sparse));
    ChunkEffect(c, s, u, k, sparse);
    s2 := OwnStep(c, s, u, SendChunk(u, sparse));
  }

  lemma SendsSome(c: Config, s: State, u: nat, k: nat) returns (s2: State, v: nat)
    requires Inside(c, s, u) && s.senders[u].pc == Scan(k) && Pending(c, s, u, k)
    ensures Goes(c, Single(s, SendChunk(u, false), s2), s, s2, u) && s2.senders[u].pc == Scan(k + 1)
    ensures s.senders[u].cursor[k] < v <= c.end[k] && s2.senders[u].cursor == s.senders[u].cursor[k := v]
  {
    ChunkAdvances(c, s, u, k);
    v := s.senders[u].cursor[k] + Cut(c, s, u, k, false).advance;
    s2 := SendsTo(c, s, u, k, false);
  }

  /** One pass over the nodes that sends a chunk to k and nothing to anybody else. */
  lemma PassSendingTo(c: Config, s: State, u: nat, k: nat) returns (tr: Trace, s2: State, v: nat)
    requires Inside(c, s, u) && s.senders[u].pc == Head && s.senders[u].done < c.nodes && Pending(c, s, u, k)
    ensures Goes(c, tr, s, s2, u) && s2.senders[u].pc == Head
    ensures s.senders[u].cursor[k] < v <= c.end[k] && s2.senders[u].cursor == s.senders[u].cursor[k := v]
    ensures Left(c, s2.senders[u], c.nodes) < Left(c, s.senders[u], c.nodes)
  {
    var s1 := OwnStep(c, s, u, Test(u));
    var ahead, sk := Skips(c, s1, u, k);
    var sent;
    sent, v := SendsSome(c, sk, u, k);
    var rest;
    rest, s2 := SkipsToHead(c, sent, u);
    var after := PrependGoes(c, sk, SendChunk(u, false), sent, rest, s2, u);
    JoinGoes(c, ahead, after, s1, sk, s2, u);
    tr := PrependGoes(c, s, Test(u), s1, Join(ahead, after), s2, u);
    LeftShrinks(c, s.senders[u], s2.senders[u], k, v, c.nodes);
  }

  lemma ChunkAdvances(c: Config, s: State, u: nat, k: nat)
    requires Inv(c, s) && u < |c.home| && s.senders[u].pc == Scan(k) && Pending(c, s, u, k)
    ensures CursorOk(c, s.senders[u], k)
    ensures 0 < Cut(c, s, u, k, false).advance && s.senders[u].cursor[k] + Cut(c, s, u, k, false).advance <= c.end[k]
  {
    assert UserInv(c, s.senders[u], s.net.users[u], u);
    Segment(c, k);
    assert CursorOk(c, s.senders[u], k) && SegmentOk(c, k) && |Vec(c, s, u)| == c.len;
    assert !Empty(c, k) && Elem(c.end[k], c.dsm) <= c.len;
    NextChunkSound(Vec(c, s, u), false, c.threshold, s.senders[u].cursor[k], c.end[k], c.dsm);
  }

  /** Opening the segments from i on sends an empty message to each other node whose segment is empty. */
  function SentOpening(c: Config, sent: seq<seq<Part>>, u: nat, i: nat): seq<seq<Part>>
    requires |c.start| == |c.end| == c.nodes == |sent| && u < |c.home|
  {
    seq(c.nodes, k requires 0 <= k < c.nodes => if i <= k && Empty(c, k) && k != c.home[u] then sent[k] + [Part(0, Dense([]))] else sent[k])
  }

  lemma OpeningOne(c: Config, sent: seq<seq<Part>>, u: nat, i: nat)
    requires |c.start| == |c.end| == c.nodes == |sent| && u < |c.home| && i < c.nodes
    ensures SentOpening(c, if Empty(c, i) && i != c.home[u] then sent[i := sent[i] + [Part(0, Dense([]))]] else sent, u, i + 1)
            == SentOpening(c, sent, u, i)
  {
  }

  lemma OpenAll(c: Config, s: State, u: nat) returns (tr: Trace, s2: State)
    requires Inside(c, s, u) && s.senders[u].pc.Open? && s.senders[u].pc.i <= c.nodes
    ensures Goes(c, tr, s, s2, u) && s2.senders[u].pc == Open(c.nodes) && s2.senders[u].cursor == s.senders[u].cursor
    ensures s2.net.users[u].sent == SentOpening(c, s.net.users[u].sent, u, s.senders[u].pc.i)
    decreases c.nodes - s.senders[u].pc.i
  {
    if s.senders[u].pc.i == c.nodes {
      s2 := s;
      tr := Stays(c, s, u);
      assert SentOpening(c, s.net.users[u].sent, u, c.nodes) == s.net.users[u].sent;
    } else {
      var s1 := OwnStep(c, s, u, OpenNext(u));
      var rest, s3 := OpenAll(c, s1, u);
      s2 := s3;
      tr := PrependGoes(c, s, OpenNext(u), s1, rest, s3, u);
      OpeningOne(c, s.net.users[u].sent, u, s.senders[u].pc.i);
    }
  }

  ghost function OwnMessage(c: Config, s: State, u: nat): Part
    requires Shape(c, s) && u < |c.home|
  {
    Segment(c, c.home[u]);
    if Empty(c, c.home[u]) then Part(c.start[c.home[u]], Dense([])) else OwnPart(c, u, Vec(c, s, u))
  }

  /** All segments opened, the own one handed over. */
  lemma OpenToHead(c: Config, s: State, u: nat) returns (tr: Trace, s2: State)
    requires Inside(c, s, u) && s.senders[u].pc.Open? && s.senders[u].pc.i <= c.nodes
    ensures Goes(c, tr, s, s2, u) && s2.senders[u].pc == Head
    ensures s2.senders[u].cursor == s.senders[u].cursor[c.home[u] := c.end[c.home[u]]]
    ensures var sent := SentOpening(c, s.net.users[u].sent, u, s.senders[u].pc.i);
            s2.net.users[u].sent == sent[c.home[u] := sent[c.home[u]] + [OwnMessage(c, s, u)]]
  {
    var open, so := OpenAll(c, s, u);
    s2 := OwnStep(c, so, u, SendOwn(u));
    JoinGoes(c, open, Single(so, SendOwn(u), s2), s, so, s2, u);
    tr := Join(open, Single(so, SendOwn(u), s2));
  }

  /** User u is inside its call, its own segment is empty, and node t has been sent nothing. */
  ghost predicate Starving(c: Config, s: State, u: nat, t: nat) {
    && Inside(c, s, u) && t < c.nodes && Empty(c, c.home[u]) && !Empty(c, t)
    && s.senders[u].cursor[t] == c.start[t]
  }

  /** If the loop goes on, somebody other than t is still waiting for data. */
  lemma SomebodyElse(c: Config, s: State, u: nat, t: nat) returns (k: nat)
    requires Starving(c, s, u, t) && s.senders[u].pc == Head && s.senders[u].done < c.nodes
    ensures k != t && Pending(c, s, u, k)
  {
    var x := s.senders[u];
    assert DoneOk(c, x, s.net.users[u].calls, u) && UserInv(c, x, s.net.users[u], u);
    var b := Counted(c, x, u);
    CountSet(b, t);
    CountFull(b[t := true]);
    k :| 0 <= k < c.nodes && !b[t := true][k];
    assert CursorOk(c, x, k);
  }

  /** The schedule on which t's socket is never writable: the loop ends with nothing sent to t. */
  lemma StarveToTheEnd(c: Config, s: State, u: nat, t: nat) returns (tr: Trace, s2: State)
    requires Starving(c, s, u, t) && s.senders[u].pc == Head
    ensures Goes(c, tr, s, s2, u) && Starving(c, s2, u, t) && s2.senders[u].pc == Out
    decreases Left(c, s.senders[u], c.nodes)
  {
    if s.senders[u].done >= c.nodes {
      s2 := OwnStep(c, s, u, Test(u));
      tr := Single(s, Test(u), s2);
    } else {
      var k := SomebodyElse(c, s, u, t);
      var pass, s1, _ := PassSendingTo(c, s, u, k);
      var rest, s3 := StarveToTheEnd(c, s1, u, t);
      JoinGoes(c, pass, rest, s, s1, s3, u);
      tr, s2 := Join(pass, rest), s3;
    }
  }

  /** Entering a call. */
  lemma CallStep(c: Config, s: State, u: nat) returns (s2: State)
    requires CountsOk(c, s) && u < |c.home| && s.net.users[u].phase == Rounds.Idle
    ensures Leads(c, s, Call(u), s2) && Inside(c, s2, u) && s2.senders[u].pc == Open(0) && s2.senders[u].cursor == c.start
    ensures s2.net.users == s.net.users[u := s2.net.users[u]] && s2.net.users[u].calls == s.net.users[u].calls + 1
    ensures forall k :: 0 <= k < c.nodes ==> s2.net.users[u].sent[k] == []
  {
    StepsAreReady(c, s, Call(u));
    s2 := Apply(c, s, Call(u));
    StepShape(c, s, Call(u));
    CountsStep(c, s, Call(u));
  }

  /** From the start: user u calls, opens, sends its (empty) own segment and starves t. */
  lemma BadRun(c: Config, arr: seq<real>, u: nat, t: nat) returns (steps: seq<Step>, s2: State)
    requires Ok(c) && |arr| == c.len && u < |c.home| && t < c.nodes && Empty(c, c.home[u]) && !Empty(c, t)
    ensures Run(c, arr, steps, s2) && Shape(c, s2) && !WaitsDone(c, s2, u)
  {
    InitCounts(c, arr);
    var s0 := Init(c, arr);
    var s := CallStep(c, s0, u);
    var first, sh := OpenToHead(c, s, u);
    var rest, se := StarveToTheEnd(c, sh, u, t);
    JoinGoes(c, first, rest, s, sh, se, u);
    var tr := Prepend(c, s0, Call(u), s, Join(first, rest), se);
    steps, s2 := tr.steps, se;
    TraceIsPath(c, tr, s0, se);
    Starved(c, s2, u, t);
  }

  lemma Starved(c: Config, s: State, u: nat, t: nat)
    requires Starving(c, s, u, t) && s.senders[u].pc == Out
    ensures !WaitsDone(c, s, u)
  {
    var x, y := s.senders[u], s.net.users[u];
    assert UserInv(c, x, y, u);
    assert y.finished[t] <==> DoneWith(c, x, u, t);
  }

  /**
  The exact condition. In every run every user that waits has sent all its final messages, if and
  only if every user's own segment is non-empty or the whole vector is empty.
  */
  lemma SendLoopExact(c: Config, arr: seq<real>)
    requires Ok(c) && |arr| == c.len
    ensures (forall steps, s, u: nat :: Run(c, arr, steps, s) && Shape(c, s) && u < |c.home| ==> WaitsDone(c, s, u))
            <==> forall u :: 0 <= u < |c.home| ==> Guard(c, u)
  {
    if forall u :: 0 <= u < |c.home| ==> Guard(c, u) {
      forall steps, s, u: nat | Run(c, arr, steps, s) && Shape(c, s) && u < |c.home| ensures WaitsDone(c, s, u) {
        InitCounts(c, arr);
        PathCounts(c, Init(c, arr), steps, s);
        GuardSendsAll(c, s, u);
      }
    } else {
      var u :| 0 <= u < |c.home| && !Guard(c, u);
      var t :| 0 <= t < c.nodes && !Empty(c, t);
      var steps, s := BadRun(c, arr, u, t);
    }
  }

  // ---- progress ----

  /** A user that waits although some node lacks its final message stays where it is for ever. */
  lemma {:induction false} StuckForever(c: Config, s: State, steps: seq<Step>, s2: State, u: nat, t: nat)
    requires Inv(c, s) && Path(c, s, steps, s2) && u < |c.home| && t < c.nodes
    requires s.net.users[u].phase == Rounds.Waiting && !s.net.users[u].finished[t]
    ensures Inv(c, s2) && s2.net.users[u].phase == Rounds.Waiting && s2.net.users[u].returned == s.net.users[u].returned
    decreases |steps|
  {
    if steps != [] {
      StepInv(c, s, steps[0]);
      WaiterUntouched(c, s, steps[0], u, t);
      StuckForever(c, Apply(c, s, steps[0]), steps[1..], s2, u, t);
    }
  }

  predicate Receiving(step: Step) {
    step.Deliver? || step.Report? || step.WakeArrives?
  }

  /** Receiving, reporting and waking change nothing about a user's call. */
  lemma WaiterWhileReceiving(c: Config, s: State, step: Step, u: nat)
    requires Inv(c, s) && Moves(c, s, step) && Receiving(step) && u < |c.home| && Shape(c, Apply(c, s, step))
    ensures Rounds.SameSending(s.net.users[u], Apply(c, s, step).net.users[u])
  {
    Rounds.ReceivingFrame(s.net, NetStep(c, s, step)[0], u);
  }

  /** A user that still owes a final message has no wake-up, and no step of its own to take. */
  lemma WaiterWhileActing(c: Config, s: State, step: Step, u: nat, t: nat)
    requires Inv(c, s) && Moves(c, s, step) && !Receiving(step) && u < |c.home| && t < c.nodes && Shape(c, Apply(c, s, step))
    requires s.net.users[u].phase == Rounds.Waiting && !s.net.users[u].finished[t]
    ensures Rounds.SameSending(s.net.users[u], Apply(c, s, step).net.users[u])
  {
    assert Rounds.UserOk(s.net.users[u], s.net.rounds) && UserInv(c, s.senders[u], s.net.users[u], u);
  }

  lemma WaiterUntouched(c: Config, s: State, step: Step, u: nat, t: nat)
    requires Inv(c, s) && Moves(c, s, step) && u < |c.home| && t < c.nodes && Shape(c, Apply(c, s, step))
    requires s.net.users[u].phase == Rounds.Waiting && !s.net.users[u].finished[t]
    ensures Rounds.SameSending(s.net.users[u], Apply(c, s, step).net.users[u])
  {
    if Receiving(step) {
      WaiterWhileReceiving(c, s, step, u);
    } else {
      WaiterWhileActing(c, s, step, u, t);
    }
  }

  /**
  No deadlock: if the guard holds for everybody and every user is inside a call, some step of the
  code (other than entering a new call) can be taken.
  */
  lemma NoDeadlock(c: Config, arr: seq<real>, steps: seq<Step>, s: State)
    requires Run(c, arr, steps, s) && Shape(c, s)
    requires forall u :: 0 <= u < |c.home| ==> Guard(c, u) && s.net.users[u].phase != Rounds.Idle
    ensures exists step: Step :: !step.Call? && Enabled(c, s, step)
  {
    InitCounts(c, arr);
    PathCounts(c, Init(c, arr), steps, s);
    if u: nat :| u < |c.home| && s.senders[u].pc != Out {
      SenderCanStep(c, s, u);
    } else if u: nat :| u < |c.home| && s.net.users[u].calls == s.net.rounds {
      WokenCanStep(c, s, u);
    } else {
      EverybodyWaits(c, s);
    }
  }

  /** A user in the middle of its send loop can go on. */
  lemma SenderCanStep(c: Config, s: State, u: nat)
    requires CountsOk(c, s) && u < |c.home| && s.senders[u].pc != Out
    ensures exists step: Step :: !step.Call? && Enabled(c, s, step)
  {
    assert UserInv(c, s.senders[u], s.net.users[u], u);
    var step := match s.senders[u].pc
      case Open(i) => if i < c.nodes then OpenNext(u) else SendOwn(u)
      case Head => Test(u)
      case Scan(_) => Skip(u);
    assert Enabled(c, s, step);
  }

  /** A user whose round is over has been woken, or is about to be. */
  lemma WokenCanStep(c: Config, s: State, u: nat)
    requires CountsOk(c, s) && u < |c.home| && s.senders[u].pc == Out
    requires s.net.users[u].calls == s.net.rounds && s.net.users[u].phase != Rounds.Idle
    ensures exists step: Step :: !step.Call? && Enabled(c, s, step)
  {
    assert UserInv(c, s.senders[u], s.net.users[u], u) && Rounds.UserOk(s.net.users[u], s.net.rounds);
    if s.net.users[u].wakes > 0 {
      assert Enabled(c, s, WakeArrives(u));
    } else {
      assert Enabled(c, s, Return(u));
    }
  }

  lemma WaiterFinished(c: Config, s: State, u: nat)
    requires CountsOk(c, s) && u < |c.home| && Guard(c, u) && s.senders[u].pc == Out
    requires s.net.users[u].phase != Rounds.Idle && s.net.users[u].calls != s.net.rounds
    ensures s.net.users[u].calls == s.net.rounds + 1 && forall n :: 0 <= n < c.nodes ==> s.net.users[u].finished[n]
  {
    GuardSendsAll(c, s, u);
    assert UserInv(c, s.senders[u], s.net.users[u], u) && Rounds.UserOk(s.net.users[u], s.net.rounds);
  }

  lemma EverybodyWaits(c: Config, s: State)
    requires CountsOk(c, s)
    requires forall u :: 0 <= u < |c.home| ==>
               Guard(c, u) && s.net.users[u].phase != Rounds.Idle && s.senders[u].pc == Out && s.net.users[u].calls != s.net.rounds
    ensures exists step: Step :: !step.Call? && Enabled(c, s, step)
  {
    forall u | 0 <= u < |c.home|
      ensures s.net.users[u].calls == s.net.rounds + 1
      ensures forall n :: 0 <= n < c.nodes ==> s.net.users[u].finished[n]
    {
      WaiterFinished(c, s, u);
    }
    Rounds.SomethingInFlight(s.net);
    if u: nat, n: nat :| u < |c.home| && n < c.nodes && s.net.users[u].chan[n] != [] {
      assert Enabled(c, s, Deliver(u, n));
    } else {
      var n :| 0 <= n < |s.net.nodes| && s.net.nodes[n].reports > 0;
      assert Enabled(c, s, Report(n));
    }
  }
}
