/**
The loop of module Sender is a user of the step system of module Accumulator: what it does up to the wait
is a sequence of that user's own steps, and afterwards the user has sent to each node what the loop has.
*/
module SenderSteps {
  import opened Accumulator
  import opened AccumulatorTheorems
  import opened Chunks
  import opened SendLoop
  import S = Sender
  import Rounds

  /** The job of user u's call in state s. */
  ghost predicate Task(j: S.Job, c: Config, u: nat) {
    && Ok(c) && S.Ok(j) && u < |c.home|
    && j.nodes == c.nodes && j.self == c.home[u] && j.dsm == c.dsm && j.threshold == c.threshold
    && j.start == c.start && j.end == c.end
  }

  /** The messages of one node's log as the step system writes them. */
  function Parts(log: seq<S.Sent>): (r: seq<Part>)
    ensures |r| == |log|
  {
    seq(|log|, i requires 0 <= i < |log| => Part(log[i].off, log[i].payload))
  }

  lemma PartsAppend(log: seq<S.Sent>, m: S.Sent)
    ensures Parts(log + [m]) == Parts(log) + [Part(m.off, m.payload)]
  {
  }

  /** User u, inside a call with the job's vector. */
  ghost predicate Doing(j: S.Job, c: Config, s: State, u: nat) {
    Task(j, c, u) && Inside(c, s, u) && Vec(c, s, u) == j.vec
  }

  /** For node k, user u's cursor and messages are those of the mark. */
  ghost predicate Agrees(s: State, u: nat, m: S.Mark, k: nat)
    requires u < |s.senders| && u < |s.net.users| && k < |s.senders[u].cursor| && k < |s.net.users[u].sent| && k < |m.idx| && k < |m.log|
  {
    s.senders[u].cursor[k] == m.idx[k] && s.net.users[u].sent[k] == Parts(m.log[k])
  }

  /** In the middle of the pass from m to m': the nodes below i are done. */
  ghost predicate Between(j: S.Job, c: Config, s: State, u: nat, m: S.Mark, m': S.Mark, i: nat) {
    && Doing(j, c, s, u) && S.MarkOk(j, m) && S.MarkOk(j, m')
    && forall k {:trigger Agrees(s, u, m, k)} {:trigger Agrees(s, u, m', k)} :: 0 <= k < c.nodes ==>
         if k < i then Agrees(s, u, m', k) else Agrees(s, u, m, k)
  }

  /** The user is where the loop is at its test. */
  ghost predicate AtMark(j: S.Job, c: Config, s: State, u: nat, m: S.Mark) {
    Between(j, c, s, u, m, m, 0) && s.senders[u].pc == Head
  }

  /** Both count the same. */
  lemma SameDone(j: S.Job, c: Config, s: State, u: nat, m: S.Mark)
    requires AtMark(j, c, s, u, m)
    ensures s.senders[u].done == m.done && s.senders[u].cursor == m.idx
  {
    assert DoneOk(c, s.senders[u], s.net.users[u].calls, u);
    forall k | 0 <= k < c.nodes ensures s.senders[u].cursor[k] == m.idx[k] {
      assert Agrees(s, u, m, k);
    }
    assert Counted(c, s.senders[u], u) == S.Counted(j, m.idx);
  }

  // ---- one pass ----

  /** Which chunk the pass has sent to node k. */
  lemma ChunkWas(j: S.Job, m: S.Mark, m': S.Mark, k: nat) returns (sparse: bool, x: S.Sent)
    requires S.MarkOk(j, m) && S.MarkOk(j, m') && k < j.nodes && S.MayScan(j, m, m', k)
    requires m'.log[k] != m.log[k]
    ensures k != j.self && m.idx[k] < j.end[k]
    ensures m'.log[k] == m.log[k] + [x] && x.off == m.idx[k] && m'.idx[k] == x.off + x.advance
    ensures IsCut(j, k, sparse, x)
  {
    assert S.LogOk(j, k, m.log[k], m.idx[k]) && S.LogOk(j, k, m'.log[k], m'.idx[k]);
    x := m'.log[k][|m.log[k]|];
    assert m'.log[k][|m'.log[k]| - 1] == x;
    assert S.Built(j, j.end[k], x);
    sparse :| Chunk(x.advance, x.bytes, x.payload) == NextChunk(j.vec, sparse, j.threshold, x.off, j.end[k], j.dsm);
  }

  /** x is the chunk for node k that the builder cuts at x's offset. */
  predicate IsCut(j: S.Job, k: nat, sparse: bool, x: S.Sent)
    requires S.Ok(j) && k < j.nodes
  {
    && S.Built(j, j.end[k], x)
    && Chunk(x.advance, x.bytes, x.payload) == NextChunk(j.vec, sparse, j.threshold, x.off, j.end[k], j.dsm)
  }

  lemma NothingSent(j: S.Job, m: S.Mark, m': S.Mark, k: nat)
    requires S.MarkOk(j, m) && S.MarkOk(j, m') && k < j.nodes && S.MayScan(j, m, m', k) && m'.log[k] == m.log[k]
    ensures m'.idx[k] == m.idx[k]
  {
  }

  /** A node that the pass sends nothing to. */
  lemma SkipsNode(j: S.Job, c: Config, s: State, u: nat, m: S.Mark, m': S.Mark, i: nat) returns (s2: State)
    requires Between(j, c, s, u, m, m', i) && s.senders[u].pc == Scan(i) && i < c.nodes
    requires S.MayScan(j, m, m', i) && m'.log[i] == m.log[i]
    ensures Goes(c, Single(s, Skip(u), s2), s, s2, u) && Between(j, c, s2, u, m, m', i + 1) && s2.senders[u].pc == Scan(i + 1)
  {
    assert Agrees(s, u, m, i);
    NothingSent(j, m, m', i);
    s2 := OwnStep(c, s, u, Skip(u));
    StillBetween(j, c, s, s2, u, m, m', i);
  }

  /** The next chunk for node i is the one the step system cuts. */
  lemma SameCut(j: S.Job, c: Config, s: State, u: nat, i: nat, sparse: bool, x: S.Sent)
    requires Doing(j, c, s, u) && s.senders[u].pc == Scan(i) && i < c.nodes && i != c.home[u]
    requires x.off == s.senders[u].cursor[i] < c.end[i] && IsCut(j, i, sparse, x)
    ensures Pending(c, s, u, i) && CursorOk(c, s.senders[u], i)
    ensures Cut(c, s, u, i, sparse) == Chunk(x.advance, x.bytes, x.payload)
  {
    assert UserInv(c, s.senders[u], s.net.users[u], u);
  }

  /** ... so sending it, in the mode the pass has chosen, is a step. */
  lemma SendsNode(j: S.Job, c: Config, s: State, u: nat, i: nat, sparse: bool, x: S.Sent) returns (s2: State)
    requires Doing(j, c, s, u) && s.senders[u].pc == Scan(i) && i < c.nodes && i != c.home[u]
    requires x.off == s.senders[u].cursor[i] < c.end[i] && IsCut(j, i, sparse, x)
    ensures Goes(c, Single(s, SendChunk(u, sparse), s2), s, s2, u) && s2.senders[u].pc == Scan(i + 1)
    ensures s2.senders[u].cursor == s.senders[u].cursor[i := x.off + x.advance]
    ensures s2.net.users[u].sent == s.net.users[u].sent[i := s.net.users[u].sent[i] + [Part(x.off, x.payload)]]
  {
    SameCut(j, c, s, u, i, sparse, x);
    s2 := SendsTo(c, s, u, i, sparse);
  }

  lemma SendsAsPassed(j: S.Job, c: Config, s: State, u: nat, m: S.Mark, m': S.Mark, i: nat) returns (step: Step, s2: State)
    requires Between(j, c, s, u, m, m', i) && s.senders[u].pc == Scan(i) && i < c.nodes
    requires S.MayScan(j, m, m', i) && m'.log[i] != m.log[i]
    ensures Goes(c, Single(s, step, s2), s, s2, u) && Between(j, c, s2, u, m, m', i + 1) && s2.senders[u].pc == Scan(i + 1)
  {
    assert Agrees(s, u, m, i);
    var sparse, x := ChunkWas(j, m, m', i);
    step := SendChunk(u, sparse);
    s2 := SendsNode(j, c, s, u, i, sparse, x);
    PartsAppend(m.log[i], x);
    StillBetween(j, c, s, s2, u, m, m', i);
  }

  /** The pass at node i. */
  lemma ScanIsStep(j: S.Job, c: Config, s: State, u: nat, m: S.Mark, m': S.Mark, i: nat) returns (step: Step, s2: State)
    requires Between(j, c, s, u, m, m', i) && S.Passed(j, m, m') && s.senders[u].pc == Scan(i) && i < c.nodes
    ensures Goes(c, Single(s, step, s2), s, s2, u) && Between(j, c, s2, u, m, m', i + 1) && s2.senders[u].pc == Scan(i + 1)
  {
    assert S.MayScan(j, m, m', i);
    if m'.log[i] == m.log[i] {
      step := Skip(u);
      s2 := SkipsNode(j, c, s, u, m, m', i);
    } else {
      step, s2 := SendsAsPassed(j, c, s, u, m, m', i);
    }
  }

  lemma StillBetween(j: S.Job, c: Config, s: State, s2: State, u: nat, m: S.Mark, m': S.Mark, i: nat)
    requires Between(j, c, s, u, m, m', i) && i < c.nodes && Inside(c, s2, u) && Beside(s, s2, u)
    requires s2.senders[u].cursor == s.senders[u].cursor[i := m'.idx[i]]
    requires s2.net.users[u].sent == s.net.users[u].sent[i := Parts(m'.log[i])]
    ensures Between(j, c, s2, u, m, m', i + 1)
  {
    forall k | 0 <= k < c.nodes ensures if k < i + 1 then Agrees(s2, u, m', k) else Agrees(s2, u, m, k) {
      assert if k < i then Agrees(s, u, m', k) else Agrees(s, u, m, k);
    }
  }

  /** The rest of the pass, from node i on. */
  lemma {:induction false} PassIsPath(j: S.Job, c: Config, s: State, u: nat, m: S.Mark, m': S.Mark, i: nat) returns (tr: Trace, s2: State)
    requires Between(j, c, s, u, m, m', i) && S.Passed(j, m, m') && s.senders[u].pc == Scan(i) && i <= c.nodes
    ensures Goes(c, tr, s, s2, u) && AtMark(j, c, s2, u, m')
    decreases c.nodes - i
  {
    if i == c.nodes {
      s2 := OwnStep(c, s, u, Skip(u));
      tr := Single(s, Skip(u), s2);
      PassEnds(j, c, s, s2, u, m, m');
    } else {
      var step, s1 := ScanIsStep(j, c, s, u, m, m', i);
      var rest;
      rest, s2 := PassIsPath(j, c, s1, u, m, m', i + 1);
      tr := PrependGoes(c, s, step, s1, rest, s2, u);
    }
  }

  lemma PassEnds(j: S.Job, c: Config, s: State, s2: State, u: nat, m: S.Mark, m': S.Mark)
    requires Between(j, c, s, u, m, m', c.nodes) && Inside(c, s2, u) && Beside(s, s2, u) && s2.senders[u].pc == Head
    requires s2.senders[u].cursor == s.senders[u].cursor && s2.net.users[u].sent == s.net.users[u].sent
    ensures AtMark(j, c, s2, u, m')
  {
    forall k | 0 <= k < c.nodes ensures Agrees(s2, u, m', k) {
      assert Agrees(s, u, m', k);
    }
  }

  /** From one mark to the next. */
  lemma MarkToMark(j: S.Job, c: Config, s: State, u: nat, m: S.Mark, m': S.Mark) returns (tr: Trace, s2: State)
    requires AtMark(j, c, s, u, m) && S.MarkOk(j, m') && S.Passed(j, m, m')
    ensures Goes(c, tr, s, s2, u) && AtMark(j, c, s2, u, m')
  {
    SameDone(j, c, s, u, m);
    var s1 := OwnStep(c, s, u, Test(u));
    forall k | 0 <= k < c.nodes ensures Agrees(s1, u, m, k) {
      assert Agrees(s, u, m, k);
    }
    var rest;
    rest, s2 := PassIsPath(j, c, s1, u, m, m', 0);
    tr := PrependGoes(c, s, Test(u), s1, rest, s2, u);
  }

  // ---- the whole call ----

  lemma NextMark(j: S.Job, marks: seq<S.Mark>, p: nat)
    requires S.Marks(j, marks) && 0 < p < |marks|
    ensures S.MarkOk(j, marks[p - 1]) && S.MarkOk(j, marks[p]) && S.Passed(j, marks[p - 1], marks[p])
  {
    assert S.Linked(j, marks, p);
  }

  /** One mark further. */
  lemma Further(j: S.Job, c: Config, s: State, first: Trace, s1: State, u: nat, m: S.Mark, m': S.Mark) returns (tr: Trace, s2: State)
    requires Goes(c, first, s, s1, u) && AtMark(j, c, s1, u, m) && S.MarkOk(j, m') && S.Passed(j, m, m')
    ensures Goes(c, tr, s, s2, u) && AtMark(j, c, s2, u, m')
  {
    var rest;
    rest, s2 := MarkToMark(j, c, s1, u, m, m');
    JoinGoes(c, first, rest, s, s1, s2, u);
    tr := Join(first, rest);
  }

  lemma {:induction false} ReachMark(j: S.Job, c: Config, s: State, u: nat, marks: seq<S.Mark>, p: nat) returns (tr: Trace, s2: State)
    requires S.Marks(j, marks) && p < |marks| && AtMark(j, c, s, u, marks[0])
    ensures Goes(c, tr, s, s2, u) && AtMark(j, c, s2, u, marks[p])
  {
    if p == 0 {
      s2 := s;
      tr := Stays(c, s, u);
    } else {
      var first, s1 := ReachMark(j, c, s, u, marks, p - 1);
      NextMark(j, marks, p);
      tr, s2 := Further(j, c, s, first, s1, u, marks[p - 1], marks[p]);
    }
  }

  /** The message for the own node is the same on both sides. */
  lemma OwnIs(j: S.Job, c: Config, s: State, u: nat)
    requires Doing(j, c, s, u)
    ensures Parts([S.Own(j)]) == [OwnMessage(c, s, u)]
  {
    assert S.SegmentOk(j, j.self);
  }

  lemma OpenedIsMark(j: S.Job, c: Config, s: State, s2: State, u: nat, m: S.Mark)
    requires Doing(j, c, s, u) && Inside(c, s2, u) && Beside(s, s2, u) && s2.senders[u].pc == Head && S.MarkOk(j, m)
    requires s2.senders[u].cursor == c.start[c.home[u] := c.end[c.home[u]]] && m.idx == s2.senders[u].cursor
    requires forall k :: 0 <= k < c.nodes ==> s.net.users[u].sent[k] == []
    requires var sent := SentOpening(c, s.net.users[u].sent, u, 0);
             s2.net.users[u].sent == sent[c.home[u] := sent[c.home[u]] + [OwnMessage(c, s, u)]]
    requires forall k {:trigger m.log[k]} :: 0 <= k < j.nodes ==>
               m.log[k] == if k == j.self then [S.Own(j)] else if S.Empty(j, k) then [S.Sent(0, 0, 0, Dense([]), true)] else []
    ensures AtMark(j, c, s2, u, m)
  {
    OwnIs(j, c, s, u);
    assert Parts([S.Sent(0, 0, 0, Dense([]), true)]) == [Part(0, Dense([]))] && Parts([]) == [];
    forall k | 0 <= k < c.nodes ensures Agrees(s2, u, m, k) {
      assert m.log[k] == if k == j.self then [S.Own(j)] else if S.Empty(j, k) then [S.Sent(0, 0, 0, Dense([]), true)] else [];
    }
  }

  /** Entering the call and opening the segments. */
  lemma ReachLoop(j: S.Job, c: Config, s: State, u: nat, marks: seq<S.Mark>) returns (s1: State, tr: Trace, s2: State)
    requires CountsOk(c, s) && Task(j, c, u) && s.net.users[u].phase == Rounds.Idle && j.vec == c.input(u, s.net.users[u].calls)
    requires S.Marks(j, marks)
    ensures Leads(c, s, Call(u), s1) && Goes(c, tr, s1, s2, u) && AtMark(j, c, s2, u, marks[0])
  {
    s1 := CallStep(c, s, u);
    tr, s2 := OpenToHead(c, s1, u);
    assert S.Linked(j, marks, 0);
    OpenedIsMark(j, c, s1, s2, u, marks[0]);
  }

  /** What user u has put on the queues and where it stands: what the loop has sent, waiting if it is over. */
  ghost predicate HasSent(c: Config, s: State, u: nat, m: S.Mark) {
    && Inside(c, s, u) && |m.idx| == |m.log| == c.nodes && s.senders[u].cursor == m.idx
    && (forall k {:trigger m.log[k]} :: 0 <= k < c.nodes ==> s.net.users[u].sent[k] == Parts(m.log[k]))
    && s.senders[u].pc == if m.done >= c.nodes then Out else Head
  }

  lemma Stands(j: S.Job, c: Config, s: State, u: nat, m: S.Mark)
    requires AtMark(j, c, s, u, m) && m.done < c.nodes
    ensures HasSent(c, s, u, m)
  {
    SameDone(j, c, s, u, m);
    forall k | 0 <= k < c.nodes ensures s.net.users[u].sent[k] == Parts(m.log[k]) {
      assert Agrees(s, u, m, k);
    }
  }

  /** The loop's condition fails: the user waits. */
  lemma LeavesLoop(j: S.Job, c: Config, s: State, u: nat, m: S.Mark) returns (s2: State)
    requires AtMark(j, c, s, u, m) && m.done >= c.nodes
    ensures Goes(c, Single(s, Test(u), s2), s, s2, u) && HasSent(c, s2, u, m)
  {
    SameDone(j, c, s, u, m);
    s2 := OwnStep(c, s, u, Test(u));
    forall k | 0 <= k < c.nodes ensures s2.net.users[u].sent[k] == Parts(m.log[k]) {
      assert Agrees(s, u, m, k);
    }
  }

  /** The loop, from its first mark to its last and out if its condition fails. */
  lemma LoopIsPath(j: S.Job, c: Config, s: State, u: nat, marks: seq<S.Mark>) returns (tr: Trace, s2: State)
    requires S.Marks(j, marks) && AtMark(j, c, s, u, marks[0])
    ensures Goes(c, tr, s, s2, u) && HasSent(c, s2, u, marks[|marks| - 1])
  {
    var m := marks[|marks| - 1];
    var loop, sl := ReachMark(j, c, s, u, marks, |marks| - 1);
    if m.done < c.nodes {
      Stands(j, c, sl, u, m);
      tr, s2 := loop, sl;
    } else {
      s2 := LeavesLoop(j, c, sl, u, m);
      JoinGoes(c, loop, Single(sl, Test(u), s2), s, sl, s2, u);
      tr := Join(loop, Single(sl, Test(u), s2));
    }
  }

  /**
  Whatever the sockets and the choice of modes: from any reachable state in which the user is idle, its call
  and then its own steps lead to a state in which it has sent each node exactly the loop's log.
  */
  lemma SendVectorIsPath(j: S.Job, c: Config, arr: seq<real>, before: seq<Step>, s: State, u: nat, marks: seq<S.Mark>)
    returns (rest: Trace, s1: State, s2: State)
    requires Run(c, arr, before, s) && Shape(c, s) && Task(j, c, u)
    requires s.net.users[u].phase == Rounds.Idle && j.vec == c.input(u, s.net.users[u].calls)
    requires S.Marks(j, marks)
    ensures Leads(c, s, Call(u), s1) && Goes(c, rest, s1, s2, u) && HasSent(c, s2, u, marks[|marks| - 1])
  {
    InitCounts(c, arr);
    PathCounts(c, Init(c, arr), before, s);
    var open, sh;
    s1, open, sh := ReachLoop(j, c, s, u, marks);
    var loop;
    loop, s2 := LoopIsPath(j, c, sh, u, marks);
    JoinGoes(c, open, loop, s1, sh, s2, u);
    rest := Join(open, loop);
  }
}
