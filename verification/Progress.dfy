/**
Everybody returns. From every reachable state in which the guard holds and all users have entered the
same calls, some schedule without a new call takes every user out of its call; and only from those.
*/
module Progress {
  import opened Accumulator
  import opened AccumulatorTheorems
  import opened Counting
  import opened SendLoop
  import Rounds

  ghost predicate AllGuarded(c: Config) {
    Ok(c) && forall u :: 0 <= u < |c.home| ==> Guard(c, u)
  }

  /** All users have made k calls. */
  ghost predicate Rally(c: Config, s: State, k: nat) {
    AllGuarded(c) && CountsOk(c, s) && k > 0 && forall u :: 0 <= u < |c.home| ==> s.net.users[u].calls == k
  }

  /** A way from s to s2 without a new call. */
  ghost predicate Way(c: Config, tr: Trace, s: State, s2: State) {
    Follows(c, tr, s, s2) && CallFree(tr.steps)
  }

  lemma JoinWays(c: Config, a: Trace, b: Trace, s: State, s1: State, s2: State)
    requires Way(c, a, s, s1) && Way(c, b, s1, s2)
    ensures Way(c, Join(a, b), s, s2)
  {
    JoinFollows(c, a, b, s, s1, s2);
  }

  lemma OneStep(c: Config, s: State, step: Step, s2: State)
    requires Leads(c, s, step, s2) && !step.Call?
    ensures Way(c, Single(s, step, s2), s, s2)
  {
    SingleFollows(c, s, step, s2);
  }

  ghost function Here(s: State): Trace {
    Trace([s], [])
  }

  // ---- every user ends its send loop ----

  lemma SomebodyPending(c: Config, s: State, u: nat) returns (k: nat)
    requires Inside(c, s, u) && s.senders[u].pc == Head && s.senders[u].done < c.nodes
    ensures Pending(c, s, u, k)
  {
    var x := s.senders[u];
    assert DoneOk(c, x, s.net.users[u].calls, u) && UserInv(c, x, s.net.users[u], u);
    var b := Counted(c, x, u);
    var b' := b[c.home[u] := true];
    if !b[c.home[u]] {
      CountSet(b, c.home[u]);
    } else {
      assert b' == b;
    }
    CountFull(b');
    k :| 0 <= k < c.nodes && !b'[k];
    assert CursorOk(c, x, k);
  }

  lemma LoopEnds(c: Config, s: State, u: nat) returns (tr: Trace, s2: State)
    requires Inside(c, s, u) && s.senders[u].pc == Head
    ensures Goes(c, tr, s, s2, u) && s2.senders[u].pc == Out
    decreases Left(c, s.senders[u], c.nodes)
  {
    if s.senders[u].done >= c.nodes {
      s2 := OwnStep(c, s, u, Test(u));
      tr := Single(s, Test(u), s2);
    } else {
      var k := SomebodyPending(c, s, u);
      var pass, s1, _ := PassSendingTo(c, s, u, k);
      var rest, s3 := LoopEnds(c, s1, u);
      JoinGoes(c, pass, rest, s, s1, s3, u);
      tr, s2 := Join(pass, rest), s3;
    }
  }

  /** From anywhere in its call a user can come to wait. */
  lemma ComesToWait(c: Config, s: State, u: nat) returns (tr: Trace, s2: State)
    requires Inside(c, s, u) && s.senders[u].pc != Out
    ensures Goes(c, tr, s, s2, u) && s2.senders[u].pc == Out
  {
    assert UserInv(c, s.senders[u], s.net.users[u], u);
    if s.senders[u].pc == Head {
      tr, s2 := LoopEnds(c, s, u);
    } else {
      var first, sh;
      if s.senders[u].pc.Open? {
        first, sh := OpenToHead(c, s, u);
      } else {
        first, sh := SkipsToHead(c, s, u);
      }
      var rest;
      rest, s2 := LoopEnds(c, sh, u);
      JoinGoes(c, first, rest, s, sh, s2, u);
      tr := Join(first, rest);
    }
  }

  /** The first n users are out of their loops. */
  ghost predicate OutUpTo(s: State, n: nat) {
    n <= |s.senders| && forall u :: 0 <= u < n ==> s.senders[u].pc == Out
  }

  lemma NextComesToWait(c: Config, s: State, k: nat, n: nat) returns (tr: Trace, s2: State)
    requires Rally(c, s, k) && OutUpTo(s, n) && n < |c.home|
    ensures Way(c, tr, s, s2) && Rally(c, s2, k) && OutUpTo(s2, n + 1)
  {
    if s.senders[n].pc == Out {
      tr, s2 := Here(s), s;
    } else {
      assert UserInv(c, s.senders[n], s.net.users[n], n);
      tr, s2 := ComesToWait(c, s, n);
    }
  }

  lemma {:induction false} AllComeToWait(c: Config, s: State, k: nat, n: nat) returns (tr: Trace, s2: State)
    requires Rally(c, s, k) && n <= |c.home|
    ensures Way(c, tr, s, s2) && Rally(c, s2, k) && OutUpTo(s2, n)
  {
    if n == 0 {
      tr, s2 := Here(s), s;
    } else {
      var first, s1 := AllComeToWait(c, s, k, n - 1);
      var rest;
      rest, s2 := NextComesToWait(c, s1, k, n - 1);
      JoinWays(c, first, rest, s, s1, s2);
      tr := Join(first, rest);
    }
  }

  // ---- everything on its way arrives ----

  /** All users have made k calls and are out of their loops. */
  ghost predicate Waits(c: Config, s: State, k: nat) {
    Rally(c, s, k) && OutUpTo(s, |c.home|)
  }

  predicate NoMessage(s: State, u: nat, n: nat)
    requires u < |s.net.users| && n < |s.net.users[u].chan|
  {
    s.net.users[u].chan[n] == []
  }

  /** Empty queues stay empty. */
  ghost predicate StillEmpty(c: Config, s: State, s2: State) {
    && Shape(c, s) && Shape(c, s2)
    && forall u, n {:trigger NoMessage(s2, u, n)} :: 0 <= u < |c.home| && 0 <= n < c.nodes && NoMessage(s, u, n) ==> NoMessage(s2, u, n)
  }

  lemma ArrivesBeside(c: Config, s: State, step: Step, u: nat)
    requires Inv(c, s) && Moves(c, s, step) && Receiving(step) && Shape(c, Apply(c, s, step)) && u < |c.home|
    ensures Apply(c, s, step).net.users[u].calls == s.net.users[u].calls && Apply(c, s, step).senders[u] == s.senders[u]
    ensures forall n :: 0 <= n < c.nodes && NoMessage(s, u, n) ==> NoMessage(Apply(c, s, step), u, n)
  {
    Rounds.ReceivingFrame(s.net, NetStep(c, s, step)[0], u);
  }

  /** A step of the network: nobody's call is touched, and no queue is filled. */
  lemma Arrives(c: Config, s: State, k: nat, step: Step) returns (s2: State)
    requires Waits(c, s, k) && Enabled(c, s, step) && Receiving(step)
    ensures Leads(c, s, step, s2) && Way(c, Single(s, step, s2), s, s2) && Waits(c, s2, k) && StillEmpty(c, s, s2)
  {
    StepsAreReady(c, s, step);
    CountsStep(c, s, step);
    s2 := Apply(c, s, step);
    OneStep(c, s, step, s2);
    forall u | 0 <= u < |c.home|
      ensures s2.net.users[u].calls == k && s2.senders[u].pc == Out
      ensures forall n :: 0 <= n < c.nodes && NoMessage(s, u, n) ==> NoMessage(s2, u, n)
    {
      ArrivesBeside(c, s, step, u);
    }
  }

  lemma {:induction false} DrainQueue(c: Config, s: State, k: nat, u: nat, n: nat) returns (tr: Trace, s2: State)
    requires Waits(c, s, k) && u < |c.home| && n < c.nodes
    ensures Way(c, tr, s, s2) && Waits(c, s2, k) && StillEmpty(c, s, s2) && NoMessage(s2, u, n)
    decreases |s.net.users[u].chan[n]|
  {
    if NoMessage(s, u, n) {
      tr, s2 := Here(s), s;
    } else {
      var s1 := Arrives(c, s, k, Deliver(u, n));
      Rounds.ReceivingFrame(s.net, Rounds.Deliver(u, n), u);
      var rest;
      rest, s2 := DrainQueue(c, s1, k, u, n);
      JoinWays(c, Single(s, Deliver(u, n), s1), rest, s, s1, s2);
      tr := Join(Single(s, Deliver(u, n), s1), rest);
    }
  }

  /** User u's queues to the nodes below n are empty. */
  ghost predicate Drained(c: Config, s: State, u: nat, n: nat) {
    Shape(c, s) && u < |c.home| && n <= c.nodes && forall m {:trigger NoMessage(s, u, m)} :: 0 <= m < n ==> NoMessage(s, u, m)
  }

  lemma {:induction false} DrainUser(c: Config, s: State, k: nat, u: nat, n: nat) returns (tr: Trace, s2: State)
    requires Waits(c, s, k) && u < |c.home| && n <= c.nodes
    ensures Way(c, tr, s, s2) && Waits(c, s2, k) && StillEmpty(c, s, s2) && Drained(c, s2, u, n)
  {
    if n == 0 {
      tr, s2 := Here(s), s;
    } else {
      var first, s1 := DrainUser(c, s, k, u, n - 1);
      var rest;
      rest, s2 := DrainQueue(c, s1, k, u, n - 1);
      JoinWays(c, first, rest, s, s1, s2);
      tr := Join(first, rest);
      OneQueueMore(c, s1, s2, u, n - 1);
    }
  }

  lemma OneQueueMore(c: Config, s: State, s2: State, u: nat, n: nat)
    requires Drained(c, s, u, n) && StillEmpty(c, s, s2) && n < c.nodes && NoMessage(s2, u, n)
    ensures Drained(c, s2, u, n + 1)
  {
    forall m | 0 <= m < n ensures NoMessage(s2, u, m) {
      assert NoMessage(s, u, m);
    }
  }

  /** All queues of the users below u are empty. */
  ghost predicate DrainedUpTo(c: Config, s: State, u: nat) {
    u <= |c.home| && forall v :: 0 <= v < u ==> Drained(c, s, v, c.nodes)
  }

  lemma {:induction false} DrainAll(c: Config, s: State, k: nat, u: nat) returns (tr: Trace, s2: State)
    requires Waits(c, s, k) && u <= |c.home|
    ensures Way(c, tr, s, s2) && Waits(c, s2, k) && StillEmpty(c, s, s2) && DrainedUpTo(c, s2, u)
  {
    if u == 0 {
      tr, s2 := Here(s), s;
    } else {
      var first, s1 := DrainAll(c, s, k, u - 1);
      var rest;
      rest, s2 := DrainUser(c, s1, k, u - 1, c.nodes);
      JoinWays(c, first, rest, s, s1, s2);
      tr := Join(first, rest);
      DrainedMore(c, s1, s2, u - 1);
    }
  }

  lemma DrainedMore(c: Config, s: State, s2: State, u: nat)
    requires DrainedUpTo(c, s, u) && StillEmpty(c, s, s2) && Drained(c, s2, u, c.nodes)
    ensures DrainedUpTo(c, s2, u + 1)
  {
    forall v | 0 <= v < u ensures Drained(c, s2, v, c.nodes) {
      StaysDrained(c, s, s2, v);
    }
  }

  lemma StaysDrained(c: Config, s: State, s2: State, u: nat)
    requires Drained(c, s, u, c.nodes) && StillEmpty(c, s, s2)
    ensures Drained(c, s2, u, c.nodes)
  {
    forall m | 0 <= m < c.nodes ensures NoMessage(s2, u, m) {
      assert NoMessage(s, u, m);
    }
  }

  lemma AllStayDrained(c: Config, s: State, s2: State)
    requires DrainedUpTo(c, s, |c.home|) && StillEmpty(c, s, s2)
    ensures DrainedUpTo(c, s2, |c.home|)
  {
    forall v | 0 <= v < |c.home| ensures Drained(c, s2, v, c.nodes) {
      StaysDrained(c, s, s2, v);
    }
  }

  /** No report from a node below n is on its way. */
  ghost predicate NoReport(s: State, n: nat) {
    n <= |s.net.nodes| && forall m :: 0 <= m < n ==> s.net.nodes[m].reports == 0
  }

  lemma ReportsOnce(c: Config, s: State, k: nat, n: nat) returns (s2: State)
    requires Waits(c, s, k) && n < c.nodes && NoReport(s, n) && s.net.nodes[n].reports > 0
    ensures Leads(c, s, Report(n), s2) && Way(c, Single(s, Report(n), s2), s, s2)
    ensures Waits(c, s2, k) && StillEmpty(c, s, s2) && NoReport(s2, n + 1)
  {
    assert Rounds.NodeOk(s.net, n);
    s2 := Arrives(c, s, k, Report(n));
  }

  lemma {:induction false} AllReport(c: Config, s: State, k: nat, n: nat) returns (tr: Trace, s2: State)
    requires Waits(c, s, k) && n <= c.nodes && DrainedUpTo(c, s, |c.home|)
    ensures Way(c, tr, s, s2) && Waits(c, s2, k) && DrainedUpTo(c, s2, |c.home|) && NoReport(s2, n)
  {
    if n == 0 {
      tr, s2 := Here(s), s;
    } else {
      var first, s1 := AllReport(c, s, k, n - 1);
      if s1.net.nodes[n - 1].reports == 0 {
        tr, s2 := first, s1;
      } else {
        s2 := ReportsOnce(c, s1, k, n - 1);
        AllStayDrained(c, s1, s2);
        JoinWays(c, first, Single(s1, Report(n - 1), s2), s, s1, s2);
        tr := Join(first, Single(s1, Report(n - 1), s2));
      }
    }
  }

  /** With nothing on its way the round is over. */
  lemma RoundIsOver(c: Config, s: State, k: nat)
    requires Waits(c, s, k) && DrainedUpTo(c, s, |c.home|) && NoReport(s, c.nodes)
    ensures s.net.rounds == k
  {
    forall u, n | 0 <= u < |c.home| && 0 <= n < c.nodes ensures s.net.users[u].chan[n] == [] {
      assert Drained(c, s, u, c.nodes) && NoMessage(s, u, n);
    }
    if s.net.rounds != k {
      forall u | 0 <= u < |c.home|
        ensures s.net.users[u].calls == s.net.rounds + 1
        ensures forall n :: 0 <= n < c.nodes ==> s.net.users[u].finished[n]
      {
        assert Rounds.UserOk(s.net.users[u], s.net.rounds);
        WaiterFinished(c, s, u);
      }
      Rounds.SomethingInFlight(s.net);
    }
  }

  /** The round of all users' latest calls can be brought to its end. */
  lemma RoundCanEnd(c: Config, s: State, k: nat) returns (tr: Trace, s2: State)
    requires Rally(c, s, k)
    ensures Way(c, tr, s, s2) && Waits(c, s2, k) && s2.net.rounds == k
  {
    var a, s1 := AllComeToWait(c, s, k, |c.home|);
    var b, sd := DrainAll(c, s1, k, |c.home|);
    var d;
    d, s2 := AllReport(c, sd, k, c.nodes);
    RoundIsOver(c, s2, k);
    JoinWays(c, a, b, s, s1, sd);
    JoinWays(c, Join(a, b), d, s, sd, s2);
    tr := Join(Join(a, b), d);
  }

  // ---- everybody is woken and returns ----

  /** The users below n have returned. */
  ghost predicate BackUpTo(s: State, n: nat) {
    n <= |s.net.users| && forall u :: 0 <= u < n ==> s.net.users[u].phase == Rounds.Idle
  }

  /** The last of user u's steps: its event is set. */
  lemma Returns(c: Config, s: State, k: nat, u: nat) returns (s2: State)
    requires Waits(c, s, k) && s.net.rounds == k && u < |c.home| && BackUpTo(s, u)
    requires s.net.users[u].phase == Rounds.Waiting && s.net.users[u].event
    ensures Leads(c, s, Return(u), s2) && Way(c, Single(s, Return(u), s2), s, s2)
    ensures Waits(c, s2, k) && s2.net.rounds == k && BackUpTo(s2, u + 1)
  {
    StepsAreReady(c, s, Return(u));
    s2 := Apply(c, s, Return(u));
    CountsStep(c, s, Return(u));
    OneStep(c, s, Return(u), s2);
  }

  lemma IsWoken(c: Config, s: State, k: nat, u: nat) returns (s2: State)
    requires Waits(c, s, k) && s.net.rounds == k && u < |c.home| && BackUpTo(s, u)
    requires s.net.users[u].phase == Rounds.Waiting && s.net.users[u].wakes > 0
    ensures Leads(c, s, WakeArrives(u), s2) && Way(c, Single(s, WakeArrives(u), s2), s, s2)
    ensures Waits(c, s2, k) && s2.net.rounds == k && BackUpTo(s2, u)
    ensures s2.net.users[u].phase == Rounds.Waiting && s2.net.users[u].event
  {
    s2 := Arrives(c, s, k, WakeArrives(u));
    assert s2.net.users == s.net.users[u := s.net.users[u].(wakes := s.net.users[u].wakes - 1, event := true)];
  }

  /** A user whose round is over returns. */
  lemma GetsOut(c: Config, s: State, k: nat, u: nat) returns (tr: Trace, s2: State)
    requires Waits(c, s, k) && s.net.rounds == k && u < |c.home| && BackUpTo(s, u)
    ensures Way(c, tr, s, s2) && Waits(c, s2, k) && s2.net.rounds == k && BackUpTo(s2, u + 1)
  {
    assert UserInv(c, s.senders[u], s.net.users[u], u) && Rounds.UserOk(s.net.users[u], s.net.rounds);
    if s.net.users[u].phase == Rounds.Idle {
      tr, s2 := Here(s), s;
    } else if s.net.users[u].wakes == 0 {
      s2 := Returns(c, s, k, u);
      tr := Single(s, Return(u), s2);
    } else {
      var s1 := IsWoken(c, s, k, u);
      s2 := Returns(c, s1, k, u);
      JoinWays(c, Single(s, WakeArrives(u), s1), Single(s1, Return(u), s2), s, s1, s2);
      tr := Join(Single(s, WakeArrives(u), s1), Single(s1, Return(u), s2));
    }
  }

  lemma {:induction false} AllGetOut(c: Config, s: State, k: nat, n: nat) returns (tr: Trace, s2: State)
    requires Waits(c, s, k) && s.net.rounds == k && n <= |c.home|
    ensures Way(c, tr, s, s2) && Waits(c, s2, k) && s2.net.rounds == k && BackUpTo(s2, n)
  {
    if n == 0 {
      tr, s2 := Here(s), s;
    } else {
      var first, s1 := AllGetOut(c, s, k, n - 1);
      var rest;
      rest, s2 := GetsOut(c, s1, k, n - 1);
      JoinWays(c, first, rest, s, s1, s2);
      tr := Join(first, rest);
    }
  }

  /** Every user has returned from all its calls. */
  ghost predicate AllBack(c: Config, s: State) {
    Shape(c, s) && forall u :: 0 <= u < |c.home| ==> s.net.users[u].phase == Rounds.Idle
  }

  lemma RallyReturns(c: Config, s: State, k: nat) returns (tr: Trace, s2: State)
    requires Rally(c, s, k)
    ensures Way(c, tr, s, s2) && CountsOk(c, s2) && AllBack(c, s2)
    ensures forall u :: 0 <= u < |c.home| ==> s2.net.users[u].returned == k
  {
    var a, s1 := RoundCanEnd(c, s, k);
    var b;
    b, s2 := AllGetOut(c, s1, k, |c.home|);
    JoinWays(c, a, b, s, s1, s2);
    tr := Join(a, b);
    forall u | 0 <= u < |c.home| ensures s2.net.users[u].returned == k {
      assert Rounds.UserOk(s2.net.users[u], s2.net.rounds);
    }
  }

  // ---- exactly when all can return ----

  lemma {:induction false} CallsStay(c: Config, s: State, steps: seq<Step>, s2: State, u: nat)
    requires Inv(c, s) && Path(c, s, steps, s2) && CallFree(steps) && u < |c.home|
    ensures Inv(c, s2) && s2.net.users[u].calls == s.net.users[u].calls
    decreases |steps|
  {
    if steps != [] {
      assert !steps[0].Call?;
      StepInv(c, s, steps[0]);
      CallsStayHere(c, s, steps[0], u);
      CallsStay(c, Apply(c, s, steps[0]), steps[1..], s2, u);
    }
  }

  lemma CallsStayHere(c: Config, s: State, step: Step, u: nat)
    requires Inv(c, s) && Moves(c, s, step) && !step.Call? && u < |c.home| && Inv(c, Apply(c, s, step))
    ensures Apply(c, s, step).net.users[u].calls == s.net.users[u].calls
  {
    if Receiving(step) {
      Rounds.ReceivingFrame(s.net, NetStep(c, s, step)[0], u);
    } else if !step.Return? {
      OwnBeside(c, s, step.u, step);
    }
  }

  /** Steps other than new calls lead from s to a state in which every user has returned. */
  ghost predicate CanAllReturn(c: Config, s: State) {
    exists more, s2 :: Path(c, s, more, s2) && CallFree(more) && AllBack(c, s2)
  }

  ghost predicate SameCalls(c: Config, s: State)
    requires Shape(c, s)
  {
    forall u, v :: 0 <= u < |c.home| && 0 <= v < |c.home| ==> s.net.users[u].calls == s.net.users[v].calls
  }

  lemma SameCallsReturn(c: Config, s: State)
    requires CountsOk(c, s) && AllGuarded(c) && SameCalls(c, s)
    ensures CanAllReturn(c, s)
  {
    var k := s.net.users[0].calls;
    if k == 0 {
      forall u | 0 <= u < |c.home| ensures s.net.users[u].phase == Rounds.Idle {
        assert Rounds.UserOk(s.net.users[u], s.net.rounds);
      }
      assert Path(c, s, [], s) && CallFree([]) && AllBack(c, s);
    } else {
      var tr, s2 := RallyReturns(c, s, k);
      TraceIsPath(c, tr, s, s2);
    }
  }

  /**
  No livelock. From a reachable state of a guarded configuration all users can return without anybody
  making a new call, if and only if all have made the same number of calls.
  */
  lemma EverybodyReturns(c: Config, arr: seq<real>, steps: seq<Step>, s: State)
    requires Run(c, arr, steps, s) && Shape(c, s) && AllGuarded(c)
    ensures CanAllReturn(c, s) <==> SameCalls(c, s)
  {
    InitCounts(c, arr);
    PathCounts(c, Init(c, arr), steps, s);
    if SameCalls(c, s) {
      SameCallsReturn(c, s);
    }
    if CanAllReturn(c, s) {
      var more, s2 :| Path(c, s, more, s2) && CallFree(more) && AllBack(c, s2);
      forall u | 0 <= u < |c.home| ensures s.net.users[u].calls == s2.net.rounds {
        CallsStay(c, s, more, s2, u);
        assert Rounds.UserOk(s2.net.users[u], s2.net.rounds);
      }
    }
  }

  // ---- exactly when one user can return ----

  ghost predicate CanReturn(c: Config, s: State, u: nat) {
    exists more, s2 :: Path(c, s, more, s2) && CallFree(more) && Back(c, s2, u)
  }

  ghost predicate Back(c: Config, s: State, u: nat) {
    Shape(c, s) && u < |c.home| && s.net.users[u].phase == Rounds.Idle
  }

  /** A waiting user whose round is over: the wake-up arrives, if it has not yet, and the user returns. */
  lemma WaiterReturns(c: Config, s: State, u: nat) returns (tr: Trace, s2: State)
    requires CountsOk(c, s) && u < |c.home| && s.net.users[u].phase == Rounds.Waiting && s.net.users[u].calls == s.net.rounds
    ensures Way(c, tr, s, s2) && Back(c, s2, u)
    decreases s.net.users[u].wakes
  {
    assert Rounds.UserOk(s.net.users[u], s.net.rounds);
    var step := if s.net.users[u].wakes == 0 then Return(u) else WakeArrives(u);
    StepsAreReady(c, s, step);
    CountsStep(c, s, step);
    var s1 := Apply(c, s, step);
    OneStep(c, s, step, s1);
    if step.Return? {
      tr, s2 := Single(s, step, s1), s1;
    } else {
      var rest;
      rest, s2 := WaiterReturns(c, s1, u);
      JoinWays(c, Single(s, step, s1), rest, s, s1, s2);
      tr := Join(Single(s, step, s1), rest);
    }
  }

  lemma LateReturns(c: Config, s: State, u: nat) returns (tr: Trace, s2: State)
    requires CountsOk(c, s) && u < |c.home| && s.net.users[u].calls == s.net.rounds
    ensures Way(c, tr, s, s2) && Back(c, s2, u)
  {
    assert UserInv(c, s.senders[u], s.net.users[u], u) && Rounds.UserOk(s.net.users[u], s.net.rounds);
    if s.net.users[u].phase == Rounds.Idle {
      tr, s2 := Here(s), s;
    } else if s.senders[u].pc == Out {
      tr, s2 := WaiterReturns(c, s, u);
    } else {
      var first, s1 := ComesToWait(c, s, u);
      assert UserInv(c, s1.senders[u], s1.net.users[u], u);
      var rest;
      rest, s2 := WaiterReturns(c, s1, u);
      JoinWays(c, first, rest, s, s1, s2);
      tr := Join(first, rest);
    }
  }

  /**
  Nobody waits in vain. In every reachable state of a guarded configuration user u can get out of its
  call without anybody making a new call, if and only if nobody is behind u.
  */
  lemma UserReturns(c: Config, arr: seq<real>, steps: seq<Step>, s: State, u: nat)
    requires Run(c, arr, steps, s) && Shape(c, s) && AllGuarded(c) && u < |c.home|
    ensures CanReturn(c, s, u) <==> forall v :: 0 <= v < |c.home| ==> s.net.users[u].calls <= s.net.users[v].calls
  {
    InitCounts(c, arr);
    PathCounts(c, Init(c, arr), steps, s);
    if forall v :: 0 <= v < |c.home| ==> s.net.users[u].calls <= s.net.users[v].calls {
      NobodyBehind(c, s, u);
    }
    if CanReturn(c, s, u) {
      var more, s2 :| Path(c, s, more, s2) && CallFree(more) && Back(c, s2, u);
      CallsStay(c, s, more, s2, u);
      assert Rounds.UserOk(s2.net.users[u], s2.net.rounds);
      forall v | 0 <= v < |c.home| ensures s.net.users[u].calls <= s.net.users[v].calls {
        CallsStay(c, s, more, s2, v);
        assert Rounds.UserOk(s2.net.users[v], s2.net.rounds);
      }
    }
  }

  lemma NobodyBehind(c: Config, s: State, u: nat)
    requires CountsOk(c, s) && AllGuarded(c) && u < |c.home|
    requires forall v :: 0 <= v < |c.home| ==> s.net.users[u].calls <= s.net.users[v].calls
    ensures CanReturn(c, s, u)
  {
    forall v | 0 <= v < |c.home| ensures s.net.rounds <= s.net.users[v].calls <= s.net.rounds + 1 {
      assert Rounds.UserOk(s.net.users[v], s.net.rounds);
    }
    if s.net.users[u].calls == s.net.rounds {
      var tr, s2 := LateReturns(c, s, u);
      TraceIsPath(c, tr, s, s2);
    } else {
      SameCallsReturn(c, s);
      var more, s2 :| Path(c, s, more, s2) && CallFree(more) && AllBack(c, s2);
      assert Back(c, s2, u);
    }
  }
}
