/**
The shared array from round to round. What an element holds after r flushes depends on its start value,
the users' vectors and the fates of the flushes only, not on the schedule; and if the guard of the send
loop holds, every round is reached. Together they say when given vectors are summed right; module EverySum
says when all are.
*/
module RoundValues {
  import opened Accumulator
  import opened AccumulatorTheorems
  import opened Fates
  import opened Progress
  import opened SendLoop
  import opened Sums
  import Rounds

  /** Element e after its owner's first r flushes. */
  ghost function Value(c: Config, arr: seq<real>, r: nat, e: nat): real
    requires Ok(c) && e < c.len == |arr|
  {
    if r == 0 then arr[e] else AfterFlush(c.fate(r - 1, e), Value(c, arr, r - 1, e), Sum(Inputs(c, r - 1, e)))
  }

  // ---- the array holds these values ----

  ghost predicate HoldsValue(c: Config, arr: seq<real>, s: State, e: nat)
    requires Shape(c, s) && e < c.len == |arr|
  {
    s.arr[e] == Value(c, arr, s.net.nodes[c.owner[e]].flushes, e)
  }

  lemma FlushBehindCalls(c: Config, s: State, n: nat, v: nat)
    requires Inv(c, s) && n < c.nodes && v < |c.home|
    ensures s.net.nodes[n].flushes <= s.net.users[v].calls
  {
    assert Rounds.UserOk(s.net.users[v], s.net.rounds) && Rounds.NodeOk(s.net, n);
    if s.net.nodes[n].flushes != s.net.rounds {
      assert Rounds.Arrived(s.net, v, n);
    }
  }

  lemma NextValue(c: Config, arr: seq<real>, s: State, f: nat, e: nat)
    requires Inv(c, s) && c.threshold <= 0.0 && e < c.len == |arr|
    requires s.net.nodes[c.owner[e]].flushes == f + 1 && s.before[e] == Value(c, arr, f, e)
    ensures HoldsValue(c, arr, s, e)
  {
    forall v | 0 <= v < |c.home| ensures f < s.net.users[v].calls {
      FlushBehindCalls(c, s, c.owner[e], v);
    }
    EffsAreInputs(c, s, f, e);
    assert ArrOk(c, s, c.owner[e]) && InSegment(c, c.owner[e], e);
  }

  /** The flush that writes element e turns its value into the next one. */
  lemma ValueFlushed(c: Config, arr: seq<real>, s: State, u: nat, e: nat)
    requires Inv(c, s) && c.threshold <= 0.0 && e < c.len == |arr| && HoldsValue(c, arr, s, e)
    requires Moves(c, s, Deliver(u, c.owner[e])) && Flushes(s, u, c.owner[e]) && Inv(c, Apply(c, s, Deliver(u, c.owner[e])))
    ensures HoldsValue(c, arr, Apply(c, s, Deliver(u, c.owner[e])), e)
  {
    var n := c.owner[e];
    assert InSegment(c, n, e);
    Rounds.HistoryFrame(s.net, Rounds.Deliver(u, n), n);
    FlushWrites(c, s, u, n);
    NextValue(c, arr, Apply(c, s, Deliver(u, n)), s.net.nodes[n].flushes, e);
  }

  lemma ValueStep(c: Config, arr: seq<real>, s: State, step: Step, e: nat)
    requires Inv(c, s) && c.threshold <= 0.0 && e < c.len == |arr| && HoldsValue(c, arr, s, e)
    requires Moves(c, s, step) && Inv(c, Apply(c, s, step))
    ensures HoldsValue(c, arr, Apply(c, s, step), e)
  {
    var n := c.owner[e];
    if step.Deliver? && step.n == n && Flushes(s, step.u, n) {
      ValueFlushed(c, arr, s, step.u, e);
    } else {
      ValueRests(c, s, step, e);
    }
  }

  lemma ValueRests(c: Config, s: State, step: Step, e: nat)
    requires Inv(c, s) && e < c.len && Moves(c, s, step) && Inv(c, Apply(c, s, step))
    requires !(step.Deliver? && step.n == c.owner[e] && Flushes(s, step.u, c.owner[e]))
    ensures Apply(c, s, step).arr[e] == s.arr[e]
    ensures Apply(c, s, step).net.nodes[c.owner[e]].flushes == s.net.nodes[c.owner[e]].flushes
  {
    if NetStep(c, s, step) != [] {
      Rounds.HistoryFrame(s.net, NetStep(c, s, step)[0], c.owner[e]);
    }
    if step.Deliver? {
      FlushWrites(c, s, step.u, step.n);
      assert InSegment(c, c.owner[e], e);
    }
  }

  lemma {:induction false} PathValue(c: Config, arr: seq<real>, s: State, steps: seq<Step>, s2: State, e: nat)
    requires Inv(c, s) && c.threshold <= 0.0 && e < c.len == |arr| && HoldsValue(c, arr, s, e) && Path(c, s, steps, s2)
    ensures Inv(c, s2) && HoldsValue(c, arr, s2, e)
    decreases |steps|
  {
    if steps != [] {
      StepInv(c, s, steps[0]);
      ValueStep(c, arr, s, steps[0], e);
      PathValue(c, arr, Apply(c, s, steps[0]), steps[1..], s2, e);
    }
  }

  /**
  The result does not depend on the schedule. In every run, once a user has returned from its round-r
  call and until every user has called again, each element has its value of round r.
  */
  lemma ArrayIsValue(c: Config, arr: seq<real>, steps: seq<Step>, s: State, u: nat, w: nat, r: nat, e: nat)
    requires Run(c, arr, steps, s) && c.threshold <= 0.0 && Settled(c, s, u, w, r) && e < c.len
    ensures s.arr[e] == Value(c, arr, r + 1, e)
  {
    InitInv(c, arr);
    PathValue(c, arr, Init(c, arr), steps, s, e);
    SettledArray(c, s, u, w, r, e);
  }

  // ---- every round is reached ----

  /** The users below n have made k + 1 calls; the others k, and are out of them. */
  ghost predicate Calling(c: Config, s: State, k: nat, n: nat) {
    && CountsOk(c, s) && n <= |c.home|
    && (forall u :: 0 <= u < n ==> s.net.users[u].calls == k + 1)
    && forall u :: n <= u < |c.home| ==> s.net.users[u].calls == k && s.net.users[u].phase == Rounds.Idle
  }

  lemma {:induction false} AllCall(c: Config, s: State, k: nat, n: nat) returns (tr: Trace, s2: State)
    requires Calling(c, s, k, 0) && n <= |c.home|
    ensures Follows(c, tr, s, s2) && Calling(c, s2, k, n)
  {
    if n == 0 {
      tr, s2 := Here(s), s;
    } else {
      var first, s1 := AllCall(c, s, k, n - 1);
      s2 := CallStep(c, s1, n - 1);
      SingleFollows(c, s1, Call(n - 1), s2);
      JoinFollows(c, first, Single(s1, Call(n - 1), s2), s, s1, s2);
      tr := Join(first, Single(s1, Call(n - 1), s2));
    }
  }

  /** One round more. */
  lemma NextRound(c: Config, s: State, k: nat) returns (tr: Trace, s2: State)
    requires AllGuarded(c) && Calling(c, s, k, 0)
    ensures Follows(c, tr, s, s2) && Calling(c, s2, k + 1, 0)
  {
    var first, s1 := AllCall(c, s, k, |c.home|);
    var rest;
    rest, s2 := RallyReturns(c, s1, k + 1);
    JoinFollows(c, first, rest, s, s1, s2);
    tr := Join(first, rest);
    forall u | 0 <= u < |c.home| ensures s2.net.users[u].calls == k + 1 {
      assert Rounds.UserOk(s2.net.users[u], s2.net.rounds);
    }
  }

  lemma {:induction false} ReachRound(c: Config, arr: seq<real>, k: nat) returns (tr: Trace, s: State)
    requires AllGuarded(c) && |arr| == c.len
    ensures Follows(c, tr, Init(c, arr), s) && Calling(c, s, k, 0)
  {
    if k == 0 {
      InitCounts(c, arr);
      tr, s := Here(Init(c, arr)), Init(c, arr);
    } else {
      var first, s1 := ReachRound(c, arr, k - 1);
      var rest;
      rest, s := NextRound(c, s1, k - 1);
      JoinFollows(c, first, rest, Init(c, arr), s1, s);
      tr := Join(first, rest);
    }
  }

  lemma RoundHappens(c: Config, arr: seq<real>, r: nat) returns (steps: seq<Step>, s: State)
    requires AllGuarded(c) && |arr| == c.len
    ensures Run(c, arr, steps, s) && Settled(c, s, 0, 0, r)
  {
    var tr;
    tr, s := ReachRound(c, arr, r + 1);
    steps := tr.steps;
    TraceIsPath(c, tr, Init(c, arr), s);
    assert Rounds.UserOk(s.net.users[0], s.net.rounds);
  }

  // ---- when all sums are right ----

  /** In every run the shared array holds the sum after every round, until all users have called again. */
  ghost predicate AlwaysSum(c: Config, arr: seq<real>) {
    forall steps, s, u, w, r :: Run(c, arr, steps, s) && Settled(c, s, u, w, r) ==> HoldsSum(c, s, r)
  }

  /** No flush fails to store an element that needed storing. */
  ghost predicate NoneLost(c: Config, arr: seq<real>)
    requires Ok(c) && c.len == |arr|
  {
    forall r: nat, e: nat {:trigger c.fate(r, e)} :: e < c.len ==>
      Harmless(c.fate(r, e), Value(c, arr, r, e), Sum(Inputs(c, r, e)))
  }

  /** A flush that loses an element it should have stored shows: a run ends with a wrong sum. */
  lemma LossShows(c: Config, arr: seq<real>, r: nat, e: nat) returns (steps: seq<Step>, s: State)
    requires AllGuarded(c) && |arr| == c.len && c.threshold <= 0.0 && e < c.len
    requires !Harmless(c.fate(r, e), Value(c, arr, r, e), Sum(Inputs(c, r, e)))
    ensures Run(c, arr, steps, s) && Settled(c, s, 0, 0, r) && s.arr[e] != Sum(Inputs(c, r, e)) && !HoldsSum(c, s, r)
  {
    steps, s := RoundHappens(c, arr, r);
    ArrayIsValue(c, arr, steps, s, 0, 0, r, e);
  }

  /**
  For given vectors. With the guard and without a threshold, every run leaves their sum in the shared array
  after every round if and only if each flush of each element stores it or comes to leave its value there.
  */
  lemma AlwaysSumIff(c: Config, arr: seq<real>)
    requires AllGuarded(c) && |arr| == c.len && c.threshold <= 0.0
    ensures AlwaysSum(c, arr) <==> NoneLost(c, arr)
  {
    if NoneLost(c, arr) {
      forall steps, s, u, w, r | Run(c, arr, steps, s) && Settled(c, s, u, w, r) ensures HoldsSum(c, s, r) {
        forall e: nat | e < c.len ensures s.arr[e] == Sum(Inputs(c, r, e)) {
          ArrayIsValue(c, arr, steps, s, u, w, r, e);
          assert Harmless(c.fate(r, e), Value(c, arr, r, e), Sum(Inputs(c, r, e)));
        }
      }
    } else {
      var r: nat, e: nat :| e < c.len && !Harmless(c.fate(r, e), Value(c, arr, r, e), Sum(Inputs(c, r, e)));
      var steps, s := LossShows(c, arr, r, e);
    }
  }
}
