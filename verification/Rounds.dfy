/**
The round protocol shared by the accumulator and by map-reduce.

Every user sends messages to every node; its final message to a node carries its thread id
(`last`). A node that has received `num_users` final messages flushes, reports to the master and
starts over. The master collects one report per node, then wakes everybody on its wait list.

The model is a step system: one FIFO per user and node, each node's `val`, reports in flight, the
master's `done_node_cnt` and wait list, wake-ups in flight and each user's wake event. It does not
look inside payloads. A user's messages to its own node use a FIFO as well: the source delivers
them at once, which is one of the interleavings here.
*/
module Rounds {
  import opened Counting

  datatype Msg<P> = Msg(last: bool, payload: P)

  datatype Phase = Idle | Calling | Waiting

  /** `calls`, `returned`, `sent` and `seen` are histories; the last two are of the latest call. */
  datatype User<P> = User(
    phase: Phase,
    event: bool,                // the thread's remote event
    wakes: nat,                 // wake-ups on their way to this user
    chan: seq<seq<Msg<P>>>,     // per node: messages not yet received
    finished: seq<bool>,        // per node: the message with the thread id has been sent
    calls: nat,
    returned: nat,
    sent: seq<seq<P>>,
    seen: seq<seq<P>>)

  /** `flushes` is a history: how often the node has seen all users finish. */
  datatype Node = Node(val: nat, reports: nat, flushes: nat)

  /** `rounds` is a history: how often the master has woken everybody. */
  datatype State<P> = State(
    users: seq<User<P>>,
    nodes: seq<Node>,
    doneCnt: nat,
    waitlist: seq<nat>,
    rounds: nat)

  datatype Step<P> =
    | Call(u: nat)                                      // enter the call, RcResetRemoteEvent
    | Send(u: nat, n: nat, payload: P, last: bool)
    | EndSend(u: nat)                                   // start RcWaitForRemoteEvent
    | Deliver(u: nat, n: nat)                           // AcAccumulateMsg
    | Report(n: nat)                                    // AcAccumulatePartialDoneMsg on the master
    | WakeArrives(u: nat)                               // RcSetRemoteEvent
    | Return(u: nat)

  // ---- the two handlers ----

  /** What a final message does to a node: the new `val` and whether the node flushes. */
  function CountFinal(val: nat, users: nat): (nat, bool) {
    if val + 1 >= users then (0, true) else (val + 1, false)
  }

  /** What one report does to the master: the new count, the new wait list and who is woken. */
  function CountReport<W>(doneCnt: nat, waitlist: seq<W>, nodes: nat): (nat, seq<W>, seq<W>) {
    if doneCnt + 1 >= nodes then (0, [], waitlist) else (doneCnt + 1, waitlist, [])
  }

  // ---- steps ----

  ghost function Init<P>(users: nat, nodes: nat): State<P> {
    var none := seq(nodes, _ => []);
    State(seq(users, _ => User(Idle, false, 0, none, seq(nodes, _ => false), 0, 0, seq(nodes, _ => []), seq(nodes, _ => []))),
          seq(nodes, _ => Node(0, 0, 0)), 0, [], 0)
  }

  ghost predicate Shape<P>(s: State<P>) {
    && |s.users| > 0 && |s.nodes| > 0
    && forall u :: 0 <= u < |s.users| ==> UserShape(s.users[u], |s.nodes|)
  }

  ghost predicate UserShape<P>(x: User<P>, nodes: nat) {
    |x.chan| == |x.finished| == |x.sent| == |x.seen| == nodes
  }

  ghost predicate Enabled<P>(s: State<P>, step: Step<P>)
    requires Shape(s)
  {
    match step
    case Call(u) => u < |s.users| && s.users[u].phase == Idle
    case Send(u, n, _, _) =>
      u < |s.users| && n < |s.nodes| && s.users[u].phase == Calling && !s.users[u].finished[n]
    case EndSend(u) => u < |s.users| && s.users[u].phase == Calling
    case Deliver(u, n) => u < |s.users| && n < |s.nodes| && s.users[u].chan[n] != []
    case Report(n) => n < |s.nodes| && s.nodes[n].reports > 0
    case WakeArrives(u) => u < |s.users| && s.users[u].wakes > 0
    case Return(u) => u < |s.users| && s.users[u].phase == Waiting && s.users[u].event
  }

  ghost function Apply<P>(s: State<P>, step: Step<P>): State<P>
    requires Shape(s) && Enabled(s, step)
  {
    match step
    case Call(u) =>
      var k := |s.nodes|;
      s.(users := s.users[u := s.users[u].(phase := Calling, event := false, calls := s.users[u].calls + 1,
                                           finished := seq(k, _ => false), sent := seq(k, _ => []), seen := seq(k, _ => []))])
    case Send(u, n, p, last) =>
      var x := s.users[u];
      s.(users := s.users[u := x.(chan := x.chan[n := x.chan[n] + [Msg(last, p)]],
                                  finished := x.finished[n := last],
                                  sent := x.sent[n := x.sent[n] + [p]])])
    case EndSend(u) => s.(users := s.users[u := s.users[u].(phase := Waiting)])
    case Deliver(u, n) =>
      var s' := s.(users := s.users[u := Popped(s.users[u], n)]);
      if s.users[u].chan[n][0].last then Finish(s', u, n) else s'
    case Report(n) =>
      AtMaster(s.(nodes := s.nodes[n := s.nodes[n].(reports := s.nodes[n].reports - 1)]))
    case WakeArrives(u) =>
      s.(users := s.users[u := s.users[u].(wakes := s.users[u].wakes - 1, event := true)])
    case Return(u) => s.(users := s.users[u := s.users[u].(phase := Idle, returned := s.users[u].returned + 1)])
  }

  ghost function Popped<P>(x: User<P>, n: nat): User<P>
    requires n < |x.chan| && n < |x.seen| && x.chan[n] != []
  {
    x.(chan := x.chan[n := x.chan[n][1..]], seen := x.seen[n := x.seen[n] + [x.chan[n][0].payload]])
  }

  /** The `if (thread_id)` part of AcAccumulateMsg at node n. */
  ghost function Finish<P>(s: State<P>, u: nat, n: nat): State<P>
    requires Shape(s) && u < |s.users| && n < |s.nodes|
  {
    var node := s.nodes[n];
    var (val, flush) := CountFinal(node.val, |s.users|);
    var s1 := s.(waitlist := if n == 0 then s.waitlist + [u] else s.waitlist);
    if !flush then s1.(nodes := s.nodes[n := node.(val := val)])
    else if n == 0 then AtMaster(s1.(nodes := s.nodes[n := node.(val := val, flushes := node.flushes + 1)]))
    else s1.(nodes := s.nodes[n := Node(val, node.reports + 1, node.flushes + 1)])
  }

  /** AcAccumulatePartialDoneMsg. */
  ghost function AtMaster<P>(s: State<P>): State<P> {
    var (done, waiting, woken) := CountReport(s.doneCnt, s.waitlist, |s.nodes|);
    s.(doneCnt := done, waitlist := waiting, users := Wake(s.users, woken),
       rounds := if s.doneCnt + 1 >= |s.nodes| then s.rounds + 1 else s.rounds)
  }

  /** One RcWakeRemoteThread per entry of the list. */
  ghost function Wake<P>(users: seq<User<P>>, woken: seq<nat>): (r: seq<User<P>>)
    ensures |r| == |users|
  {
    seq(|users|, u requires 0 <= u < |users| => users[u].(wakes := users[u].wakes + multiset(woken)[u]))
  }

  // ---- the invariant ----

  ghost predicate Arrived<P>(s: State<P>, u: nat, n: nat)
    requires Shape(s) && u < |s.users| && n < |s.nodes|
  {
    s.users[u].calls == s.rounds + 1 && s.users[u].finished[n] && s.users[u].chan[n] == []
  }

  ghost function Arrivals<P>(s: State<P>, n: nat): seq<bool>
    requires Shape(s) && n < |s.nodes|
  {
    seq(|s.users|, u requires 0 <= u < |s.users| => Arrived(s, u, n))
  }

  ghost function Payloads<P>(q: seq<Msg<P>>): seq<P> {
    seq(|q|, i requires 0 <= i < |q| => q[i].payload)
  }

  /** FIFO bookkeeping; only the final message carries the thread id. */
  ghost predicate ChanOk<P>(x: User<P>, n: nat)
    requires n < |x.chan| && UserShape(x, |x.chan|)
  {
    && x.seen[n] + Payloads(x.chan[n]) == x.sent[n]
    && forall i :: 0 <= i < |x.chan[n]| ==> (x.chan[n][i].last <==> x.finished[n] && i == |x.chan[n]| - 1)
  }

  /** Where a user stands relative to the master's round counter. */
  ghost predicate UserOk<P>(x: User<P>, rounds: nat) {
    && rounds <= x.calls <= rounds + 1
    && x.calls == x.returned + (if x.phase == Idle then 0 else 1)
    && x.wakes + (if x.event && x.phase != Idle then 1 else 0) == rounds - (if x.returned < rounds then x.returned else rounds)
    && (x.calls == rounds + 1 ==> x.phase != Idle)
    && (x.calls == rounds ==> forall n :: 0 <= n < |x.chan| ==> x.chan[n] == [])
    && (x.calls == rounds && x.phase != Idle ==> forall n :: 0 <= n < |x.finished| ==> x.finished[n])
  }

  ghost predicate NodeOk<P>(s: State<P>, n: nat)
    requires Shape(s) && n < |s.nodes|
  {
    var node := s.nodes[n];
    if node.flushes == s.rounds then
      node.reports == 0 && node.val == Count(Arrivals(s, n)) < |s.users|
    else
      && node.flushes == s.rounds + 1 && node.val == 0 && node.reports <= 1
      && (n == 0 ==> node.reports == 0)
      && forall u :: 0 <= u < |s.users| ==> Arrived(s, u, n)
  }

  ghost function Reported<P>(s: State<P>): seq<bool> {
    seq(|s.nodes|, n requires 0 <= n < |s.nodes| => s.nodes[n].flushes == s.rounds + 1 && s.nodes[n].reports == 0)
  }

  ghost predicate MasterOk<P>(s: State<P>)
    requires Shape(s)
  {
    && s.doneCnt == Count(Reported(s)) < |s.nodes|
    && forall u: nat :: multiset(s.waitlist)[u] == if u < |s.users| && Arrived(s, u, 0) then 1 else 0
  }

  ghost predicate Inv<P>(s: State<P>) {
    && Shape(s)
    && (forall u {:trigger UserOk(s.users[u], s.rounds)} :: 0 <= u < |s.users| ==> UserOk(s.users[u], s.rounds))
    && (forall u, n {:trigger ChanOk(s.users[u], n)} :: 0 <= u < |s.users| && 0 <= n < |s.nodes| ==> ChanOk(s.users[u], n))
    && (forall n {:trigger NodeOk(s, n)} :: 0 <= n < |s.nodes| ==> NodeOk(s, n))
    && MasterOk(s)
  }

  // ---- preservation ----

  lemma InitInv<P>(users: nat, nodes: nat)
    requires users > 0 && nodes > 0
    ensures Inv(Init<P>(users, nodes))
  {
    var s := Init<P>(users, nodes);
    CountNone(Reported(s));
    forall n | 0 <= n < nodes ensures Count(Arrivals(s, n)) == 0 {
      CountNone(Arrivals(s, n));
    }
  }

  /** A step that leaves nodes, master and arrivals alone only has to keep the user it touches in order. */
  lemma UserStepInv<P>(s: State<P>, u: nat, x: User<P>)
    requires Inv(s) && u < |s.users|
    requires UserShape(x, |s.nodes|) && UserOk(x, s.rounds)
    requires forall n :: 0 <= n < |s.nodes| ==> ChanOk(x, n)
    requires forall n :: 0 <= n < |s.nodes| ==>
               (Arrived(s, u, n) <==> x.calls == s.rounds + 1 && x.finished[n] && x.chan[n] == [])
    ensures Inv(s.(users := s.users[u := x]))
  {
    var s' := s.(users := s.users[u := x]);
    assert Shape(s');
    forall n | 0 <= n < |s.nodes| ensures Arrivals(s', n) == Arrivals(s, n) && NodeOk(s', n) {
      forall w | 0 <= w < |s.users| ensures Arrived(s', w, n) == Arrived(s, w, n) {
      }
      assert Arrivals(s', n) == Arrivals(s, n);
      assert NodeOk(s, n);
    }
    assert Reported(s') == Reported(s);
  }

  lemma CallInv<P>(s: State<P>, u: nat)
    requires Inv(s) && Enabled(s, Call(u))
    ensures Inv(Apply(s, Call(u)))
  {
    var k := |s.nodes|;
    assert UserOk(s.users[u], s.rounds);
    UserStepInv(s, u, s.users[u].(phase := Calling, event := false, calls := s.users[u].calls + 1,
                                  finished := seq(k, _ => false), sent := seq(k, _ => []), seen := seq(k, _ => [])));
  }

  lemma SendInv<P>(s: State<P>, u: nat, n: nat, p: P, last: bool)
    requires Inv(s) && Enabled(s, Send(u, n, p, last))
    ensures Inv(Apply(s, Send(u, n, p, last)))
  {
    var x := s.users[u];
    var x' := x.(chan := x.chan[n := x.chan[n] + [Msg(last, p)]],
                 finished := x.finished[n := last],
                 sent := x.sent[n := x.sent[n] + [p]]);
    assert Payloads(x'.chan[n]) == Payloads(x.chan[n]) + [p];
    assert UserOk(x, s.rounds);
    assert x.calls == s.rounds + 1;
    forall m | 0 <= m < |s.nodes| ensures ChanOk(x', m) {
      assert ChanOk(x, m);
    }
    UserStepInv(s, u, x');
  }

  /** A step that only touches a user's phase, event, wake-ups or return count. */
  lemma FlagStepInv<P>(s: State<P>, u: nat, x: User<P>)
    requires Inv(s) && u < |s.users| && UserOk(x, s.rounds) && x.calls == s.users[u].calls
    requires x.chan == s.users[u].chan && x.finished == s.users[u].finished
    requires x.sent == s.users[u].sent && x.seen == s.users[u].seen
    ensures Inv(s.(users := s.users[u := x]))
  {
    forall n | 0 <= n < |s.nodes| ensures ChanOk(x, n) {
      assert ChanOk(s.users[u], n);
    }
    UserStepInv(s, u, x);
  }

  lemma EndSendInv<P>(s: State<P>, u: nat)
    requires Inv(s) && Enabled(s, EndSend(u))
    ensures Inv(Apply(s, EndSend(u)))
  {
    assert UserOk(s.users[u], s.rounds);
    FlagStepInv(s, u, s.users[u].(phase := Waiting));
  }

  lemma WakeArrivesInv<P>(s: State<P>, u: nat)
    requires Inv(s) && Enabled(s, WakeArrives(u))
    ensures Inv(Apply(s, WakeArrives(u)))
  {
    assert UserOk(s.users[u], s.rounds);
    FlagStepInv(s, u, s.users[u].(wakes := s.users[u].wakes - 1, event := true));
  }

  lemma ReturnInv<P>(s: State<P>, u: nat)
    requires Inv(s) && Enabled(s, Return(u))
    ensures Inv(Apply(s, Return(u)))
  {
    assert UserOk(s.users[u], s.rounds);
    FlagStepInv(s, u, s.users[u].(phase := Idle, returned := s.users[u].returned + 1));
  }

  lemma PoppedOk<P>(x: User<P>, n: nat, m: nat)
    requires UserShape(x, |x.chan|) && n < |x.chan| && m < |x.chan| && x.chan[n] != []
    requires ChanOk(x, n) && ChanOk(x, m)
    ensures ChanOk(Popped(x, n), m)
  {
    var q := x.chan[n];
    assert Payloads(q) == [q[0].payload] + Payloads(q[1..]);
    assert x.seen[n] + ([q[0].payload] + Payloads(q[1..])) == x.seen[n] + [q[0].payload] + Payloads(q[1..]);
  }

  /** Receiving a message without a thread id. */
  lemma DeliverDataInv<P>(s: State<P>, u: nat, n: nat)
    requires Inv(s) && Enabled(s, Deliver(u, n)) && !s.users[u].chan[n][0].last
    ensures Inv(Apply(s, Deliver(u, n)))
  {
    var x := s.users[u];
    var x' := Popped(x, n);
    assert UserOk(x, s.rounds);
    assert ChanOk(x, n);
    forall m | 0 <= m < |s.nodes| ensures ChanOk(x', m) {
      assert ChanOk(x, m);
      PoppedOk(x, n, m);
    }
    UserStepInv(s, u, x');
  }

  // ---- final messages, reports and the end of a round ----

  /** Arrivals are a matter of the users and the round counter only. */
  lemma SameArrivals<P>(s: State<P>, s': State<P>, m: nat)
    requires Shape(s) && s'.users == s.users && s'.rounds == s.rounds && |s'.nodes| == |s.nodes| && m < |s.nodes|
    ensures Arrivals(s', m) == Arrivals(s, m)
    ensures forall u :: 0 <= u < |s.users| ==> Arrived(s', u, m) == Arrived(s, u, m)
    ensures s'.nodes[m] == s.nodes[m] && NodeOk(s, m) ==> NodeOk(s', m)
  {
    forall u | 0 <= u < |s.users| ensures Arrived(s', u, m) == Arrived(s, u, m) {
    }
    assert Arrivals(s', m) == Arrivals(s, m);
    if s'.nodes[m] == s.nodes[m] && NodeOk(s, m) && s.nodes[m].flushes != s.rounds {
      forall u | 0 <= u < |s.users| ensures Arrived(s', u, m) {
        assert Arrived(s, u, m);
      }
    }
  }

  /**
  The master's invariant while one report is on its way through AcAccumulatePartialDoneMsg: node n
  has flushed and its report is no longer in flight, but `done_node_cnt` does not count it yet.
  */
  ghost predicate Handing<P>(s: State<P>, n: nat) {
    && Shape(s) && n < |s.nodes|
    && (forall u :: 0 <= u < |s.users| ==> UserOk(s.users[u], s.rounds))
    && (forall u, m :: 0 <= u < |s.users| && 0 <= m < |s.nodes| ==> ChanOk(s.users[u], m))
    && (forall m :: 0 <= m < |s.nodes| ==> NodeOk(s, m))
    && s.nodes[n].flushes == s.rounds + 1 && s.nodes[n].reports == 0
    && s.doneCnt + 1 == Count(Reported(s))
    && forall u: nat :: multiset(s.waitlist)[u] == if u < |s.users| && Arrived(s, u, 0) then 1 else 0
  }

  /** Once every node has reported, every user has arrived everywhere and waits on the list exactly once. */
  lemma AllReported<P>(s: State<P>, n: nat)
    requires Handing(s, n) && s.doneCnt + 1 >= |s.nodes|
    ensures forall m :: 0 <= m < |s.nodes| ==> s.nodes[m] == Node(0, 0, s.rounds + 1)
    ensures forall u, m :: 0 <= u < |s.users| && 0 <= m < |s.nodes| ==> Arrived(s, u, m)
    ensures forall u: nat :: multiset(s.waitlist)[u] == if u < |s.users| then 1 else 0
  {
    CountFull(Reported(s));
    forall m | 0 <= m < |s.nodes|
      ensures s.nodes[m] == Node(0, 0, s.rounds + 1)
      ensures forall u :: 0 <= u < |s.users| ==> Arrived(s, u, m)
    {
      assert Reported(s)[m];
      assert NodeOk(s, m);
    }
    forall u, m | 0 <= u < |s.users| && 0 <= m < |s.nodes| ensures Arrived(s, u, m) {
      assert s.nodes[m] == Node(0, 0, s.rounds + 1);
    }
  }

  lemma AtMasterInv<P>(s: State<P>, n: nat)
    requires Handing(s, n)
    ensures Inv(AtMaster(s))
  {
    if s.doneCnt + 1 >= |s.nodes| {
      AllReported(s, n);
      RoundEndInv(s, n);
    } else {
      var s' := AtMaster(s);
      var nobody: seq<nat> := [];
      assert forall u: nat :: multiset(nobody)[u] == 0;
      assert s'.users == s.users;
      assert Reported(s') == Reported(s);
      forall m | 0 <= m < |s.nodes| ensures NodeOk(s', m) {
        assert NodeOk(s, m);
        SameArrivals(s, s', m);
      }
      SameArrivals(s, s', 0);
    }
  }

  lemma RoundEndInv<P>(s: State<P>, n: nat)
    requires Handing(s, n) && s.doneCnt + 1 >= |s.nodes|
    requires forall m :: 0 <= m < |s.nodes| ==> s.nodes[m] == Node(0, 0, s.rounds + 1)
    requires forall u, m :: 0 <= u < |s.users| && 0 <= m < |s.nodes| ==> Arrived(s, u, m)
    requires forall u: nat :: multiset(s.waitlist)[u] == if u < |s.users| then 1 else 0
    ensures Inv(AtMaster(s))
  {
    var s' := AtMaster(s);
    forall u | 0 <= u < |s.users|
      ensures s'.users[u] == s.users[u].(wakes := s.users[u].wakes + 1) && UserOk(s'.users[u], s'.rounds)
      ensures forall m :: 0 <= m < |s.nodes| ==> ChanOk(s'.users[u], m)
    {
      assert Arrived(s, u, 0);
      forall m | 0 <= m < |s.nodes|
        ensures s.users[u].chan[m] == [] && s.users[u].finished[m] && ChanOk(s'.users[u], m)
      {
        assert Arrived(s, u, m) && ChanOk(s.users[u], m);
      }
    }
    CountNone(Reported(s'));
    forall m | 0 <= m < |s.nodes| ensures NodeOk(s', m) {
      CountNone(Arrivals(s', m));
    }
  }

  lemma ReportInv<P>(s: State<P>, n: nat)
    requires Inv(s) && Enabled(s, Report(n))
    ensures Inv(Apply(s, Report(n)))
  {
    var s1 := s.(nodes := s.nodes[n := s.nodes[n].(reports := s.nodes[n].reports - 1)]);
    assert NodeOk(s, n);
    assert Reported(s1) == Reported(s)[n := true];
    CountSet(Reported(s), n);
    forall m | 0 <= m < |s.nodes| ensures NodeOk(s1, m) {
      assert NodeOk(s, m);
      SameArrivals(s, s1, m);
    }
    SameArrivals(s, s1, 0);
    AtMasterInv(s1, n);
  }

  /** The state between popping a final message and counting it: only node n's books are behind. */
  ghost predicate Finishing<P>(s: State<P>, u: nat, n: nat) {
    && Shape(s) && u < |s.users| && n < |s.nodes|
    && (forall w {:trigger UserOk(s.users[w], s.rounds)} :: 0 <= w < |s.users| ==> UserOk(s.users[w], s.rounds))
    && (forall w, m {:trigger ChanOk(s.users[w], m)} :: 0 <= w < |s.users| && 0 <= m < |s.nodes| ==> ChanOk(s.users[w], m))
    && (forall m {:trigger NodeOk(s, m)} :: 0 <= m < |s.nodes| && m != n ==> NodeOk(s, m))
    && Arrived(s, u, n) && Uncounted(s, u, n)
  }

  /** Node n's `val` and the wait list do not count user u's final message yet. */
  ghost predicate Uncounted<P>(s: State<P>, u: nat, n: nat)
    requires Shape(s) && u < |s.users| && n < |s.nodes|
  {
    && s.nodes[n].flushes == s.rounds && s.nodes[n].reports == 0
    && s.nodes[n].val + 1 == Count(Arrivals(s, n))
    && s.doneCnt == Count(Reported(s)) < |s.nodes|
    && forall w: nat :: multiset(s.waitlist)[w] ==
                        if w < |s.users| && Arrived(s, w, 0) && !(w == u && n == 0) then 1 else 0
  }

  /** Popping a message touches one channel of one user. */
  lemma PopChannels<P>(s: State<P>, u: nat, n: nat, w: nat, m: nat)
    requires Inv(s) && Enabled(s, Deliver(u, n)) && s.users[u].chan[n][0].last && w < |s.users| && m < |s.nodes|
    ensures var s1 := s.(users := s.users[u := Popped(s.users[u], n)]);
      Shape(s1) && ChanOk(s1.users[w], m) && (!(w == u && m == n) ==> Arrived(s1, w, m) == Arrived(s, w, m))
  {
    assert ChanOk(s.users[w], m) && ChanOk(s.users[u], n);
    if w == u {
      PoppedOk(s.users[u], n, m);
    }
  }

  /** The final message is the last one, and its sender is in the round. */
  lemma PopArrives<P>(s: State<P>, u: nat, n: nat)
    requires Inv(s) && Enabled(s, Deliver(u, n)) && s.users[u].chan[n][0].last
    ensures var s1 := s.(users := s.users[u := Popped(s.users[u], n)]);
      Shape(s1) && !Arrived(s, u, n) && Arrived(s1, u, n) && UserOk(s1.users[u], s.rounds)
  {
    assert ChanOk(s.users[u], n) && NodeOk(s, n) && UserOk(s.users[u], s.rounds);
    assert |s.users[u].chan[n]| == 1;
  }

  lemma PopArrivals<P>(s: State<P>, u: nat, n: nat, m: nat)
    requires Inv(s) && Enabled(s, Deliver(u, n)) && s.users[u].chan[n][0].last && m < |s.nodes|
    ensures var s1 := s.(users := s.users[u := Popped(s.users[u], n)]);
      Shape(s1) && Arrivals(s1, m) == if m == n then Arrivals(s, n)[u := true] else Arrivals(s, m)
  {
    PopArrives(s, u, n);
    var s1 := s.(users := s.users[u := Popped(s.users[u], n)]);
    forall w | 0 <= w < |s.users| && !(w == u && m == n) ensures Arrived(s1, w, m) == Arrived(s, w, m) {
      PopChannels(s, u, n, w, m);
    }
  }

  lemma PopUncounted<P>(s: State<P>, u: nat, n: nat)
    requires Inv(s) && Enabled(s, Deliver(u, n)) && s.users[u].chan[n][0].last
    ensures var s1 := s.(users := s.users[u := Popped(s.users[u], n)]);
      Shape(s1) && Uncounted(s1, u, n)
  {
    var s1 := s.(users := s.users[u := Popped(s.users[u], n)]);
    PopArrives(s, u, n);
    PopArrivals(s, u, n, n);
    CountSet(Arrivals(s, n), u);
    assert NodeOk(s, n);
    assert Reported(s1) == Reported(s);
    forall w: nat ensures multiset(s1.waitlist)[w] == if w < |s.users| && Arrived(s1, w, 0) && !(w == u && n == 0) then 1 else 0 {
      if w < |s.users| {
        PopChannels(s, u, n, w, 0);
      }
    }
  }

  lemma PopFinal<P>(s: State<P>, u: nat, n: nat)
    requires Inv(s) && Enabled(s, Deliver(u, n)) && s.users[u].chan[n][0].last
    ensures Finishing(s.(users := s.users[u := Popped(s.users[u], n)]), u, n)
  {
    var s1 := s.(users := s.users[u := Popped(s.users[u], n)]);
    PopArrives(s, u, n);
    PopUncounted(s, u, n);
    forall w, m | 0 <= w < |s.users| && 0 <= m < |s.nodes| ensures ChanOk(s1.users[w], m) {
      PopChannels(s, u, n, w, m);
    }
    forall w | 0 <= w < |s.users| ensures UserOk(s1.users[w], s1.rounds) {
      assert UserOk(s.users[w], s.rounds);
    }
    forall m | 0 <= m < |s.nodes| && m != n ensures NodeOk(s1, m) {
      PopNode(s, u, n, m);
    }
  }

  lemma PopNode<P>(s: State<P>, u: nat, n: nat, m: nat)
    requires Inv(s) && Enabled(s, Deliver(u, n)) && s.users[u].chan[n][0].last && m < |s.nodes| && m != n
    ensures var s1 := s.(users := s.users[u := Popped(s.users[u], n)]);
      Shape(s1) && NodeOk(s1, m)
  {
    var s1 := s.(users := s.users[u := Popped(s.users[u], n)]);
    assert NodeOk(s, m);
    PopArrivals(s, u, n, m);
    forall w | 0 <= w < |s.users| ensures Arrived(s1, w, m) == Arrived(s, w, m) {
      PopChannels(s, u, n, w, m);
    }
  }

  /** Node n's books after the final message; the master has not looked at them yet. */
  ghost function Finished<P>(s: State<P>, u: nat, n: nat): State<P>
    requires Shape(s) && u < |s.users| && n < |s.nodes|
  {
    var node := s.nodes[n];
    var (val, flush) := CountFinal(node.val, |s.users|);
    var node' := if !flush then node.(val := val)
                 else if n == 0 then node.(val := val, flushes := node.flushes + 1)
                 else Node(val, node.reports + 1, node.flushes + 1);
    s.(waitlist := if n == 0 then s.waitlist + [u] else s.waitlist, nodes := s.nodes[n := node'])
  }

  lemma FinishedNodes<P>(s: State<P>, u: nat, n: nat)
    requires Finishing(s, u, n)
    ensures forall m :: 0 <= m < |s.nodes| ==> NodeOk(Finished(s, u, n), m) || (m == n == 0)
    ensures s.nodes[n].val + 1 < |s.users| ==> NodeOk(Finished(s, u, n), n)
    ensures s.nodes[n].val + 1 >= |s.users| ==> forall w :: 0 <= w < |s.users| ==> Arrived(s, w, n)
  {
    var s2 := Finished(s, u, n);
    CountFull(Arrivals(s, n));
    if s.nodes[n].val + 1 >= |s.users| {
      forall w | 0 <= w < |s.users| ensures Arrived(s, w, n) {
        assert Arrivals(s, n)[w];
      }
    }
    forall m | 0 <= m < |s.nodes| ensures NodeOk(s2, m) || (m == n == 0) {
      SameArrivals(s, s2, m);
    }
    SameArrivals(s, s2, n);
  }

  /** The master's own flush: its report is handed over under the same lock. */
  lemma FinishAtMaster<P>(s: State<P>, u: nat)
    requires Finishing(s, u, 0) && s.nodes[0].val + 1 >= |s.users|
    ensures Handing(Finished(s, u, 0), 0)
  {
    var s2 := Finished(s, u, 0);
    FinishedNodes(s, u, 0);
    SameArrivals(s, s2, 0);
    WaitlistGrows(s.waitlist, u);
    assert Reported(s2) == Reported(s)[0 := true];
    CountSet(Reported(s), 0);
  }

  lemma FinishElsewhere<P>(s: State<P>, u: nat, n: nat)
    requires Finishing(s, u, n) && (n != 0 || s.nodes[n].val + 1 < |s.users|)
    ensures Inv(Finished(s, u, n))
  {
    var s2 := Finished(s, u, n);
    FinishedNodes(s, u, n);
    SameArrivals(s, s2, 0);
    WaitlistGrows(s.waitlist, u);
    assert Reported(s2) == Reported(s);
  }

  lemma FinishInv<P>(s: State<P>, u: nat, n: nat)
    requires Finishing(s, u, n)
    ensures Inv(Finish(s, u, n))
  {
    if n == 0 && s.nodes[0].val + 1 >= |s.users| {
      FinishAtMaster(s, u);
      AtMasterInv(Finished(s, u, 0), 0);
      assert Finish(s, u, n) == AtMaster(Finished(s, u, 0));
    } else {
      FinishElsewhere(s, u, n);
      assert Finish(s, u, n) == Finished(s, u, n);
    }
  }

  lemma WaitlistGrows(w: seq<nat>, u: nat)
    ensures forall k: nat :: multiset(w + [u])[k] == multiset(w)[k] + if k == u then 1 else 0
  {
    assert multiset(w + [u]) == multiset(w) + multiset{u};
  }

  lemma StepInv<P>(s: State<P>, step: Step<P>)
    requires Inv(s) && Enabled(s, step)
    ensures Inv(Apply(s, step))
  {
    match step
    case Call(u) => CallInv(s, u);
    case Send(u, n, p, last) => SendInv(s, u, n, p, last);
    case EndSend(u) => EndSendInv(s, u);
    case Deliver(u, n) =>
      if s.users[u].chan[n][0].last {
        PopFinal(s, u, n);
        FinishInv(s.(users := s.users[u := Popped(s.users[u], n)]), u, n);
      } else {
        DeliverDataInv(s, u, n);
      }
    case Report(n) => ReportInv(s, n);
    case WakeArrives(u) => WakeArrivesInv(s, u);
    case Return(u) => ReturnInv(s, u);
  }

  /** What receiving, reporting and waking leave alone in every user. */
  ghost predicate SameSending<P>(x: User<P>, y: User<P>) {
    && y.calls == x.calls && y.finished == x.finished && y.sent == x.sent
    && y.phase == x.phase && y.returned == x.returned
  }

  lemma ReceivingFrame<P>(s: State<P>, step: Step<P>, w: nat)
    requires Shape(s) && Enabled(s, step) && w < |s.users|
    requires step.Deliver? || step.Report? || step.WakeArrives?
    ensures var s' := Apply(s, step);
            && Shape(s') && |s'.users| == |s.users| && |s'.nodes| == |s.nodes|
            && SameSending(s.users[w], s'.users[w])
            && (if step.Deliver? && w == step.u then
                  s'.users[w].chan == Popped(s.users[w], step.n).chan && s'.users[w].seen == Popped(s.users[w], step.n).seen
                else s'.users[w].chan == s.users[w].chan && s'.users[w].seen == s.users[w].seen)
  {
  }

  ghost predicate WillFlush<P>(s: State<P>, step: Step<P>)
    requires Shape(s) && Enabled(s, step)
  {
    step.Deliver? && s.users[step.u].chan[step.n][0].last && CountFinal(s.nodes[step.n].val, |s.users|).1
  }

  /** Which histories a step touches: `flushes` at a flush, `rounds` at the end of a round. */
  lemma HistoryFrame<P>(s: State<P>, step: Step<P>, m: nat)
    requires Inv(s) && Enabled(s, step) && m < |s.nodes|
    ensures var s' := Apply(s, step);
            && |s'.nodes| == |s.nodes|
            && s'.nodes[m].flushes == s.nodes[m].flushes + (if WillFlush(s, step) && m == step.n then 1 else 0)
            && s.rounds <= s'.rounds <= s.rounds + 1
            && (s'.rounds != s.rounds ==> step.Report? || WillFlush(s, step))
  {
  }

  /** A node that receives a message has not flushed in this round, and its sender is in the round. */
  lemma ReceiverNotFlushed<P>(s: State<P>, u: nat, n: nat)
    requires Inv(s) && Enabled(s, Deliver(u, n))
    ensures s.nodes[n].flushes == s.rounds && s.users[u].calls == s.rounds + 1
  {
    assert !Arrived(s, u, n);
    assert UserOk(s.users[u], s.rounds) && NodeOk(s, n);
  }

  /** When a node flushes it has received everything everybody has for it in this round. */
  lemma FlushMeansAll<P>(s: State<P>, step: Step<P>, w: nat)
    requires Inv(s) && Enabled(s, step) && WillFlush(s, step) && w < |s.users|
    ensures var s' := Apply(s, step);
            && Shape(s') && |s'.users| == |s.users| && |s'.nodes| == |s.nodes|
            && s'.users[w].calls == s.rounds + 1 && s'.users[w].finished[step.n]
            && s'.users[w].seen[step.n] == s'.users[w].sent[step.n]
  {
    var s' := Apply(s, step);
    StepInv(s, step);
    ReceivingFrame(s, step, w);
    HistoryFrame(s, step, step.n);
    ReceiverNotFlushed(s, step.u, step.n);
    if s'.rounds != s.rounds {
      CompletionWakesEachOnce(s, step, w);
      assert UserOk(s'.users[w], s'.rounds) && UserOk(s.users[w], s.rounds);
    } else {
      assert NodeOk(s', step.n) && Arrived(s', w, step.n) && ChanOk(s'.users[w], step.n);
      assert Payloads(s'.users[w].chan[step.n]) == [];
    }
  }

  /** When a round ends, every node has flushed in it and every user is in it. */
  lemma RoundEndMeansAll<P>(s: State<P>, step: Step<P>, m: nat, w: nat)
    requires Inv(s) && Enabled(s, step) && Apply(s, step).rounds != s.rounds && m < |s.nodes| && w < |s.users|
    ensures var s' := Apply(s, step);
            && Shape(s') && |s'.users| == |s.users| && |s'.nodes| == |s.nodes|
            && s'.rounds == s.rounds + 1 && s'.nodes[m].flushes == s'.rounds && s'.users[w].calls == s'.rounds
  {
    var s' := Apply(s, step);
    StepInv(s, step);
    HistoryFrame(s, step, m);
    assert UserOk(s.users[w], s.rounds) && UserOk(s'.users[w], s'.rounds) && NodeOk(s', m) && NodeOk(s, m);
  }

  // ---- whole runs ----

  ghost predicate Run<P>(users: nat, nodes: nat, tr: seq<State<P>>, steps: seq<Step<P>>) {
    && users > 0 && nodes > 0
    && |tr| == |steps| + 1 && tr[0] == Init<P>(users, nodes)
    && forall i :: 0 <= i < |steps| ==> Shape(tr[i]) && Enabled(tr[i], steps[i]) && tr[i + 1] == Apply(tr[i], steps[i])
  }

  lemma {:induction false} RunInv<P>(users: nat, nodes: nat, tr: seq<State<P>>, steps: seq<Step<P>>, i: nat)
    requires Run(users, nodes, tr, steps) && i < |tr|
    ensures Inv(tr[i])
  {
    if i == 0 {
      InitInv<P>(users, nodes);
    } else {
      RunInv(users, nodes, tr, steps, i - 1);
      StepInv(tr[i - 1], steps[i - 1]);
    }
  }

  /**
  Rounds never mix. At every point of every run: nobody has returned from a round that somebody
  has not entered yet; every node has flushed once for each finished round and at most once more;
  and a node that has flushed for round r has received from everybody in round r.
  */
  lemma RoundsNeverMix<P>(users: nat, nodes: nat, tr: seq<State<P>>, steps: seq<Step<P>>, i: nat)
    requires Run(users, nodes, tr, steps) && i < |tr|
    ensures var s := tr[i];
            && (forall u, w :: 0 <= u < |s.users| && 0 <= w < |s.users| ==> s.users[u].returned <= s.users[w].calls)
            && (forall u, w :: 0 <= u < |s.users| && 0 <= w < |s.users| ==> s.users[u].calls <= s.users[w].calls + 1)
            && (forall n :: 0 <= n < |s.nodes| ==> s.rounds <= s.nodes[n].flushes <= s.rounds + 1)
            && (forall u, n :: 0 <= u < |s.users| && 0 <= n < |s.nodes| ==>
                  s.users[u].returned <= s.nodes[n].flushes <= s.users[u].calls)
  {
    RunInv(users, nodes, tr, steps, i);
    var s := tr[i];
    forall u | 0 <= u < |s.users| ensures UserOk(s.users[u], s.rounds) {
    }
    forall n | 0 <= n < |s.nodes| ensures s.rounds <= s.nodes[n].flushes <= s.rounds + 1 {
      assert NodeOk(s, n);
    }
    forall u, n | 0 <= u < |s.users| && 0 <= n < |s.nodes| && s.nodes[n].flushes == s.rounds + 1
      ensures s.users[u].calls == s.rounds + 1
    {
      assert NodeOk(s, n) && Arrived(s, u, n);
    }
  }

  /**
  When a user returns, every message anybody sent in that round has been received: for a user that
  is idle after at least one call, and for every user still in the same round, nothing is in flight
  and each node has seen exactly what was sent to it.
  */
  lemma ReturnedMeansReceived<P>(s: State<P>, u: nat, w: nat, n: nat)
    requires Inv(s) && u < |s.users| && w < |s.users| && n < |s.nodes|
    requires s.users[u].returned > 0 && s.users[w].calls == s.users[u].returned
    ensures s.users[w].chan[n] == [] && s.users[w].seen[n] == s.users[w].sent[n]
  {
    assert UserOk(s.users[u], s.rounds) && UserOk(s.users[w], s.rounds) && ChanOk(s.users[w], n);
    assert Payloads(s.users[w].chan[n]) == [];
  }

  /**
  The step that ends a round finds every user on the master's wait list exactly once, with every
  node's buffer complete, and sends each user exactly one wake-up, the only one it has.
  */
  lemma CompletionWakesEachOnce<P>(s: State<P>, step: Step<P>, u: nat)
    requires Inv(s) && Enabled(s, step) && Apply(s, step).rounds != s.rounds && u < |s.users|
    ensures Apply(s, step).rounds == s.rounds + 1
    ensures s.users[u].wakes == 0 && Apply(s, step).users[u].wakes == 1
    ensures forall n :: 0 <= n < |s.nodes| ==>
              Apply(s, step).users[u].finished[n] && Apply(s, step).users[u].seen[n] == Apply(s, step).users[u].sent[n]
    ensures Apply(s, step).waitlist == [] && Apply(s, step).doneCnt == 0
  {
    var s' := Apply(s, step);
    StepInv(s, step);
    assert UserOk(s.users[u], s.rounds) && UserOk(s'.users[u], s'.rounds);
    assert s'.users[u].calls == s.users[u].calls;
    forall n | 0 <= n < |s.nodes|
      ensures s'.users[u].finished[n] && s'.users[u].seen[n] == s'.users[u].sent[n]
    {
      assert ChanOk(s'.users[u], n);
      assert Payloads(s'.users[u].chan[n]) == [];
    }
  }

  /**
  No deadlock: while everybody is in the round and has sent all its final messages, some message
  or report is still on its way.
  */
  lemma SomethingInFlight<P>(s: State<P>)
    requires Inv(s)
    requires forall u :: 0 <= u < |s.users| ==> s.users[u].calls == s.rounds + 1
    requires forall u, n :: 0 <= u < |s.users| && 0 <= n < |s.nodes| ==> s.users[u].finished[n]
    ensures (exists u, n :: 0 <= u < |s.users| && 0 <= n < |s.nodes| && s.users[u].chan[n] != [])
            || exists n :: 0 <= n < |s.nodes| && s.nodes[n].reports > 0
  {
    if (forall u, n :: 0 <= u < |s.users| && 0 <= n < |s.nodes| ==> s.users[u].chan[n] == [])
       && forall n :: 0 <= n < |s.nodes| ==> s.nodes[n].reports == 0 {
      forall n | 0 <= n < |s.nodes| ensures Reported(s)[n] {
        assert NodeOk(s, n);
        CountFull(Arrivals(s, n));
        assert forall u :: 0 <= u < |s.users| ==> Arrivals(s, n)[u];
      }
      CountFull(Reported(s));
      assert false;
    }
  }
}
