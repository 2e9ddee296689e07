/**
Map-reduce on the whole cluster. Map uses the accumulator's round protocol: users send batches of
key/value pairs to nodes of their choice, which decode and map them as they come; a final message to
every node ends the call. The master's Reduce then makes every node hand what it collected to DoReduce.

The discipline the interface asks for is a guard here: no Map call overlaps a Reduce.
*/
module MapReduce {
  import opened Counting
  import opened MapReduceBatches
  import Rounds

  type Net = Rounds.State<seq<Pair>>

  type User = Rounds.User<seq<Pair>>

  /** Reduce: nodes that have not reduced yet, reports under way, reports counted. */
  datatype Reducing = Off | On(todo: set<nat>, reports: set<nat>, done: nat)

  /**
  Per user: the input of its latest Map call and how much of it is sent. Per node: what it collected
  and has not handed over. `fed`, `decoded` and `handed` are histories: all inputs of all Map calls,
  the pairs each node decoded, and what each node handed to DoReduce.
  */
  datatype State = State(
    net: Net,
    input: seq<seq<Pair>>,
    pos: seq<nat>,
    out: seq<multiset<Pair>>,
    reduce: Reducing,
    fed: seq<Pair>,
    decoded: seq<seq<Pair>>,
    handed: seq<multiset<Pair>>)

  datatype Step =
    | Map(u: nat, pairs: seq<Pair>)
    | SendBatch(u: nat, n: nat, upto: nat)
    | SendEnd(u: nat, n: nat)
    | AwaitMap(u: nat)
    | Deliver(u: nat, n: nat)
    | Report(n: nat)
    | WakeArrives(u: nat)
    | ReturnMap(u: nat)
    | Reduce
    | ReduceLocally(n: nat)
    | ReduceReport(n: nat)

  // ---- sums ----

  function Total(ms: seq<multiset<Pair>>): multiset<Pair> {
    if ms == [] then multiset{} else Total(ms[..|ms| - 1]) + ms[|ms| - 1]
  }

  lemma {:induction false} TotalUpdate(ms: seq<multiset<Pair>>, i: nat, m: multiset<Pair>)
    requires i < |ms|
    ensures Total(ms[i := m]) + ms[i] == Total(ms) + m
  {
    var k := |ms| - 1;
    if i == k {
      assert ms[i := m][..k] == ms[..k];
    } else {
      TotalUpdate(ms[..k], i, m);
      assert ms[i := m][..k] == ms[..k][i := m];
      calc {
        Total(ms[i := m]) + ms[i];
        Total(ms[..k][i := m]) + ms[k] + ms[i];
        (Total(ms[..k][i := m]) + ms[..k][i]) + ms[k];
        (Total(ms[..k]) + m) + ms[k];
        Total(ms) + m;
      }
    }
  }

  lemma {:induction false} TotalEmpty(ms: seq<multiset<Pair>>)
    requires forall i :: 0 <= i < |ms| ==> ms[i] == multiset{}
    ensures Total(ms) == multiset{}
  {
    if ms != [] {
      TotalEmpty(ms[..|ms| - 1]);
    }
  }

  /** All pairs in a queue of batches. */
  function Load(q: seq<Rounds.Msg<seq<Pair>>>): multiset<Pair> {
    if q == [] then multiset{} else multiset(q[0].payload) + Load(q[1..])
  }

  lemma {:induction false} LoadAppend(q: seq<Rounds.Msg<seq<Pair>>>, m: Rounds.Msg<seq<Pair>>)
    ensures Load(q + [m]) == Load(q) + multiset(m.payload)
  {
    if q == [] {
      assert q + [m] == [m];
    } else {
      assert (q + [m])[1..] == q[1..] + [m];
      LoadAppend(q[1..], m);
    }
  }

  function Loads(x: User): seq<multiset<Pair>> {
    seq(|x.chan|, n requires 0 <= n < |x.chan| => Load(x.chan[n]))
  }

  /** What user u still has to get to some node: the rest of its input and its batches under way. */
  function Owed(s: State, u: nat): multiset<Pair>
    requires u < |s.net.users| && u < |s.input| && u < |s.pos| && s.pos[u] <= |s.input[u]|
  {
    multiset(s.input[u][s.pos[u]..]) + Total(Loads(s.net.users[u]))
  }

  function AllOwed(s: State): seq<multiset<Pair>>
    requires Shaped(s)
  {
    seq(|s.net.users|, u requires 0 <= u < |s.net.users| => Owed(s, u))
  }

  function AllDecoded(s: State): seq<multiset<Pair>> {
    seq(|s.decoded|, n requires 0 <= n < |s.decoded| => multiset(s.decoded[n]))
  }

  predicate Shaped(s: State) {
    && |s.input| == |s.pos| == |s.net.users| && |s.out| == |s.decoded| == |s.handed| == |s.net.nodes|
    && forall u {:trigger s.pos[u]} :: 0 <= u < |s.pos| ==> s.pos[u] <= |s.input[u]|
  }

  /** The nodes. */
  function Below(n: nat): (r: set<nat>)
    ensures |r| == n && forall i :: i in r <==> 0 <= i < n
  {
    if n == 0 then {} else Below(n - 1) + {n - 1}
  }

  // ---- steps ----

  ghost function Init(users: nat, nodes: nat): State {
    State(Rounds.Init(users, nodes), seq(users, _ => []), seq(users, _ => 0), seq(nodes, _ => multiset{}), Off,
          [], seq(nodes, _ => []), seq(nodes, _ => multiset{}))
  }

  /** The step of the round protocol inside a step. */
  function NetStep(s: State, step: Step): Rounds.Step<seq<Pair>>
    requires !step.Reduce? && !step.ReduceLocally? && !step.ReduceReport?
    requires Shaped(s) && (step.SendBatch? ==> step.u < |s.pos| && s.pos[step.u] <= step.upto <= |s.input[step.u]|)
  {
    match step
    case Map(u, _) => Rounds.Call(u)
    case SendBatch(u, n, upto) => Rounds.Send(u, n, s.input[u][s.pos[u]..upto], false)
    case SendEnd(u, n) => Rounds.Send(u, n, [], true)
    case AwaitMap(u) => Rounds.EndSend(u)
    case Deliver(u, n) => Rounds.Deliver(u, n)
    case Report(n) => Rounds.Report(n)
    case WakeArrives(u) => Rounds.WakeArrives(u)
    case ReturnMap(u) => Rounds.Return(u)
  }

  predicate OnNet(step: Step) {
    !step.Reduce? && !step.ReduceLocally? && !step.ReduceReport?
  }

  ghost predicate Enabled(s: State, step: Step) {
    && Shaped(s) && Rounds.Shape(s.net)
    && (step.SendBatch? ==> step.u < |s.pos| && s.pos[step.u] <= step.upto <= |s.input[step.u]|)
    && (OnNet(step) ==> Rounds.Enabled(s.net, NetStep(s, step)))
    && match step
       case Map(_, _) => s.reduce == Off
       case SendBatch(u, _, _) => forall m :: 0 <= m < |s.net.nodes| ==> !s.net.users[u].finished[m]
       case SendEnd(u, _) => s.pos[u] == |s.input[u]|
       case AwaitMap(u) => forall m :: 0 <= m < |s.net.nodes| ==> s.net.users[u].finished[m]
       case Reduce =>
         // user 0 is the master's thread; it has no Map call open and nobody has a newer one
         && s.reduce == Off && s.net.users[0].phase == Rounds.Idle
         && forall u :: 0 <= u < |s.net.users| ==> s.net.users[u].calls == s.net.users[0].returned
       case ReduceLocally(n) => s.reduce.On? && n in s.reduce.todo && n < |s.out|
       case ReduceReport(n) => s.reduce.On? && n in s.reduce.reports
       case _ => true
  }

  ghost function Apply(f: MapFunc, s: State, step: Step): State
    requires Enabled(s, step)
  {
    match step
    case Map(u, pairs) =>
      s.(net := Rounds.Apply(s.net, Rounds.Call(u)), input := s.input[u := pairs], pos := s.pos[u := 0], fed := s.fed + pairs)
    case SendBatch(u, n, upto) => s.(net := Rounds.Apply(s.net, NetStep(s, step)), pos := s.pos[u := upto])
    case Deliver(u, n) =>
      var batch := s.net.users[u].chan[n][0].payload;
      s.(net := Rounds.Apply(s.net, Rounds.Deliver(u, n)),
         out := s.out[n := s.out[n] + multiset(Emitted(f, batch))], decoded := s.decoded[n := s.decoded[n] + batch])
    case Reduce => s.(reduce := On(Below(|s.out|), {}, 0))
    case ReduceLocally(n) =>
      s.(handed := s.handed[n := s.handed[n] + s.out[n]], out := s.out[n := multiset{}],
         reduce := s.reduce.(todo := s.reduce.todo - {n}, reports := s.reduce.reports + {n}))
    case ReduceReport(n) =>
      if s.reduce.done + 1 >= |s.out| then s.(reduce := Off)
      else s.(reduce := s.reduce.(reports := s.reduce.reports - {n}, done := s.reduce.done + 1))
    case _ => s.(net := Rounds.Apply(s.net, NetStep(s, step)))
  }

  // ---- invariant ----

  /** Sending is over, or the user is still in its call and has sent no final message. */
  ghost predicate SenderOk(s: State, u: nat)
    requires Shaped(s) && u < |s.net.users|
  {
    s.pos[u] == |s.input[u]| || (s.net.users[u].phase == Rounds.Calling && forall m :: 0 <= m < |s.net.users[u].finished| ==> !s.net.users[u].finished[m])
  }

  predicate NodeOk(f: MapFunc, s: State, n: nat)
    requires Shaped(s) && n < |s.out|
  {
    s.out[n] + s.handed[n] == multiset(Emitted(f, s.decoded[n]))
  }

  /** During a Reduce, no user is ahead of the rounds that are over. */
  ghost predicate ReduceOk(s: State)
    requires Shaped(s)
  {
    s.reduce.On? ==>
      && (forall u :: 0 <= u < |s.net.users| ==> s.net.users[u].calls == s.net.rounds)
      && (forall n :: n in s.reduce.todo ==> n < |s.out|)
      && (forall n :: 0 <= n < |s.out| && n !in s.reduce.todo ==> s.out[n] == multiset{})
      && s.reduce.todo !! s.reduce.reports
      && s.reduce.done + |s.reduce.reports| + |s.reduce.todo| == |s.out|
  }

  /** Every pair ever fed in is decoded on one node, or still owed by one user. */
  ghost predicate Conserved(s: State)
    requires Shaped(s)
  {
    multiset(s.fed) == Total(AllDecoded(s)) + Total(AllOwed(s))
  }

  ghost predicate Inv(f: MapFunc, s: State) {
    && Shaped(s) && Rounds.Inv(s.net)
    && (forall u {:trigger SenderOk(s, u)} :: 0 <= u < |s.net.users| ==> SenderOk(s, u))
    && (forall n {:trigger NodeOk(f, s, n)} :: 0 <= n < |s.out| ==> NodeOk(f, s, n))
    && Conserved(s) && ReduceOk(s)
  }

  // ---- every step keeps it ----

  lemma AfterNetStep(f: MapFunc, s: State, step: Step)
    requires Inv(f, s) && Enabled(s, step) && OnNet(step)
    ensures Rounds.Inv(Apply(f, s, step).net) && |Apply(f, s, step).net.users| == |s.net.users| && |Apply(f, s, step).net.nodes| == |s.net.nodes|
    ensures Shaped(Apply(f, s, step))
  {
    Rounds.StepInv(s.net, NetStep(s, step));
  }

  /** Only user u's debt changed. */
  lemma OwedUpdate(s: State, s': State, u: nat)
    requires Shaped(s) && Shaped(s') && |s'.net.users| == |s.net.users| && u < |s.net.users|
    requires forall w {:trigger Owed(s', w)} :: 0 <= w < |s.net.users| && w != u ==> Owed(s', w) == Owed(s, w)
    ensures Total(AllOwed(s')) + Owed(s, u) == Total(AllOwed(s)) + Owed(s', u)
  {
    TotalUpdate(AllOwed(s), u, Owed(s', u));
    assert AllOwed(s') == AllOwed(s)[u := Owed(s', u)];
  }

  lemma SameOwed(s: State, s': State, u: nat)
    requires Shaped(s) && Shaped(s') && u < |s.net.users| == |s'.net.users|
    requires s'.input[u] == s.input[u] && s'.pos[u] == s.pos[u] && s'.net.users[u].chan == s.net.users[u].chan
    ensures Owed(s', u) == Owed(s, u)
  {
    assert Loads(s'.net.users[u]) == Loads(s.net.users[u]);
  }

  /** Steps that move no pairs. */
  lemma StillConserved(s: State, s': State)
    requires Balanced(s) && Shaped(s') && |s'.net.users| == |s.net.users| && s'.fed == s.fed && s'.decoded == s.decoded
    requires s'.input == s.input && s'.pos == s.pos
    requires forall u {:trigger s'.net.users[u]} :: 0 <= u < |s.net.users| ==> s'.net.users[u].chan == s.net.users[u].chan
    ensures Conserved(s')
  {
    forall u | 0 <= u < |s.net.users| ensures Owed(s', u) == Owed(s, u) {
      SameOwed(s, s', u);
    }
    assert AllOwed(s') == AllOwed(s) && AllDecoded(s') == AllDecoded(s);
  }

  ghost predicate Balanced(s: State) {
    Shaped(s) && Conserved(s)
  }

  lemma Shift(a: multiset<Pair>, b: multiset<Pair>, c: multiset<Pair>, m: multiset<Pair>)
    requires a + c == b + (c + m)
    ensures a == b + m
  {
    forall x: Pair ensures a[x] == (b + m)[x] {
      assert (a + c)[x] == (b + (c + m))[x];
    }
  }

  lemma LoadsSend(x: User, x': User, n: nat, m: Rounds.Msg<seq<Pair>>)
    requires n < |x.chan| && x'.chan == x.chan[n := x.chan[n] + [m]]
    ensures Total(Loads(x')) == Total(Loads(x)) + multiset(m.payload)
  {
    LoadAppend(x.chan[n], m);
    TotalUpdate(Loads(x), n, Load(x'.chan[n]));
    assert Loads(x') == Loads(x)[n := Load(x'.chan[n])];
    Shift(Total(Loads(x')), Total(Loads(x)), Load(x.chan[n]), multiset(m.payload));
  }

  lemma LoadsPop(x: User, x': User, n: nat)
    requires n < |x.chan| && x.chan[n] != [] && x'.chan == x.chan[n := x.chan[n][1..]]
    ensures Total(Loads(x)) == Total(Loads(x')) + multiset(x.chan[n][0].payload)
  {
    var rest := Load(x.chan[n][1..]);
    TotalUpdate(Loads(x), n, rest);
    assert Loads(x') == Loads(x)[n := rest];
    var m := multiset(x.chan[n][0].payload);
    assert Load(x.chan[n]) == rest + m;
    Shift(Total(Loads(x)), Total(Loads(x')), rest, m);
  }

  predicate SameElsewhere(s: State, s': State, u: nat)
    requires Shaped(s) && Shaped(s') && |s'.net.users| == |s.net.users|
  {
    forall w {:trigger s'.net.users[w]} :: 0 <= w < |s.net.users| && w != u ==>
      s'.input[w] == s.input[w] && s'.pos[w] == s.pos[w] && s'.net.users[w].chan == s.net.users[w].chan
  }

  lemma OwedElsewhere(s: State, s': State, u: nat)
    requires Shaped(s) && Shaped(s') && u < |s.net.users| == |s'.net.users| && SameElsewhere(s, s', u)
    ensures Total(AllOwed(s')) + Owed(s, u) == Total(AllOwed(s)) + Owed(s', u)
  {
    forall w | 0 <= w < |s.net.users| && w != u ensures Owed(s', w) == Owed(s, w) {
      assert s'.net.users[w].chan == s.net.users[w].chan;
      SameOwed(s, s', w);
    }
    OwedUpdate(s, s', u);
  }

  /** A user starts a Map call: its old input is all sent, its new input is all owed. */
  lemma NewInputConserves(s: State, s': State, u: nat, pairs: seq<Pair>)
    requires Balanced(s) && Shaped(s') && u < |s.net.users| == |s'.net.users| && SameElsewhere(s, s', u)
    requires s.pos[u] == |s.input[u]| && s'.input[u] == pairs && s'.pos[u] == 0 && s'.net.users[u].chan == s.net.users[u].chan
    requires s'.fed == s.fed + pairs && s'.decoded == s.decoded
    ensures Conserved(s')
  {
    OwedElsewhere(s, s', u);
    assert Loads(s'.net.users[u]) == Loads(s.net.users[u]);
    assert pairs[0..] == pairs && s.input[u][s.pos[u]..] == [];
    assert Owed(s', u) == Owed(s, u) + multiset(pairs);
    Shift(Total(AllOwed(s')), Total(AllOwed(s)), Owed(s, u), multiset(pairs));
    assert AllDecoded(s') == AllDecoded(s);
    Associate(Total(AllDecoded(s)), Total(AllOwed(s)), multiset(pairs));
  }

  lemma Associate(a: multiset<Pair>, b: multiset<Pair>, c: multiset<Pair>)
    ensures (a + b) + c == a + (b + c)
  {
  }

  /** A batch leaves the input and is under way. */
  lemma BatchConserves(s: State, s': State, u: nat, n: nat, m: Rounds.Msg<seq<Pair>>)
    requires Balanced(s) && Shaped(s') && u < |s.net.users| == |s'.net.users| && SameElsewhere(s, s', u)
    requires s'.input[u] == s.input[u] && s.input[u][s.pos[u]..] == m.payload + s.input[u][s'.pos[u]..]
    requires n < |s.net.users[u].chan| && s'.net.users[u].chan == s.net.users[u].chan[n := s.net.users[u].chan[n] + [m]]
    requires s'.fed == s.fed && s'.decoded == s.decoded
    ensures Conserved(s')
  {
    OwedElsewhere(s, s', u);
    LoadsSend(s.net.users[u], s'.net.users[u], n, m);
    assert Owed(s', u) == Owed(s, u);
    Shift(Total(AllOwed(s')), Total(AllOwed(s)), Owed(s, u), multiset{});
    assert AllDecoded(s') == AllDecoded(s);
  }

  /** A node decodes a batch. */
  lemma DecodingConserves(s: State, s': State, u: nat, n: nat)
    requires Balanced(s) && Shaped(s') && u < |s.net.users| == |s'.net.users| && SameElsewhere(s, s', u)
    requires s'.input[u] == s.input[u] && s'.pos[u] == s.pos[u]
    requires n < |s.net.users[u].chan| && s.net.users[u].chan[n] != []
    requires s'.net.users[u].chan == s.net.users[u].chan[n := s.net.users[u].chan[n][1..]]
    requires s'.fed == s.fed && n < |s.decoded| && s'.decoded == s.decoded[n := s.decoded[n] + s.net.users[u].chan[n][0].payload]
    ensures Conserved(s')
  {
    OwedElsewhere(s, s', u);
    LoadsPop(s.net.users[u], s'.net.users[u], n);
    var batch := s.net.users[u].chan[n][0].payload;
    assert Owed(s, u) == Owed(s', u) + multiset(batch);
    TotalUpdate(AllDecoded(s), n, multiset(s'.decoded[n]));
    assert AllDecoded(s') == AllDecoded(s)[n := multiset(s'.decoded[n])];
    Rebalance(Total(AllDecoded(s)), Total(AllDecoded(s')), Total(AllOwed(s)), Total(AllOwed(s')),
              multiset(s.decoded[n]), Owed(s', u), multiset(batch));
  }

  lemma Rebalance(d: multiset<Pair>, d': multiset<Pair>, o: multiset<Pair>, o': multiset<Pair>, dn: multiset<Pair>, ou: multiset<Pair>, b: multiset<Pair>)
    requires d' + dn == d + (dn + b) && o' + (ou + b) == o + ou
    ensures d' + o' == d + o
  {
    forall x: Pair ensures (d' + o')[x] == (d + o)[x] {
      assert (d' + dn)[x] == (d + (dn + b))[x] && (o' + (ou + b))[x] == (o + ou)[x];
    }
  }

  lemma QuietReduce(f: MapFunc, s: State, u: nat, n: nat)
    requires Inv(f, s) && s.reduce.On? && u < |s.net.users| && n < |s.net.nodes|
    ensures s.net.users[u].chan[n] == [] && s.net.nodes[n].reports == 0 && s.net.nodes[n].flushes == s.net.rounds
    ensures s.net.users[u].phase == Rounds.Idle || s.net.users[u].finished[n]
  {
    assert Rounds.UserOk(s.net.users[u], s.net.rounds);
    assert Rounds.NodeOk(s.net, n);
    assert !Rounds.Arrived(s.net, u, n);
  }

  /** While a Reduce is under way the round protocol stands still, but for wake-ups and returns. */
  lemma ReduceOkStays(f: MapFunc, s: State, step: Step)
    requires Inv(f, s) && Enabled(s, step) && OnNet(step) && s.reduce.On?
    ensures step.AwaitMap? || step.WakeArrives? || step.ReturnMap?
  {
    assert |s.net.users| > 0 && |s.net.nodes| > 0;
    match step
    case SendBatch(u, n, _) => QuietReduce(f, s, u, n);
    case SendEnd(u, n) => QuietReduce(f, s, u, n);
    case Deliver(u, n) => QuietReduce(f, s, u, n);
    case Report(n) => QuietReduce(f, s, 0, n);
    case _ =>
  }

  /** Steps of the round protocol that move no pairs. */
  lemma NetOnlyInv(f: MapFunc, s: State, s': State)
    requires Inv(f, s) && s' == s.(net := s'.net) && Rounds.Inv(s'.net)
    requires |s'.net.users| == |s.net.users| && |s'.net.nodes| == |s.net.nodes|
    requires forall w {:trigger s'.net.users[w]} :: 0 <= w < |s.net.users| ==>
      s'.net.users[w].chan == s.net.users[w].chan && SenderOk(s', w) && s'.net.users[w].calls == s.net.users[w].calls
    requires s.reduce.On? ==> s'.net.rounds == s.net.rounds
    ensures Inv(f, s')
  {
    StillConserved(s, s');
    forall w | 0 <= w < |s.net.users| ensures SenderOk(s', w) {
      assert s'.net.users[w].calls == s.net.users[w].calls;
    }
    forall n | 0 <= n < |s.out| ensures NodeOk(f, s', n) {
      assert NodeOk(f, s, n);
    }
  }

  /** Reports and wake-ups. */
  lemma MessageSteps(f: MapFunc, s: State, step: Step)
    requires Inv(f, s) && Enabled(s, step) && (step.Report? || step.WakeArrives?)
    ensures Inv(f, Apply(f, s, step))
  {
    var s' := Apply(f, s, step);
    AfterNetStep(f, s, step);
    forall w | 0 <= w < |s.net.users|
      ensures s'.net.users[w].chan == s.net.users[w].chan && SenderOk(s', w) && s'.net.users[w].calls == s.net.users[w].calls
    {
      assert SenderOk(s, w);
      Rounds.ReceivingFrame(s.net, NetStep(s, step), w);
    }
    if s.reduce.On? {
      ReduceOkStays(f, s, step);
    }
    NetOnlyInv(f, s, s');
  }

  lemma AwaitInv(f: MapFunc, s: State, u: nat)
    requires Inv(f, s) && Enabled(s, AwaitMap(u))
    ensures Inv(f, Apply(f, s, AwaitMap(u)))
  {
    var s' := Apply(f, s, AwaitMap(u));
    AfterNetStep(f, s, AwaitMap(u));
    forall w | 0 <= w < |s.net.users| ensures SenderOk(s', w) {
      assert SenderOk(s, w);
      if w == u {
        assert s.net.users[w].finished[0];
      }
    }
    NetOnlyInv(f, s, s');
  }

  lemma ReturnInv(f: MapFunc, s: State, u: nat)
    requires Inv(f, s) && Enabled(s, ReturnMap(u))
    ensures Inv(f, Apply(f, s, ReturnMap(u)))
  {
    var s' := Apply(f, s, ReturnMap(u));
    AfterNetStep(f, s, ReturnMap(u));
    forall w | 0 <= w < |s.net.users| ensures SenderOk(s', w) {
      assert SenderOk(s, w);
    }
    NetOnlyInv(f, s, s');
  }

  lemma MapInv(f: MapFunc, s: State, u: nat, pairs: seq<Pair>)
    requires Inv(f, s) && Enabled(s, Map(u, pairs))
    ensures Inv(f, Apply(f, s, Map(u, pairs)))
  {
    var s' := Apply(f, s, Map(u, pairs));
    AfterNetStep(f, s, Map(u, pairs));
    forall w | 0 <= w < |s.net.users| ensures SenderOk(s', w) && s'.net.users[w].chan == s.net.users[w].chan {
      assert SenderOk(s, w);
    }
    assert SenderOk(s, u);
    NewInputConserves(s, s', u, pairs);
    forall n | 0 <= n < |s.out| ensures NodeOk(f, s', n) {
      assert NodeOk(f, s, n);
    }
  }

  /** User w is as before, as far as sending goes. */
  predicate SameSender(s: State, s': State, w: nat)
    requires Shaped(s) && Shaped(s') && w < |s.net.users| == |s'.net.users|
  {
    && s'.input[w] == s.input[w] && s'.pos[w] == s.pos[w] && s'.net.users[w].chan == s.net.users[w].chan
    && s'.net.users[w].phase == s.net.users[w].phase && s'.net.users[w].finished == s.net.users[w].finished
  }

  lemma SentElsewhere(s: State, s': State, u: nat)
    requires Shaped(s) && Shaped(s') && |s'.net.users| == |s.net.users|
    requires forall w {:trigger SameSender(s, s', w)} :: 0 <= w < |s.net.users| && w != u ==> SameSender(s, s', w)
    ensures SameElsewhere(s, s', u)
  {
    forall w | 0 <= w < |s.net.users| && w != u
      ensures s'.input[w] == s.input[w] && s'.pos[w] == s.pos[w] && s'.net.users[w].chan == s.net.users[w].chan
    {
      assert SameSender(s, s', w);
    }
  }

  /** What both kinds of sending do to the sender. */
  lemma SentInv(f: MapFunc, s: State, s': State, u: nat, n: nat, m: Rounds.Msg<seq<Pair>>)
    requires Inv(f, s) && s.reduce == Off && u < |s.net.users| && n < |s.net.nodes|
    requires s' == s.(net := s'.net, pos := s'.pos) && Rounds.Inv(s'.net) && Shaped(s')
    requires |s'.net.users| == |s.net.users| && |s'.net.nodes| == |s.net.nodes|
    requires s.input[u][s.pos[u]..] == m.payload + s.input[u][s'.pos[u]..]
    requires s'.net.users[u].chan == s.net.users[u].chan[n := s.net.users[u].chan[n] + [m]] && SenderOk(s', u)
    requires forall w {:trigger SameSender(s, s', w)} :: 0 <= w < |s.net.users| && w != u ==> SameSender(s, s', w)
    ensures Inv(f, s')
  {
    forall w | 0 <= w < |s.net.users| ensures SenderOk(s', w) {
      assert SenderOk(s, w) && (w != u ==> SameSender(s, s', w));
    }
    SentElsewhere(s, s', u);
    BatchConserves(s, s', u, n, m);
    forall j | 0 <= j < |s.out| ensures NodeOk(f, s', j) {
      assert NodeOk(f, s, j);
    }
  }

  lemma SendInv(f: MapFunc, s: State, step: Step)
    requires Inv(f, s) && Enabled(s, step) && (step.SendBatch? || step.SendEnd?)
    ensures Inv(f, Apply(f, s, step))
  {
    var (s', u) := (Apply(f, s, step), step.u);
    AfterNetStep(f, s, step);
    if s.reduce.On? {
      ReduceOkStays(f, s, step);
    }
    assert SenderOk(s, u);
    var batch := NetStep(s, step).payload;
    assert s.input[u][s.pos[u]..] == batch + s.input[u][s'.pos[u]..];
    forall w | 0 <= w < |s.net.users| && w != u ensures SameSender(s, s', w) {
    }
    SentInv(f, s, s', u, step.n, Rounds.Msg(step.SendEnd?, batch));
  }

  lemma DecodedOk(f: MapFunc, s: State, u: nat, n: nat, m: nat)
    requires Shaped(s) && Enabled(s, Deliver(u, n)) && m < |s.out| && NodeOk(f, s, m) && Shaped(Apply(f, s, Deliver(u, n)))
    ensures NodeOk(f, Apply(f, s, Deliver(u, n)), m)
  {
    if m == n {
      EmittedAppend(f, s.decoded[n], s.net.users[u].chan[n][0].payload);
    }
  }

  /** Taking a message to node n changes only the receiver's end of that queue. */
  predicate Popped(s: State, s': State, u: nat, n: nat, w: nat) {
    && w < |s.net.users| == |s'.net.users| && n < |s.net.users[w].chan|
    && if w != u then s'.net.users[w].chan == s.net.users[w].chan
       else s.net.users[u].chan[n] != [] && s'.net.users[u].chan == s.net.users[u].chan[n := s.net.users[u].chan[n][1..]]
  }

  lemma DeliverInv(f: MapFunc, s: State, u: nat, n: nat)
    requires Inv(f, s) && Enabled(s, Deliver(u, n))
    ensures Inv(f, Apply(f, s, Deliver(u, n)))
  {
    var s' := Apply(f, s, Deliver(u, n));
    AfterNetStep(f, s, Deliver(u, n));
    forall w | 0 <= w < |s.net.users| ensures SenderOk(s', w) && Popped(s, s', u, n, w) {
      assert SenderOk(s, w);
      Rounds.ReceivingFrame(s.net, Rounds.Deliver(u, n), w);
    }
    assert Popped(s, s', u, n, u) && SameElsewhere(s, s', u);
    DecodingConserves(s, s', u, n);
    forall m | 0 <= m < |s.out| ensures NodeOk(f, s', m) {
      DecodedOk(f, s, u, n, m);
    }
    if s.reduce.On? {
      ReduceOkStays(f, s, Deliver(u, n));
    }
  }

  /** Steps of a Reduce leave users, inputs and decoded pairs alone. */
  lemma ReduceSteps(f: MapFunc, s: State, s': State)
    requires Inv(f, s) && s' == s.(out := s'.out, handed := s'.handed, reduce := s'.reduce) && Shaped(s') && ReduceOk(s')
    requires forall m {:trigger NodeOk(f, s', m)} :: 0 <= m < |s.out| ==> NodeOk(f, s', m)
    ensures Inv(f, s')
  {
    forall w | 0 <= w < |s.net.users| ensures SenderOk(s', w) {
      assert SenderOk(s, w);
    }
    StillConserved(s, s');
  }

  lemma ReduceStartInv(f: MapFunc, s: State)
    requires Inv(f, s) && Enabled(s, Reduce)
    ensures Inv(f, Apply(f, s, Reduce))
  {
    var s' := Apply(f, s, Reduce);
    assert Rounds.UserOk(s.net.users[0], s.net.rounds);
    forall m | 0 <= m < |s.out| ensures NodeOk(f, s', m) {
      assert NodeOk(f, s, m);
    }
    ReduceSteps(f, s, s');
  }

  lemma ReduceLocallyInv(f: MapFunc, s: State, n: nat)
    requires Inv(f, s) && Enabled(s, ReduceLocally(n))
    ensures Inv(f, Apply(f, s, ReduceLocally(n)))
  {
    var s' := Apply(f, s, ReduceLocally(n));
    forall m | 0 <= m < |s.out| ensures NodeOk(f, s', m) {
      assert NodeOk(f, s, m);
    }
    ReduceSteps(f, s, s');
  }

  lemma ReduceReportInv(f: MapFunc, s: State, n: nat)
    requires Inv(f, s) && Enabled(s, ReduceReport(n))
    ensures Inv(f, Apply(f, s, ReduceReport(n)))
  {
    var s' := Apply(f, s, ReduceReport(n));
    forall m | 0 <= m < |s.out| ensures NodeOk(f, s', m) {
      assert NodeOk(f, s, m);
    }
    ReduceSteps(f, s, s');
  }

  lemma StepInv(f: MapFunc, s: State, step: Step)
    requires Inv(f, s) && Enabled(s, step)
    ensures Inv(f, Apply(f, s, step))
  {
    match step
    case Map(u, pairs) => MapInv(f, s, u, pairs);
    case SendBatch(_, _, _) => SendInv(f, s, step);
    case SendEnd(_, _) => SendInv(f, s, step);
    case Deliver(u, n) => DeliverInv(f, s, u, n);
    case AwaitMap(u) => AwaitInv(f, s, u);
    case Report(_) => MessageSteps(f, s, step);
    case WakeArrives(_) => MessageSteps(f, s, step);
    case ReturnMap(u) => ReturnInv(f, s, u);
    case Reduce => ReduceStartInv(f, s);
    case ReduceLocally(n) => ReduceLocallyInv(f, s, n);
    case ReduceReport(n) => ReduceReportInv(f, s, n);
  }

  // ---- what it is for ----

  function Concat(parts: seq<seq<Pair>>): seq<Pair> {
    if parts == [] then [] else Concat(parts[..|parts| - 1]) + parts[|parts| - 1]
  }

  lemma {:induction false} ConcatTotal(parts: seq<seq<Pair>>, ms: seq<multiset<Pair>>)
    requires |ms| == |parts| && forall n :: 0 <= n < |parts| ==> ms[n] == multiset(parts[n])
    ensures multiset(Concat(parts)) == Total(ms)
  {
    if parts != [] {
      ConcatTotal(parts[..|parts| - 1], ms[..|ms| - 1]);
    }
  }

  lemma {:induction false} EmittedTotal(f: MapFunc, parts: seq<seq<Pair>>, out: seq<multiset<Pair>>, handed: seq<multiset<Pair>>)
    requires |out| == |handed| == |parts|
    requires forall n :: 0 <= n < |parts| ==> out[n] + handed[n] == multiset(Emitted(f, parts[n]))
    ensures Total(out) + Total(handed) == multiset(Emitted(f, Concat(parts)))
  {
    if parts != [] {
      var k := |parts| - 1;
      EmittedTotal(f, parts[..k], out[..k], handed[..k]);
      EmittedAppend(f, Concat(parts[..k]), parts[k]);
      assert Total(out) + Total(handed) == (Total(out[..k]) + Total(handed[..k])) + (out[k] + handed[k]);
    }
  }

  lemma EmittedWithout(f: MapFunc, b1: seq<Pair>, x: Pair, b2: seq<Pair>)
    ensures multiset(Emitted(f, b1 + [x] + b2)) == multiset(Emitted(f, b1 + b2)) + multiset(f(x.0, x.1))
  {
    EmittedAppend(f, b1, b2);
    EmittedAppend(f, b1 + [x], b2);
    EmittedAppend(f, b1, [x]);
    assert [x][..0] == [];
    assert Emitted(f, [x]) == f(x.0, x.1);
  }

  /** What a list of pairs emits does not depend on the order of the pairs. */
  lemma {:induction false} EmittedOrder(f: MapFunc, a: seq<Pair>, b: seq<Pair>)
    requires multiset(a) == multiset(b)
    ensures multiset(Emitted(f, a)) == multiset(Emitted(f, b))
    decreases |a|
  {
    assert |a| == |multiset(a)| == |multiset(b)| == |b|;
    if a != [] {
      var x, rest := a[|a| - 1], a[..|a| - 1];
      assert a == rest + [x];
      assert x in multiset(a);
      var i :| 0 <= i < |b| && b[i] == x;
      assert b == b[..i] + [x] + b[i + 1..];
      Shift(multiset(rest), multiset(b[..i] + b[i + 1..]), multiset{x}, multiset{});
      EmittedOrder(f, rest, b[..i] + b[i + 1..]);
      EmittedWithout(f, b[..i], x, b[i + 1..]);
    }
  }

  /** Every user is done sending and nothing is under way. */
  ghost predicate Settled(s: State)
    requires Shaped(s)
  {
    && (forall u :: 0 <= u < |s.net.users| ==> s.pos[u] == |s.input[u]|)
    && (forall u, n :: 0 <= u < |s.net.users| && 0 <= n < |s.net.users[u].chan| ==> s.net.users[u].chan[n] == [])
  }

  lemma SettledOwesNothing(s: State)
    requires Shaped(s) && Settled(s) && Conserved(s)
    ensures multiset(s.fed) == Total(AllDecoded(s))
  {
    forall u | 0 <= u < |s.net.users| ensures Owed(s, u) == multiset{} {
      TotalEmpty(Loads(s.net.users[u]));
      assert s.input[u][s.pos[u]..] == [];
    }
    TotalEmpty(AllOwed(s));
  }

  /** Nobody is in a newer round than the master's counter. */
  ghost predicate RoundsOver(s: State) {
    forall u :: 0 <= u < |s.net.users| ==> s.net.users[u].calls == s.net.rounds
  }

  lemma OverIsSettled(f: MapFunc, s: State)
    requires Inv(f, s) && RoundsOver(s)
    ensures Settled(s)
  {
    forall u | 0 <= u < |s.net.users| ensures s.pos[u] == |s.input[u]| {
      assert Rounds.UserOk(s.net.users[u], s.net.rounds) && SenderOk(s, u);
      if s.net.users[u].phase == Rounds.Calling {
        assert s.net.users[u].finished[0];
      }
    }
    forall u, n | 0 <= u < |s.net.users| && 0 <= n < |s.net.users[u].chan| ensures s.net.users[u].chan[n] == [] {
      assert Rounds.UserOk(s.net.users[u], s.net.rounds);
    }
  }

  /** The report counter and the wait list that Reduce shares with Map are clean when it starts. */
  lemma OverIsClean(s: State)
    requires Rounds.Inv(s.net) && RoundsOver(s)
    ensures s.net.doneCnt == 0 && s.net.waitlist == [] && forall n :: 0 <= n < |s.net.nodes| ==> s.net.nodes[n].reports == 0
  {
    forall n | 0 <= n < |s.net.nodes| ensures s.net.nodes[n].reports == 0 && s.net.nodes[n].flushes == s.net.rounds {
      assert Rounds.NodeOk(s.net, n) && !Rounds.Arrived(s.net, 0, n);
    }
    CountNone(Rounds.Reported(s.net));
    forall u: nat ensures multiset(s.net.waitlist)[u] == 0 {
      assert u < |s.net.users| ==> !Rounds.Arrived(s.net, u, 0);
    }
    assert multiset(s.net.waitlist) == multiset{};
    assert |s.net.waitlist| == |multiset(s.net.waitlist)|;
  }

  ghost predicate Path(f: MapFunc, s: State, steps: seq<Step>, s2: State)
    decreases |steps|
  {
    if steps == [] then s2 == s else Enabled(s, steps[0]) && Path(f, Apply(f, s, steps[0]), steps[1..], s2)
  }

  ghost predicate Run(f: MapFunc, users: nat, nodes: nat, steps: seq<Step>, s: State) {
    users > 0 && nodes > 0 && Path(f, Init(users, nodes), steps, s)
  }

  lemma InitInv(f: MapFunc, users: nat, nodes: nat)
    requires users > 0 && nodes > 0
    ensures Inv(f, Init(users, nodes))
  {
    var s := Init(users, nodes);
    Rounds.InitInv<seq<Pair>>(users, nodes);
    TotalEmpty(AllDecoded(s));
    forall u | 0 <= u < users ensures Owed(s, u) == multiset{} {
      TotalEmpty(Loads(s.net.users[u]));
    }
    TotalEmpty(AllOwed(s));
  }

  lemma {:induction false} PathInv(f: MapFunc, s: State, steps: seq<Step>, s2: State)
    requires Inv(f, s) && Path(f, s, steps, s2)
    ensures Inv(f, s2)
    decreases |steps|
  {
    if steps != [] {
      StepInv(f, s, steps[0]);
      PathInv(f, Apply(f, s, steps[0]), steps[1..], s2);
    }
  }

  /**
  No reduce starts before every node has all its map input: every input is sent and decoded, each
  pair exactly once on one node, and no report or wait-list entry of Map is left over.
  */
  lemma ReduceStartsComplete(f: MapFunc, users: nat, nodes: nat, steps: seq<Step>, s: State)
    requires Run(f, users, nodes, steps, s) && Enabled(s, Reduce)
    ensures Settled(s) && multiset(s.fed) == Total(AllDecoded(s))
    ensures s.net.doneCnt == 0 && s.net.waitlist == [] && forall n :: 0 <= n < |s.net.nodes| ==> s.net.nodes[n].reports == 0
  {
    InitInv(f, users, nodes);
    PathInv(f, Init(users, nodes), steps, s);
    assert Rounds.UserOk(s.net.users[0], s.net.rounds);
    OverIsSettled(f, s);
    SettledOwesNothing(s);
    OverIsClean(s);
  }

  /**
  Conservation: when a Reduce returns, the key/value pairs handed to DoReduce on all nodes are, as a
  multiset, exactly what DoMap emits over all inputs of all Map calls.
  */
  lemma ReduceConserves(f: MapFunc, users: nat, nodes: nat, steps: seq<Step>, s: State, n: nat)
    requires Run(f, users, nodes, steps, s) && Enabled(s, ReduceReport(n)) && Apply(f, s, ReduceReport(n)).reduce == Off
    ensures Total(s.handed) == multiset(Emitted(f, s.fed))
    ensures forall m :: 0 <= m < |s.out| ==> s.out[m] == multiset{}
  {
    InitInv(f, users, nodes);
    PathInv(f, Init(users, nodes), steps, s);
    NothingLeft(s, n);
    AllHanded(f, s);
  }

  lemma AllHanded(f: MapFunc, s: State)
    requires Inv(f, s) && RoundsOver(s) && forall m :: 0 <= m < |s.out| ==> s.out[m] == multiset{}
    ensures Total(s.handed) == multiset(Emitted(f, s.fed))
  {
    OverIsSettled(f, s);
    SettledOwesNothing(s);
    forall m | 0 <= m < |s.out| ensures s.out[m] + s.handed[m] == multiset(Emitted(f, s.decoded[m])) {
      assert NodeOk(f, s, m);
    }
    EmittedTotal(f, s.decoded, s.out, s.handed);
    TotalEmpty(s.out);
    ConcatTotal(s.decoded, AllDecoded(s));
    EmittedOrder(f, Concat(s.decoded), s.fed);
  }

  /** The last report comes when every node has reduced. */
  lemma NothingLeft(s: State, n: nat)
    requires Shaped(s) && ReduceOk(s) && s.reduce.On? && n in s.reduce.reports && s.reduce.done + 1 >= |s.out|
    ensures forall m :: 0 <= m < |s.out| ==> s.out[m] == multiset{}
  {
    assert |s.reduce.reports| >= 1;
    assert s.reduce.todo == {};
  }
}
