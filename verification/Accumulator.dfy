/**
The distributed vector accumulator as a step system on top of the round protocol.

A user's call runs the code of `_DoAccumulateAndWait` step by step: open every segment (an empty
one gets its final message at once), send the own segment, then scan the nodes again and again,
sending the next chunk wherever the socket is writable, while `done` is below the node count.
Chunks are cut densely or sparsely at will. Nodes add what they receive and, once all users have
finished, write their segment to the shared output array, of which the cache may lose elements.
*/
module Accumulator {
  import opened Chunks
  import opened Fates
  import opened Sums
  import Rounds

  /** The payload of one message: offset in words and data. */
  datatype Part = Part(off: nat, payload: Payload)

  /**
  `start` and `end` are the segments in words as every user computes them, `owner` the node of each
  element; lemma LayoutOk in module AccumulatorLayout shows that the source's arithmetic gives them
  the properties required here. `input(u, r)` is the vector user u passes to its call number r, and
  `fate(r, e)` what becomes of element e when its owner flushes it in round r.
  */
  datatype Config = Config(
    nodes: nat,
    dsm: Dsm,
    len: nat,                  // elements in the vector
    threshold: real,
    home: seq<nat>,            // the node each user runs on
    start: seq<nat>,
    end: seq<nat>,
    owner: seq<nat>,
    input: (nat, nat) -> seq<real>,
    fate: (nat, nat) -> Fate)

  datatype Pc = Out | Open(i: nat) | Head | Scan(i: nat)

  /** `cursor` is send_idx. `eff` is a history: the vectors as actually sent, one per call. */
  datatype Sender = Sender(pc: Pc, cursor: seq<nat>, done: nat, eff: seq<seq<real>>)

  /** `before` is a history: each element as it was when its owner last flushed. */
  datatype State = State(
    net: Rounds.State<Part>,
    senders: seq<Sender>,
    bufs: seq<seq<real>>,      // each node's local buffer
    arr: seq<real>,            // the shared output array
    before: seq<real>)

  datatype Step =
    | Call(u: nat)
    | OpenNext(u: nat)
    | SendOwn(u: nat)
    | Test(u: nat)                           // the while condition
    | Skip(u: nat)                           // nothing to send here, or the socket is not writable
    | SendChunk(u: nat, sparse: bool)
    | Deliver(u: nat, n: nat)
    | Report(n: nat)
    | WakeArrives(u: nat)
    | Return(u: nat)

  // ---- segments in words and in elements ----

  ghost predicate Ok(c: Config) {
    && c.nodes > 0 && |c.home| > 0
    && |c.start| == |c.end| == c.nodes && |c.owner| == c.len
    && (forall u :: 0 <= u < |c.home| ==> c.home[u] < c.nodes)
    && (forall u, r :: |c.input(u, r)| == c.len)
    && (forall n :: 0 <= n < c.nodes ==> SegmentOk(c, n))
    && (forall e :: 0 <= e < c.len ==> c.owner[e] < c.nodes && InSegment(c, c.owner[e], e))
    && (forall n: nat, e: nat :: n < c.nodes && InSegment(c, n, e) ==> e < c.len && c.owner[e] == n)
  }

  predicate SegmentOk(c: Config, n: nat)
    requires |c.start| == |c.end| == c.nodes && n < c.nodes
  {
    && Whole(c.start[n], c.dsm) && Whole(c.end[n], c.dsm)
    && (c.start[n] < c.end[n] ==> Elem(c.end[n], c.dsm) <= c.len)
  }

  predicate Empty(c: Config, i: nat)
    requires |c.start| == |c.end| == c.nodes && i < c.nodes
  {
    c.end[i] <= c.start[i]
  }

  /** First element of node n's segment, and the element after its last. */
  function Lo(c: Config, n: nat): nat
    requires |c.start| == |c.end| == c.nodes && n < c.nodes
  {
    Elem(c.start[n], c.dsm)
  }

  function Hi(c: Config, n: nat): (r: nat)
    requires |c.start| == |c.end| == c.nodes && n < c.nodes
    ensures Lo(c, n) <= r
  {
    if Empty(c, n) then Lo(c, n) else Elem(c.end[n], c.dsm)
  }

  lemma Segment(c: Config, n: nat)
    requires Ok(c) && n < c.nodes
    ensures SegmentOk(c, n) && (Hi(c, n) <= c.len || Empty(c, n))
  {
  }

  predicate InSegment(c: Config, n: nat, e: nat)
    requires |c.start| == |c.end| == c.nodes && n < c.nodes
  {
    Lo(c, n) <= e < Hi(c, n)
  }

  // ---- steps ----

  ghost function Init(c: Config, arr: seq<real>): State
    requires Ok(c)
  {
    State(Rounds.Init(|c.home|, c.nodes),
          seq(|c.home|, _ => Sender(Out, c.start, 1, [])),
          seq(c.nodes, n requires 0 <= n < c.nodes => Zeros(Hi(c, n) - Lo(c, n))),
          arr, arr)
  }

  function Zeros(n: nat): seq<real> {
    seq(n, _ => 0.0)
  }

  ghost predicate Shape(c: Config, s: State) {
    && Ok(c) && Rounds.Shape(s.net)
    && |s.net.users| == |s.senders| == |c.home| && |s.net.nodes| == |s.bufs| == c.nodes
    && |s.arr| == |s.before| == c.len
    && (forall u :: 0 <= u < |c.home| ==> SenderShape(c, s.senders[u], s.net.users[u].calls))
    && (forall n :: 0 <= n < c.nodes ==> |s.bufs[n]| == Hi(c, n) - Lo(c, n))
  }

  ghost predicate SenderShape(c: Config, x: Sender, calls: nat) {
    && |x.cursor| == c.nodes
    && |x.eff| == calls && (forall r :: 0 <= r < calls ==> |x.eff[r]| == c.len)
    && (x.pc != Out ==> calls > 0)
  }

  function OwnPart(c: Config, u: nat, x: seq<real>): Part
    requires |c.start| == |c.end| == c.nodes && u < |c.home| && c.home[u] < c.nodes && Hi(c, c.home[u]) <= |x|
  {
    Part(c.start[c.home[u]], Dense(x[Lo(c, c.home[u])..Hi(c, c.home[u])]))
  }

  /** Whether node k, the next in the scan of user u, still has something to be sent to it. */
  ghost predicate Pending(c: Config, s: State, u: nat, k: nat)
    requires Shape(c, s) && u < |c.home|
  {
    k < c.nodes && s.senders[u].cursor[k] < c.end[k] && k != c.home[u]
  }

  ghost function Vec(c: Config, s: State, u: nat): seq<real>
    requires Shape(c, s) && u < |c.home|
  {
    var k := s.net.users[u].calls;
    c.input(u, if k > 0 then k - 1 else 0)
  }

  ghost function Cut(c: Config, s: State, u: nat, k: nat, sparse: bool): Chunk
    requires Shape(c, s) && u < |c.home| && Pending(c, s, u, k) && CursorOk(c, s.senders[u], k)
  {
    Segment(c, k);
    NextChunk(Vec(c, s, u), sparse, c.threshold, s.senders[u].cursor[k], c.end[k], c.dsm)
  }

  ghost predicate CursorOk(c: Config, x: Sender, k: nat)
    requires |c.start| == |c.end| == c.nodes && k < |x.cursor| == c.nodes
  {
    && Whole(x.cursor[k], c.dsm)
    && (if Empty(c, k) then c.end[k] <= x.cursor[k] <= c.start[k]
        else c.start[k] <= x.cursor[k] <= c.end[k])
  }

  /** The protocol step a step performs on the network, if any. */
  ghost function NetStep(c: Config, s: State, step: Step): (r: seq<Rounds.Step<Part>>)
    requires Shape(c, s) && Enabled(c, s, step)
    requires step.SendChunk? ==> CursorOk(c, s.senders[step.u], s.senders[step.u].pc.i)
    ensures |r| <= 1
  {
    match step
    case Call(u) => [Rounds.Call(u)]
    case OpenNext(u) =>
      var i := s.senders[u].pc.i;
      if Empty(c, i) && i != c.home[u] then [Rounds.Send(u, i, Part(0, Dense([])), true)] else []
    case SendOwn(u) =>
      Segment(c, c.home[u]);
      [Rounds.Send(u, c.home[u], if Empty(c, c.home[u]) then Part(c.start[c.home[u]], Dense([])) else OwnPart(c, u, Vec(c, s, u)), true)]
    case Test(u) => if s.senders[u].done < c.nodes then [] else [Rounds.EndSend(u)]
    case Skip(_) => []
    case SendChunk(u, sparse) =>
      var k := s.senders[u].pc.i;
      var cut := Cut(c, s, u, k, sparse);
      [Rounds.Send(u, k, Part(s.senders[u].cursor[k], cut.payload), s.senders[u].cursor[k] + cut.advance == c.end[k])]
    case Deliver(u, n) => [Rounds.Deliver(u, n)]
    case Report(n) => [Rounds.Report(n)]
    case WakeArrives(u) => [Rounds.WakeArrives(u)]
    case Return(u) => [Rounds.Return(u)]
  }

  ghost predicate Enabled(c: Config, s: State, step: Step)
    requires Shape(c, s)
  {
    match step
    case Call(u) => u < |c.home| && s.net.users[u].phase == Rounds.Idle
    case OpenNext(u) => u < |c.home| && s.senders[u].pc.Open? && s.senders[u].pc.i < c.nodes
    case SendOwn(u) => u < |c.home| && s.senders[u].pc == Open(c.nodes)
    case Test(u) => u < |c.home| && s.senders[u].pc == Head
    case Skip(u) => u < |c.home| && s.senders[u].pc.Scan?
    case SendChunk(u, _) =>
      u < |c.home| && s.senders[u].pc.Scan? && Pending(c, s, u, s.senders[u].pc.i)
    case Deliver(u, n) => Rounds.Enabled(s.net, Rounds.Deliver(u, n))
    case Report(n) => Rounds.Enabled(s.net, Rounds.Report(n))
    case WakeArrives(u) => Rounds.Enabled(s.net, Rounds.WakeArrives(u))
    case Return(u) => Rounds.Enabled(s.net, Rounds.Return(u))
  }

  /**
  The index arithmetic and the network can do what the step asks for. This holds in every reachable
  state (lemma StepsAreReady), so it excludes no behaviour of the code.
  */
  ghost predicate Ready(c: Config, s: State, step: Step)
    requires Shape(c, s) && Enabled(c, s, step)
  {
    && (step.SendChunk? ==> CursorOk(c, s.senders[step.u], s.senders[step.u].pc.i))
    && forall k :: 0 <= k < |NetStep(c, s, step)| ==> Rounds.Enabled(s.net, NetStep(c, s, step)[k])
  }

  /** The vector a chunk makes of the effective one: a sparse chunk rounds the elements it covers. */
  function Overlay(eff: seq<real>, x: seq<real>, sparse: bool, t: real, from: nat, upto: nat): seq<real>
    requires |x| == |eff|
  {
    seq(|eff|, e requires 0 <= e < |eff| => if sparse && from <= e < upto then Kept(x[e], t) else eff[e])
  }

  ghost function NextSender(c: Config, s: State, step: Step, u: nat): Sender
    requires Shape(c, s) && Enabled(c, s, step) && Ready(c, s, step) && u < |c.home|
  {
    var x := s.senders[u];
    match step
    case Call(v) => if v != u then x else
      Sender(Open(0), c.start, 1, x.eff + [c.input(u, s.net.users[u].calls)])
    case OpenNext(v) => if v != u then x else
      x.(pc := Open(x.pc.i + 1), done := if Empty(c, x.pc.i) then x.done + 1 else x.done)
    case SendOwn(v) => if v != u then x else
      x.(pc := Head, cursor := x.cursor[c.home[u] := c.end[c.home[u]]])
    case Test(v) => if v != u then x else
      x.(pc := if x.done < c.nodes then Scan(0) else Out)
    case Skip(v) => if v != u then x else
      x.(pc := if x.pc.i < c.nodes then Scan(x.pc.i + 1) else Head)
    case SendChunk(v, sparse) => if v != u then x else
      var k := x.pc.i;
      var cut := Cut(c, s, u, k, sparse);
      var k' := x.cursor[k] + cut.advance;
      var last := |x.eff| - 1;
      Sender(Scan(k + 1), x.cursor[k := k'], if k' == c.end[k] then x.done + 1 else x.done,
             x.eff[last := Overlay(x.eff[last], Vec(c, s, u), sparse, c.threshold,
                                   Elem(x.cursor[k], c.dsm), Elem(k', c.dsm))])
    case Deliver(_, _) => x
    case Report(_) => x
    case WakeArrives(_) => x
    case Return(_) => x
  }

  /** BaseDoAccumulateDense/Sparse on a buffer whose first element is `base`. */
  function AddPart(dsm: Dsm, buf: seq<real>, base: nat, p: Part): seq<real> {
    seq(|buf|, e requires 0 <= e < |buf| => buf[e] + Contribution(p.payload, Elem(p.off, dsm), base + e))
  }

  /** Whether receiving this message makes node n flush. */
  ghost predicate Flushes(s: State, u: nat, n: nat)
    requires Rounds.Shape(s.net) && Rounds.Enabled(s.net, Rounds.Deliver(u, n))
  {
    s.net.users[u].chan[n][0].last && Rounds.CountFinal(s.net.nodes[n].val, |s.net.users|).1
  }

  function WriteAt(arr: seq<real>, at: nat, data: seq<real>): (r: seq<real>)
    requires at + |data| <= |arr|
    ensures |r| == |arr|
    ensures forall e {:trigger r[e]} :: 0 <= e < |arr| ==> r[e] == if at <= e < at + |data| then data[e - at] else arr[e]
  {
    arr[..at] + data + arr[at + |data|..]
  }

  /** What node n's flush of `sum` in round r makes of the shared array. */
  ghost function FlushTo(c: Config, arr: seq<real>, n: nat, r: nat, sum: seq<real>): (a: seq<real>)
    requires |c.start| == |c.end| == c.nodes && n < c.nodes && |sum| == Hi(c, n) - Lo(c, n) && (Hi(c, n) <= |arr| || sum == [])
    ensures |a| == |arr|
    ensures forall e {:trigger a[e]} :: 0 <= e < |arr| ==>
              a[e] == if InSegment(c, n, e) then AfterFlush(c.fate(r, e), arr[e], sum[e - Lo(c, n)]) else arr[e]
  {
    if sum == [] then arr
    else WriteAt(arr, Lo(c, n), seq(|sum|, e requires 0 <= e < |sum| => AfterFlush(c.fate(r, Lo(c, n) + e), arr[Lo(c, n) + e], sum[e])))
  }

  /** The part of the shared array that node n flushes to, remembered. */
  ghost function Remember(c: Config, before: seq<real>, n: nat, arr: seq<real>): (b: seq<real>)
    requires |c.start| == |c.end| == c.nodes && n < c.nodes && |before| == |arr| && (Hi(c, n) <= |arr| || Hi(c, n) == Lo(c, n))
    ensures |b| == |arr|
    ensures forall e {:trigger b[e]} :: 0 <= e < |arr| ==> b[e] == if InSegment(c, n, e) then arr[e] else before[e]
  {
    if Hi(c, n) == Lo(c, n) then before else WriteAt(before, Lo(c, n), arr[Lo(c, n)..Hi(c, n)])
  }

  ghost function Apply(c: Config, s: State, step: Step): State
    requires Shape(c, s) && Enabled(c, s, step) && Ready(c, s, step)
  {
    var ops := NetStep(c, s, step);
    var net := if ops == [] then s.net else Rounds.Apply(s.net, ops[0]);
    var senders := seq(|c.home|, u requires 0 <= u < |c.home| => NextSender(c, s, step, u));
    if step.Deliver? then
      var n := step.n;
      Segment(c, n);
      var sum := AddPart(c.dsm, s.bufs[n], Lo(c, n), s.net.users[step.u].chan[n][0].payload);
      if Flushes(s, step.u, n) then
        State(net, senders, s.bufs[n := Zeros(|sum|)],
              FlushTo(c, s.arr, n, s.net.nodes[n].flushes, sum), Remember(c, s.before, n, s.arr))
      else State(net, senders, s.bufs[n := sum], s.arr, s.before)
    else
      State(net, senders, s.bufs, s.arr, s.before)
  }

  // ---- invariant of one user: what it has sent so far ----

  function SumParts(c: Config, ps: seq<Part>, e: nat): real {
    if ps == [] then 0.0
    else
      var p := ps[|ps| - 1];
      SumParts(c, ps[..|ps| - 1], e) + Contribution(p.payload, Elem(p.off, c.dsm), e)
  }

  lemma SumPartsAppend(c: Config, ps: seq<Part>, p: Part, e: nat)
    ensures SumParts(c, ps + [p], e) == SumParts(c, ps, e) + Contribution(p.payload, Elem(p.off, c.dsm), e)
  {
    assert (ps + [p])[..|ps|] == ps;
  }

  /** Node k has been sent everything it will get in this call. */
  predicate DoneWith(c: Config, x: Sender, u: nat, k: nat)
    requires |c.start| == |c.end| == c.nodes && k < |x.cursor| == c.nodes && u < |c.home|
  {
    if x.pc.Open? then k < x.pc.i && Empty(c, k) && k != c.home[u]
    else Empty(c, k) || k == c.home[u] || x.cursor[k] == c.end[k]
  }

  ghost predicate CursorsOk(c: Config, x: Sender, y: Rounds.User<Part>, u: nat)
    requires Ok(c) && u < |c.home| && SenderShape(c, x, y.calls) && Rounds.UserShape(y, c.nodes)
  {
    && (x.pc == Out <==> y.phase != Rounds.Calling)
    && (x.pc.Open? ==> x.pc.i <= c.nodes && x.cursor == c.start)
    && (x.pc.Scan? ==> x.pc.i <= c.nodes)
    && (y.calls == 0 ==> x.cursor == c.start)
    && (y.calls > 0 && !x.pc.Open? ==> x.cursor[c.home[u]] == c.end[c.home[u]])
    && (forall k :: 0 <= k < c.nodes ==> CursorOk(c, x, k))
    && (y.calls > 0 ==> forall k :: 0 <= k < c.nodes ==> (y.finished[k] <==> DoneWith(c, x, u, k)))
  }

  /** What node k has been sent is exactly the effective vector up to the cursor. */
  ghost predicate SentOk(c: Config, x: Sender, y: Rounds.User<Part>, k: nat)
    requires Ok(c) && k < c.nodes && SenderShape(c, x, y.calls) && Rounds.UserShape(y, c.nodes)
  {
    y.calls > 0 ==> forall e: nat ::
      SumParts(c, y.sent[k], e) == if WasSent(c, x, k, e) then x.eff[y.calls - 1][e] else 0.0
  }

  /** Element e is in node k's segment and has been sent. */
  ghost predicate WasSent(c: Config, x: Sender, k: nat, e: nat)
    requires |c.start| == |c.end| == c.nodes && k < |x.cursor| == c.nodes
  {
    Lo(c, k) <= e < Elem(x.cursor[k], c.dsm) && e < c.len
  }

  /** The effective vectors stay within the threshold of the real ones; own segments are exact. */
  ghost predicate EffOk(c: Config, x: Sender, y: Rounds.User<Part>, u: nat)
    requires Ok(c) && u < |c.home| && SenderShape(c, x, y.calls)
  {
    && (forall r, e :: 0 <= r < y.calls && 0 <= e < c.len ==> Near(c, u, r, e, x.eff[r][e]))
    && (y.calls > 0 ==> forall k: nat, e: nat :: k < c.nodes && Unsent(c, x, k, e) ==>
          x.eff[y.calls - 1][e] == c.input(u, y.calls - 1)[e])
  }

  /** Element e is in node k's segment and has not been sent yet. */
  ghost predicate Unsent(c: Config, x: Sender, k: nat, e: nat)
    requires |c.start| == |c.end| == c.nodes && k < |x.cursor| == c.nodes
  {
    Lo(c, k) <= e < Hi(c, k) && Elem(x.cursor[k], c.dsm) <= e < c.len
  }

  ghost predicate Near(c: Config, u: nat, r: nat, e: nat, v: real)
    requires Ok(c) && u < |c.home| && e < c.len
  {
    var x := c.input(u, r)[e];
    v == x || (v == Kept(x, c.threshold) && c.owner[e] != c.home[u])
  }

  ghost predicate UserInv(c: Config, x: Sender, y: Rounds.User<Part>, u: nat)
    requires Ok(c) && u < |c.home| && SenderShape(c, x, y.calls) && Rounds.UserShape(y, c.nodes)
  {
    && CursorsOk(c, x, y, u) && EffOk(c, x, y, u)
    && forall k :: 0 <= k < c.nodes ==> SentOk(c, x, y, k)
  }

  /** A message for node n: either empty, or within the bounds the receiver asserts. */
  ghost predicate PartOk(c: Config, n: nat, p: Part)
    requires |c.start| == |c.end| == c.nodes && n < c.nodes
  {
    p.payload == Dense([]) || InBounds(p.payload, Elem(p.off, c.dsm), Lo(c, n), Hi(c, n) - Lo(c, n))
  }

  ghost predicate MessagesOk(c: Config, y: Rounds.User<Part>, n: nat)
    requires Ok(c) && n < c.nodes && Rounds.UserShape(y, c.nodes)
  {
    forall i :: 0 <= i < |y.chan[n]| ==> PartOk(c, n, y.chan[n][i].payload)
  }

  // ---- invariant of one node ----

  ghost function Shares(c: Config, s: State, n: nat, e: nat): seq<real>
    requires Shape(c, s) && n < c.nodes
  {
    seq(|c.home|, u requires 0 <= u < |c.home| =>
      if s.net.users[u].calls == s.net.rounds + 1 then SumParts(c, s.net.users[u].seen[n], e) else 0.0)
  }

  /** Element e of the vectors all users sent in round r. */
  ghost function Effs(c: Config, s: State, r: nat, e: nat): seq<real>
    requires Shape(c, s) && e < c.len
  {
    seq(|c.home|, u requires 0 <= u < |c.home| => if r < |s.senders[u].eff| then s.senders[u].eff[r][e] else 0.0)
  }

  ghost predicate BufOk(c: Config, s: State, n: nat)
    requires Shape(c, s) && n < c.nodes
  {
    forall e: nat :: InSegment(c, n, e) ==>
      s.bufs[n][e - Lo(c, n)] == if s.net.nodes[n].flushes == s.net.rounds then Sum(Shares(c, s, n, e)) else 0.0
  }

  ghost predicate ArrOk(c: Config, s: State, n: nat)
    requires Shape(c, s) && n < c.nodes
  {
    forall e: nat :: e < c.len && InSegment(c, n, e) && s.net.nodes[n].flushes > 0 ==>
      s.arr[e] == AfterFlush(c.fate(s.net.nodes[n].flushes - 1, e), s.before[e], Sum(Effs(c, s, s.net.nodes[n].flushes - 1, e)))
  }

  /** The shared array, and what it was before the flushes, are the same in node n's segment. */
  predicate SameArray(c: Config, s: State, s': State, n: nat)
    requires |c.start| == |c.end| == c.nodes && n < c.nodes && |s.arr| == |s.before| == |s'.arr| == |s'.before| == c.len
  {
    forall e: nat {:trigger s'.arr[e]} :: e < c.len && InSegment(c, n, e) ==> s'.arr[e] == s.arr[e] && s'.before[e] == s.before[e]
  }

  ghost predicate Inv(c: Config, s: State) {
    && Shape(c, s) && Rounds.Inv(s.net)
    && (forall u {:trigger UserInv(c, s.senders[u], s.net.users[u], u)} :: 0 <= u < |c.home| ==>
          UserInv(c, s.senders[u], s.net.users[u], u))
    && (forall u, n {:trigger MessagesOk(c, s.net.users[u], n)} :: 0 <= u < |c.home| && 0 <= n < c.nodes ==>
          MessagesOk(c, s.net.users[u], n))
    && (forall n {:trigger BufOk(c, s, n)} {:trigger ArrOk(c, s, n)} :: 0 <= n < c.nodes ==> BufOk(c, s, n) && ArrOk(c, s, n))
  }

  // ---- preservation: users ----

  lemma InitInv(c: Config, arr: seq<real>)
    requires Ok(c) && |arr| == c.len
    ensures Inv(c, Init(c, arr))
  {
    var s := Init(c, arr);
    Rounds.InitInv<Part>(|c.home|, c.nodes);
    forall n | 0 <= n < c.nodes
      ensures |s.bufs[n]| == Hi(c, n) - Lo(c, n) && CursorOk(c, Sender(Out, c.start, 1, []), n)
    {
      Segment(c, n);
    }
    forall n: nat, e: nat | n < c.nodes && InSegment(c, n, e) ensures Sum(Shares(c, s, n, e)) == 0.0 {
      SumZero(Shares(c, s, n, e));
    }
  }

  /** A user that does nothing keeps its invariant. */
  lemma UserRests(c: Config, x: Sender, y: Rounds.User<Part>, y': Rounds.User<Part>, u: nat)
    requires Ok(c) && u < |c.home| && SenderShape(c, x, y.calls) && Rounds.UserShape(y, c.nodes) && UserInv(c, x, y, u)
    requires Rounds.UserShape(y', c.nodes)
    requires y'.calls == y.calls && y'.finished == y.finished && y'.sent == y.sent
    requires y'.phase == Rounds.Calling <==> y.phase == Rounds.Calling
    ensures UserInv(c, x, y', u)
  {
    forall k | 0 <= k < c.nodes ensures SentOk(c, x, y', k) {
      assert SentOk(c, x, y, k);
    }
  }

  lemma CallUser(c: Config, s: State, u: nat)
    requires Inv(c, s) && Enabled(c, s, Call(u))
    ensures var step := Call(u);
            SenderShape(c, NextSender(c, s, step, u), s.net.users[u].calls + 1)
            && UserInv(c, NextSender(c, s, step, u), Rounds.Apply(s.net, Rounds.Call(u)).users[u], u)
  {
    var x := NextSender(c, s, Call(u), u);
    var y := Rounds.Apply(s.net, Rounds.Call(u)).users[u];
    assert UserInv(c, s.senders[u], s.net.users[u], u);
    forall k | 0 <= k < c.nodes ensures CursorOk(c, x, k) && SentOk(c, x, y, k) {
      Segment(c, k);
    }
    assert CursorsOk(c, x, y, u);
    assert x.eff[y.calls - 1] == c.input(u, y.calls - 1);
  }

  /** No step is ever blocked by the index arithmetic or by the network. */
  lemma StepsAreReady(c: Config, s: State, step: Step)
    requires Inv(c, s) && Enabled(c, s, step)
    ensures Ready(c, s, step)
  {
    if step.OpenNext? || step.SendOwn? || step.Test? || step.SendChunk? {
      var u := step.u;
      assert UserInv(c, s.senders[u], s.net.users[u], u);
      CallerIsReady(c, s, step);
    }
  }

  lemma CallerIsReady(c: Config, s: State, step: Step)
    requires Shape(c, s) && Enabled(c, s, step)
    requires step.OpenNext? || step.SendOwn? || step.Test? || step.SendChunk?
    requires CursorsOk(c, s.senders[step.u], s.net.users[step.u], step.u)
    ensures Ready(c, s, step)
  {
    var x, y, u := s.senders[step.u], s.net.users[step.u], step.u;
    if step.OpenNext? {
      StillOpen(c, x, y, u, x.pc.i);
    } else if step.SendOwn? {
      StillOpen(c, x, y, u, c.home[u]);
    } else if step.SendChunk? {
      StillOpen(c, x, y, u, x.pc.i);
    }
  }

  /** A node still has no final message when its segment is being opened, is the own one before it is sent, or has data left. */
  lemma StillOpen(c: Config, x: Sender, y: Rounds.User<Part>, u: nat, k: nat)
    requires Ok(c) && u < |c.home| && SenderShape(c, x, y.calls) && Rounds.UserShape(y, c.nodes)
    requires CursorsOk(c, x, y, u) && k < c.nodes && x.pc != Out
    requires (x.pc.Open? && (k == x.pc.i || k == c.home[u])) || (x.pc.Scan? && x.cursor[k] < c.end[k] && k != c.home[u])
    ensures CursorOk(c, x, k) && !y.finished[k]
  {
    assert y.finished[k] <==> DoneWith(c, x, u, k);
  }

  /** The user's side of the network after a step. */
  ghost function NetUser(c: Config, s: State, step: Step, u: nat): Rounds.User<Part>
    requires Shape(c, s) && Enabled(c, s, step) && Ready(c, s, step) && u < |c.home|
    ensures Rounds.UserShape(NetUser(c, s, step, u), c.nodes)
  {
    var ops := NetStep(c, s, step);
    if ops == [] then s.net.users[u]
    else
      if step.Deliver? || step.Report? || step.WakeArrives? then
        Rounds.ReceivingFrame(s.net, ops[0], u);
        Rounds.Apply(s.net, ops[0]).users[u]
      else Rounds.Apply(s.net, ops[0]).users[u]
  }

  ghost predicate UserKept(c: Config, s: State, step: Step, u: nat)
    requires Shape(c, s) && Enabled(c, s, step) && Ready(c, s, step) && u < |c.home|
  {
    && SenderShape(c, NextSender(c, s, step, u), NetUser(c, s, step, u).calls)
    && UserInv(c, NextSender(c, s, step, u), NetUser(c, s, step, u), u)
  }

  lemma OpenUser(c: Config, s: State, u: nat)
    requires Inv(c, s) && Enabled(c, s, OpenNext(u)) && Ready(c, s, OpenNext(u))
    ensures UserKept(c, s, OpenNext(u), u)
  {
    var step := OpenNext(u);
    assert UserInv(c, s.senders[u], s.net.users[u], u);
    OpenKeeps(c, s.senders[u], s.net.users[u], NextSender(c, s, step, u), NetUser(c, s, step, u), u);
  }

  /** Opening a segment may send an empty message, which adds nothing. */
  lemma OpenKeeps(c: Config, x: Sender, y: Rounds.User<Part>, x': Sender, y': Rounds.User<Part>, u: nat)
    requires Ok(c) && u < |c.home| && SenderShape(c, x, y.calls) && Rounds.UserShape(y, c.nodes) && UserInv(c, x, y, u)
    requires x.pc.Open? && x.pc.i < c.nodes && x' == x.(pc := Open(x.pc.i + 1), done := x'.done)
    requires Rounds.UserShape(y', c.nodes) && y'.calls == y.calls && y'.phase == y.phase
    requires if Empty(c, x.pc.i) && x.pc.i != c.home[u] then
               y'.finished == y.finished[x.pc.i := true] && y'.sent == y.sent[x.pc.i := y.sent[x.pc.i] + [Part(0, Dense([]))]]
             else y'.finished == y.finished && y'.sent == y.sent
    ensures UserInv(c, x', y', u)
  {
    forall k | 0 <= k < c.nodes ensures SentOk(c, x', y', k) && (y'.finished[k] <==> DoneWith(c, x', u, k)) {
      assert SentOk(c, x, y, k) && (y.finished[k] <==> DoneWith(c, x, u, k));
      EmptyMessageSent(c, x, y, x', y', k);
    }
    assert forall k :: 0 <= k < c.nodes ==> CursorOk(c, x, k) ==> CursorOk(c, x', k);
    assert forall k: nat, e: nat :: k < c.nodes ==> Unsent(c, x', k, e) == Unsent(c, x, k, e);
  }

  lemma EmptyMessageSent(c: Config, x: Sender, y: Rounds.User<Part>, x': Sender, y': Rounds.User<Part>, k: nat)
    requires Ok(c) && k < c.nodes && SenderShape(c, x, y.calls) && Rounds.UserShape(y, c.nodes) && SentOk(c, x, y, k)
    requires SenderShape(c, x', y'.calls) && x'.cursor == x.cursor && x'.eff == x.eff
    requires Rounds.UserShape(y', c.nodes) && y'.calls == y.calls
    requires y'.sent[k] == y.sent[k] || y'.sent[k] == y.sent[k] + [Part(0, Dense([]))]
    ensures SentOk(c, x', y', k)
  {
    forall e: nat ensures SumParts(c, y'.sent[k], e) == SumParts(c, y.sent[k], e) {
      SumPartsAppend(c, y.sent[k], Part(0, Dense([])), e);
    }
    assert forall e: nat :: WasSent(c, x', k, e) == WasSent(c, x, k, e);
  }

  lemma TestUser(c: Config, s: State, u: nat, step: Step)
    requires step == Test(u) || step == Skip(u)
    requires Inv(c, s) && Enabled(c, s, step) && Ready(c, s, step)
    ensures UserKept(c, s, step, u)
  {
    var x, y := s.senders[u], s.net.users[u];
    var x', y' := NextSender(c, s, step, u), NetUser(c, s, step, u);
    assert UserInv(c, x, y, u);
    forall k | 0 <= k < c.nodes ensures SentOk(c, x', y', k) && CursorOk(c, x', k) {
      assert SentOk(c, x, y, k) && CursorOk(c, x, k);
    }
    assert forall k :: 0 <= k < c.nodes ==> DoneWith(c, x', u, k) == DoneWith(c, x, u, k);
    assert forall k: nat, e: nat :: k < c.nodes ==> Unsent(c, x', k, e) == Unsent(c, x, k, e);
  }

  lemma ReturnUser(c: Config, s: State, u: nat)
    requires Inv(c, s) && Enabled(c, s, Return(u)) && Ready(c, s, Return(u))
    ensures UserKept(c, s, Return(u), u)
  {
    assert UserInv(c, s.senders[u], s.net.users[u], u);
    UserRests(c, s.senders[u], s.net.users[u], NetUser(c, s, Return(u), u), u);
  }

  /** The own segment, sent whole and exactly. */
  lemma OwnUser(c: Config, s: State, u: nat)
    requires Inv(c, s) && Enabled(c, s, SendOwn(u)) && Ready(c, s, SendOwn(u))
    ensures UserKept(c, s, SendOwn(u), u)
  {
    var step := SendOwn(u);
    assert UserInv(c, s.senders[u], s.net.users[u], u);
    Segment(c, c.home[u]);
    OwnKeeps(c, s.senders[u], s.net.users[u], NextSender(c, s, step, u), NetUser(c, s, step, u), u,
             NetStep(c, s, step)[0].payload);
  }

  lemma OwnKeeps(c: Config, x: Sender, y: Rounds.User<Part>, x': Sender, y': Rounds.User<Part>, u: nat, p: Part)
    requires Ok(c) && u < |c.home| && SenderShape(c, x, y.calls) && Rounds.UserShape(y, c.nodes) && UserInv(c, x, y, u)
    requires x.pc == Open(c.nodes) && x' == x.(pc := Head, cursor := x.cursor[c.home[u] := c.end[c.home[u]]])
    requires Hi(c, c.home[u]) <= c.len || Empty(c, c.home[u])
    requires p == if Empty(c, c.home[u]) then Part(c.start[c.home[u]], Dense([])) else OwnPart(c, u, c.input(u, y.calls - 1))
    requires y' == y.(chan := y'.chan, finished := y.finished[c.home[u] := true],
                      sent := y.sent[c.home[u] := y.sent[c.home[u]] + [p]])
    requires |y'.chan| == c.nodes
    ensures UserInv(c, x', y', u)
  {
    var h := c.home[u];
    Segment(c, h);
    OwnContribution(c, x, y, u, p);
    forall k | 0 <= k < c.nodes
      ensures SentOk(c, x', y', k) && CursorOk(c, x', k) && (y'.finished[k] <==> DoneWith(c, x', u, k))
    {
      assert SentOk(c, x, y, k) && CursorOk(c, x, k) && (y.finished[k] <==> DoneWith(c, x, u, k));
      if k == h {
        forall e: nat ensures SumParts(c, y'.sent[h], e) == if WasSent(c, x', h, e) then x.eff[y.calls - 1][e] else 0.0 {
          SumPartsAppend(c, y.sent[h], p, e);
        }
      } else {
        assert forall e: nat :: WasSent(c, x', k, e) == WasSent(c, x, k, e);
      }
    }
    assert forall k: nat, e: nat :: k < c.nodes && Unsent(c, x', k, e) ==> Unsent(c, x, k, e);
  }

  lemma OwnContribution(c: Config, x: Sender, y: Rounds.User<Part>, u: nat, p: Part)
    requires Ok(c) && u < |c.home| && SenderShape(c, x, y.calls) && Rounds.UserShape(y, c.nodes)
    requires EffOk(c, x, y, u) && x.pc == Open(c.nodes) && x.cursor == c.start
    requires Hi(c, c.home[u]) <= c.len || Empty(c, c.home[u])
    requires p == if Empty(c, c.home[u]) then Part(c.start[c.home[u]], Dense([])) else OwnPart(c, u, c.input(u, y.calls - 1))
    ensures PartOk(c, c.home[u], p)
    ensures forall e: nat :: Contribution(p.payload, Elem(p.off, c.dsm), e) ==
              if Lo(c, c.home[u]) <= e < Hi(c, c.home[u]) then x.eff[y.calls - 1][e] else 0.0
  {
    var h := c.home[u];
    forall e: nat | Unsent(c, x, h, e) ensures x.eff[y.calls - 1][e] == c.input(u, y.calls - 1)[e] {
    }
    forall e: nat
      ensures Contribution(p.payload, Elem(p.off, c.dsm), e) == if Lo(c, h) <= e < Hi(c, h) then x.eff[y.calls - 1][e] else 0.0
    {
      if InSegment(c, h, e) {
        assert Unsent(c, x, h, e);
      }
    }
  }

  lemma SentIsInSegment(c: Config, x: Sender, k: nat, e: nat)
    requires Ok(c) && k < c.nodes && |x.cursor| == c.nodes && CursorOk(c, x, k) && WasSent(c, x, k, e)
    ensures InSegment(c, k, e) && c.owner[e] == k
  {
    assert InSegment(c, k, e);
  }

  lemma CutIsGood(c: Config, s: State, u: nat, sparse: bool)
    requires Shape(c, s) && Enabled(c, s, SendChunk(u, sparse)) && CursorOk(c, s.senders[u], s.senders[u].pc.i)
    ensures var (x, k) := (s.senders[u], s.senders[u].pc.i);
            var cut := Cut(c, s, u, k, sparse);
            Sound(cut, x.cursor[k], c.end[k], c.dsm) && Worth(cut, Vec(c, s, u), sparse, c.threshold, x.cursor[k], c.dsm)
  {
    var x, k := s.senders[u], s.senders[u].pc.i;
    Segment(c, k);
    NextChunkCovers(Vec(c, s, u), sparse, c.threshold, x.cursor[k], c.end[k], c.dsm);
  }

  /** The next chunk for node k: it extends what was sent by the elements it advances over. */
  lemma ChunkUser(c: Config, s: State, u: nat, sparse: bool)
    requires Inv(c, s) && Enabled(c, s, SendChunk(u, sparse)) && Ready(c, s, SendChunk(u, sparse))
    ensures UserKept(c, s, SendChunk(u, sparse), u)
  {
    var step := SendChunk(u, sparse);
    var x, y, k := s.senders[u], s.net.users[u], s.senders[u].pc.i;
    assert UserInv(c, x, y, u);
    Segment(c, k);
    var cut := Cut(c, s, u, k, sparse);
    CutIsGood(c, s, u, sparse);
    ChunkKeeps(c, x, y, NextSender(c, s, step, u), NetUser(c, s, step, u), u, k, sparse, cut,
               Part(x.cursor[k], cut.payload));
  }

  lemma ChunkKeeps(c: Config, x: Sender, y: Rounds.User<Part>, x': Sender, y': Rounds.User<Part>,
                   u: nat, k: nat, sparse: bool, cut: Chunk, p: Part)
    requires Ok(c) && u < |c.home| && SenderShape(c, x, y.calls) && Rounds.UserShape(y, c.nodes) && UserInv(c, x, y, u)
    requires k < c.nodes && k != c.home[u] && x.pc == Scan(k) && x.cursor[k] < c.end[k] && Elem(c.end[k], c.dsm) <= c.len
    requires CursorOk(c, x, k) && Whole(c.end[k], c.dsm)
    requires Sound(cut, x.cursor[k], c.end[k], c.dsm) && Worth(cut, c.input(u, y.calls - 1), sparse, c.threshold, x.cursor[k], c.dsm)
    requires p == Part(x.cursor[k], cut.payload)
    requires x' == Sender(Scan(k + 1), x.cursor[k := x.cursor[k] + cut.advance], x'.done,
                          x.eff[y.calls - 1 := Overlay(x.eff[y.calls - 1], c.input(u, y.calls - 1), sparse, c.threshold,
                                                       Elem(x.cursor[k], c.dsm), Elem(x.cursor[k] + cut.advance, c.dsm))])
    requires y' == y.(chan := y'.chan, finished := y.finished[k := x.cursor[k] + cut.advance == c.end[k]],
                      sent := y.sent[k := y.sent[k] + [p]])
    requires |y'.chan| == c.nodes
    ensures SenderShape(c, x', y'.calls) && UserInv(c, x', y', u)
  {
    assert y.finished[k] <==> DoneWith(c, x, u, k);
    ChunkSent(c, x, y, x', y', u, k, sparse, cut, p);
    ChunkEff(c, x, y, x', y', u, k, sparse, cut);
    forall j | 0 <= j < c.nodes
      ensures SentOk(c, x', y', j) && CursorOk(c, x', j) && (y'.finished[j] <==> DoneWith(c, x', u, j))
    {
      assert SentOk(c, x, y, j) && CursorOk(c, x, j) && (y.finished[j] <==> DoneWith(c, x, u, j));
      if j != k {
        OthersUnchanged(c, x, y, x', y', k, j, Elem(x.cursor[k], c.dsm), Elem(x.cursor[k] + cut.advance, c.dsm));
      }
    }
  }

  lemma ChunkSent(c: Config, x: Sender, y: Rounds.User<Part>, x': Sender, y': Rounds.User<Part>,
                  u: nat, k: nat, sparse: bool, cut: Chunk, p: Part)
    requires Ok(c) && u < |c.home| && SenderShape(c, x, y.calls) && Rounds.UserShape(y, c.nodes) && y.calls > 0
    requires k < c.nodes && SentOk(c, x, y, k) && EffOk(c, x, y, u) && x.cursor[k] < c.end[k] && Elem(c.end[k], c.dsm) <= c.len
    requires CursorOk(c, x, k) && Whole(c.end[k], c.dsm)
    requires Sound(cut, x.cursor[k], c.end[k], c.dsm) && Worth(cut, c.input(u, y.calls - 1), sparse, c.threshold, x.cursor[k], c.dsm)
    requires p == Part(x.cursor[k], cut.payload)
    requires SenderShape(c, x', y'.calls) && Rounds.UserShape(y', c.nodes) && y'.calls == y.calls
    requires x'.cursor[k] == x.cursor[k] + cut.advance
    requires x'.eff[y.calls - 1] == Overlay(x.eff[y.calls - 1], c.input(u, y.calls - 1), sparse, c.threshold,
                                            Elem(x.cursor[k], c.dsm), Elem(x.cursor[k] + cut.advance, c.dsm))
    requires y'.sent[k] == y.sent[k] + [p]
    ensures SentOk(c, x', y', k)
  {
    var v, r := c.input(u, y.calls - 1), y.calls - 1;
    var from, upto := Elem(x.cursor[k], c.dsm), Elem(x.cursor[k] + cut.advance, c.dsm);
    forall e: nat
      ensures SumParts(c, y'.sent[k], e) == if WasSent(c, x', k, e) then x'.eff[r][e] else 0.0
    {
      SumPartsAppend(c, y.sent[k], p, e);
      assert SumParts(c, y.sent[k], e) == if WasSent(c, x, k, e) then x.eff[r][e] else 0.0;
      if from <= e < upto {
        assert Unsent(c, x, k, e);
      }
    }
  }

  lemma OthersUnchanged(c: Config, x: Sender, y: Rounds.User<Part>, x': Sender, y': Rounds.User<Part>,
                        k: nat, j: nat, from: nat, upto: nat)
    requires Ok(c) && SenderShape(c, x, y.calls) && Rounds.UserShape(y, c.nodes) && y.calls > 0
    requires k < c.nodes && j < c.nodes && j != k && SentOk(c, x, y, j) && CursorOk(c, x, j)
    requires SenderShape(c, x', y'.calls) && Rounds.UserShape(y', c.nodes) && y'.calls == y.calls
    requires x'.cursor[j] == x.cursor[j] && y'.sent[j] == y.sent[j]
    requires Lo(c, k) <= from <= upto <= Hi(c, k)
    requires var v, v' := x.eff[y.calls - 1], x'.eff[y.calls - 1];
             forall e :: 0 <= e < c.len && !(from <= e < upto) ==> v'[e] == v[e]
    ensures SentOk(c, x', y', j)
  {
    forall e: nat
      ensures SumParts(c, y'.sent[j], e) == if WasSent(c, x', j, e) then x'.eff[y.calls - 1][e] else 0.0
    {
      assert SumParts(c, y.sent[j], e) == if WasSent(c, x, j, e) then x.eff[y.calls - 1][e] else 0.0;
      if WasSent(c, x, j, e) {
        SentIsInSegment(c, x, j, e);
        assert !InSegment(c, k, e);
      }
    }
  }

  lemma ChunkEff(c: Config, x: Sender, y: Rounds.User<Part>, x': Sender, y': Rounds.User<Part>,
                 u: nat, k: nat, sparse: bool, cut: Chunk)
    requires Ok(c) && u < |c.home| && SenderShape(c, x, y.calls) && y.calls > 0 && EffOk(c, x, y, u)
    requires k < c.nodes && k != c.home[u] && x.cursor[k] < c.end[k] && CursorOk(c, x, k)
    requires x.cursor[k] + cut.advance <= c.end[k] && Whole(x.cursor[k] + cut.advance, c.dsm)
    requires SenderShape(c, x', y'.calls) && y'.calls == y.calls
    requires x'.cursor == x.cursor[k := x.cursor[k] + cut.advance]
    requires x'.eff == x.eff[y.calls - 1 := Overlay(x.eff[y.calls - 1], c.input(u, y.calls - 1), sparse, c.threshold,
                                                     Elem(x.cursor[k], c.dsm), Elem(x.cursor[k] + cut.advance, c.dsm))]
    ensures EffOk(c, x', y', u)
  {
    var from, upto := Elem(x.cursor[k], c.dsm), Elem(x.cursor[k] + cut.advance, c.dsm);
    forall r, e | 0 <= r < y.calls && 0 <= e < c.len ensures Near(c, u, r, e, x'.eff[r][e]) {
      assert Near(c, u, r, e, x.eff[r][e]);
      if r == y.calls - 1 && from <= e < upto {
        assert InSegment(c, k, e);
      }
    }
    forall j: nat, e: nat | j < c.nodes && Unsent(c, x', j, e)
      ensures x'.eff[y.calls - 1][e] == c.input(u, y.calls - 1)[e]
    {
      assert Unsent(c, x, j, e);
      if from <= e < upto {
        assert InSegment(c, k, e) && InSegment(c, j, e);
      }
    }
  }

  ghost predicate ActsFor(step: Step, u: nat) {
    match step
    case Deliver(_, _) => false
    case Report(_) => false
    case WakeArrives(_) => false
    case _ => step.u == u
  }

  lemma EveryUserKept(c: Config, s: State, step: Step, u: nat)
    requires Inv(c, s) && Enabled(c, s, step) && Ready(c, s, step) && u < |c.home|
    ensures UserKept(c, s, step, u)
  {
    if ActsFor(step, u) {
      match step
      case Call(_) => CallUser(c, s, u);
      case OpenNext(_) => OpenUser(c, s, u);
      case SendOwn(_) => OwnUser(c, s, u);
      case Test(_) => TestUser(c, s, u, step);
      case Skip(_) => TestUser(c, s, u, step);
      case SendChunk(_, sparse) => ChunkUser(c, s, u, sparse);
      case Return(_) => ReturnUser(c, s, u);
    } else {
      RestingUser(c, s, step, u);
    }
  }

  lemma RestingUser(c: Config, s: State, step: Step, u: nat)
    requires Inv(c, s) && Enabled(c, s, step) && Ready(c, s, step) && u < |c.home| && !ActsFor(step, u)
    ensures UserKept(c, s, step, u)
  {
    assert UserInv(c, s.senders[u], s.net.users[u], u);
    var ops := NetStep(c, s, step);
    if step.Deliver? || step.Report? || step.WakeArrives? {
      Rounds.ReceivingFrame(s.net, ops[0], u);
    }
    UserRests(c, s.senders[u], s.net.users[u], NetUser(c, s, step, u), u);
  }

  lemma OwnMessageKept(c: Config, s: State, u: nat, n: nat)
    requires Inv(c, s) && Enabled(c, s, SendOwn(u)) && Ready(c, s, SendOwn(u)) && n < c.nodes
    ensures MessagesOk(c, NetUser(c, s, SendOwn(u), u), n)
  {
    assert MessagesOk(c, s.net.users[u], n) && UserInv(c, s.senders[u], s.net.users[u], u);
    Segment(c, c.home[u]);
    OwnContribution(c, s.senders[u], s.net.users[u], u, NetStep(c, s, SendOwn(u))[0].payload);
  }

  lemma ChunkMessageKept(c: Config, s: State, u: nat, sparse: bool, n: nat)
    requires Inv(c, s) && Enabled(c, s, SendChunk(u, sparse)) && Ready(c, s, SendChunk(u, sparse)) && n < c.nodes
    ensures MessagesOk(c, NetUser(c, s, SendChunk(u, sparse), u), n)
  {
    assert MessagesOk(c, s.net.users[u], n) && UserInv(c, s.senders[u], s.net.users[u], u);
    var k := s.senders[u].pc.i;
    Segment(c, k);
    ChunkInBounds(c, s.senders[u], Vec(c, s, u), k, sparse);
    ChunkAppends(c, s, u, sparse, n);
  }

  /** The chunk goes to the end of the queue to the node it is for. */
  lemma ChunkAppends(c: Config, s: State, u: nat, sparse: bool, n: nat)
    requires Shape(c, s) && Enabled(c, s, SendChunk(u, sparse)) && Ready(c, s, SendChunk(u, sparse)) && n < c.nodes
    ensures var k := s.senders[u].pc.i;
            var (q, q') := (s.net.users[u].chan[n], NetUser(c, s, SendChunk(u, sparse), u).chan[n]);
            if n != k then q' == q
            else |q'| == |q| + 1 && q'[..|q|] == q && q'[|q|].payload == Part(s.senders[u].cursor[k], Cut(c, s, u, k, sparse).payload)
  {
  }

  /** Everything put into a channel satisfies the receiver's bound asserts. */
  lemma EveryMessageKept(c: Config, s: State, step: Step, u: nat, n: nat)
    requires Inv(c, s) && Enabled(c, s, step) && Ready(c, s, step) && u < |c.home| && n < c.nodes
    ensures MessagesOk(c, NetUser(c, s, step, u), n)
  {
    assert MessagesOk(c, s.net.users[u], n);
    if step.Deliver? || step.Report? || step.WakeArrives? {
      Rounds.ReceivingFrame(s.net, NetStep(c, s, step)[0], u);
    } else if step.SendOwn? && step.u == u {
      OwnMessageKept(c, s, u, n);
    } else if step.SendChunk? && step.u == u {
      ChunkMessageKept(c, s, u, step.sparse, n);
    }
  }

  lemma ChunkInBounds(c: Config, x: Sender, v: seq<real>, k: nat, sparse: bool)
    requires Ok(c) && k < c.nodes && |x.cursor| == c.nodes && CursorOk(c, x, k) && x.cursor[k] < c.end[k]
    requires |v| == c.len && Whole(c.end[k], c.dsm) && Elem(c.end[k], c.dsm) <= c.len
    ensures PartOk(c, k, Part(x.cursor[k], NextChunk(v, sparse, c.threshold, x.cursor[k], c.end[k], c.dsm).payload))
  {
    NextChunkSound(v, sparse, c.threshold, x.cursor[k], c.end[k], c.dsm);
    var cut := NextChunk(v, sparse, c.threshold, x.cursor[k], c.end[k], c.dsm);
    BoundsGrow(cut.payload, Elem(x.cursor[k], c.dsm), Elem(x.cursor[k], c.dsm), Elem(cut.advance, c.dsm), Lo(c, k), Hi(c, k) - Lo(c, k));
  }

  lemma BoundsGrow(p: Payload, off: nat, base: nat, len: nat, base': nat, len': nat)
    requires InBounds(p, off, base, len) && base' <= base && base + len <= base' + len'
    ensures InBounds(p, off, base', len')
  {
  }

  // ---- preservation: nodes and the shared array ----

  ghost predicate NodeKept(c: Config, s': State, n: nat)
    requires Ok(c) && n < c.nodes
  {
    Shape(c, s') && BufOk(c, s', n) && ArrOk(c, s', n)
  }

  /** A node whose buffer, flush count and contributions do not change. */
  lemma NodeRests(c: Config, s: State, s': State, n: nat)
    requires Shape(c, s) && Shape(c, s') && n < c.nodes && BufOk(c, s, n) && ArrOk(c, s, n)
    requires s'.bufs[n] == s.bufs[n] && s'.net.nodes[n].flushes == s.net.nodes[n].flushes && s'.net.rounds == s.net.rounds
    requires SameArray(c, s, s', n)
    requires forall u :: 0 <= u < |c.home| ==> SameShare(c, s, s', u, n)
    ensures NodeKept(c, s', n)
  {
    forall e: nat | InSegment(c, n, e) ensures Shares(c, s', n, e) == Shares(c, s, n, e) {
      forall u | 0 <= u < |c.home| ensures Shares(c, s', n, e)[u] == Shares(c, s, n, e)[u] {
        assert SameShare(c, s, s', u, n);
      }
    }
    var r := s.net.nodes[n].flushes - 1;
    if r >= 0 {
      forall e: nat | e < c.len && InSegment(c, n, e) ensures Effs(c, s', r, e) == Effs(c, s, r, e) {
        forall u | 0 <= u < |c.home| ensures Effs(c, s', r, e)[u] == Effs(c, s, r, e)[u] {
          assert SameShare(c, s, s', u, n);
        }
      }
    }
  }

  /** User u's contribution to node n and what it sent in the round n last flushed are the same in both states. */
  ghost predicate SameShare(c: Config, s: State, s': State, u: nat, n: nat)
    requires Shape(c, s) && Shape(c, s') && n < c.nodes && u < |c.home|
  {
    && (if s'.net.users[u].calls == s.net.users[u].calls then s'.net.users[u].seen[n] == s.net.users[u].seen[n]
        else s.net.users[u].calls == s.net.rounds && s'.net.users[u].seen[n] == [])
    && s'.net.users[u].calls >= s.net.users[u].calls
    && (var r := s.net.nodes[n].flushes - 1;
        r >= 0 ==> (r < s.net.users[u].calls || s'.net.users[u].calls <= r)
                   && forall e: nat :: e < c.len && InSegment(c, n, e) && r < s.net.users[u].calls ==>
                        s'.senders[u].eff[r][e] == s.senders[u].eff[r][e])
  }

  /** At the end of a round the buffers are zero and nobody has contributed to the next one. */
  lemma NodeAtRoundEnd(c: Config, s: State, s': State, n: nat)
    requires Shape(c, s') && n < c.nodes && ArrOk(c, s', n)
    requires s'.net.nodes[n].flushes == s'.net.rounds
    requires forall u :: 0 <= u < |c.home| ==> s'.net.users[u].calls == s'.net.rounds
    requires forall e :: 0 <= e < |s'.bufs[n]| ==> s'.bufs[n][e] == 0.0
    ensures BufOk(c, s', n)
  {
    forall e: nat | InSegment(c, n, e) ensures Sum(Shares(c, s', n, e)) == 0.0 {
      SumZero(Shares(c, s', n, e));
    }
  }

  /** Every node's books after a step that delivers nothing. */
  lemma NodeWithoutDelivery(c: Config, s: State, step: Step, n: nat)
    requires Inv(c, s) && Enabled(c, s, step) && Ready(c, s, step) && !step.Deliver? && n < c.nodes
    requires Shape(c, Apply(c, s, step))
    ensures NodeKept(c, Apply(c, s, step), n)
  {
    if Apply(c, s, step).net.rounds == s.net.rounds {
      NodeInRound(c, s, step, n);
    } else {
      NodeLastReport(c, s, step, n);
    }
  }

  lemma NodeInRound(c: Config, s: State, step: Step, n: nat)
    requires Inv(c, s) && Enabled(c, s, step) && Ready(c, s, step) && !step.Deliver? && n < c.nodes
    requires Shape(c, Apply(c, s, step)) && Apply(c, s, step).net.rounds == s.net.rounds
    ensures NodeKept(c, Apply(c, s, step), n)
  {
    var s' := Apply(c, s, step);
    var ops := NetStep(c, s, step);
    assert BufOk(c, s, n) && ArrOk(c, s, n);
    if ops != [] {
      Rounds.HistoryFrame(s.net, ops[0], n);
    }
    forall u | 0 <= u < |c.home| ensures SameShare(c, s, s', u, n) {
      ShareWithoutDelivery(c, s, step, u, n);
    }
    NodeRests(c, s, s', n);
  }

  lemma NodeLastReport(c: Config, s: State, step: Step, n: nat)
    requires Inv(c, s) && Enabled(c, s, step) && Ready(c, s, step) && !step.Deliver? && n < c.nodes
    requires Shape(c, Apply(c, s, step)) && Apply(c, s, step).net.rounds != s.net.rounds
    ensures NodeKept(c, Apply(c, s, step), n)
  {
    var s' := Apply(c, s, step);
    var op := NetStep(c, s, step)[0];
    assert BufOk(c, s, n) && ArrOk(c, s, n);
    Rounds.HistoryFrame(s.net, op, n);
    assert step.Report?;
    forall u | 0 <= u < |c.home| ensures s'.net.users[u].calls == s'.net.rounds {
      Rounds.RoundEndMeansAll(s.net, op, n, u);
    }
    Rounds.RoundEndMeansAll(s.net, op, n, 0);
    assert s'.senders == s.senders;
    ArrayRests(c, s, s', n);
    BufferIsZero(c, s, n);
    NodeAtRoundEnd(c, s, s', n);
  }

  lemma ArrayRests(c: Config, s: State, s': State, n: nat)
    requires Shape(c, s) && Shape(c, s') && n < c.nodes && ArrOk(c, s, n)
    requires s'.net.nodes[n].flushes == s.net.nodes[n].flushes && s'.senders == s.senders
    requires SameArray(c, s, s', n)
    ensures ArrOk(c, s', n)
  {
    var r := s.net.nodes[n].flushes - 1;
    if r >= 0 {
      forall e: nat | e < c.len && InSegment(c, n, e) ensures Effs(c, s', r, e) == Effs(c, s, r, e) {
      }
    }
  }

  /** After its flush a node's buffer stays zero until the round ends. */
  lemma BufferIsZero(c: Config, s: State, n: nat)
    requires Shape(c, s) && n < c.nodes && BufOk(c, s, n) && s.net.nodes[n].flushes != s.net.rounds
    ensures forall e :: 0 <= e < |s.bufs[n]| ==> s.bufs[n][e] == 0.0
  {
    forall e | 0 <= e < |s.bufs[n]| ensures s.bufs[n][e] == 0.0 {
      assert InSegment(c, n, e + Lo(c, n));
    }
  }

  lemma ShareWithoutDelivery(c: Config, s: State, step: Step, u: nat, n: nat)
    requires Inv(c, s) && Enabled(c, s, step) && Ready(c, s, step) && !step.Deliver? && n < c.nodes && u < |c.home|
    requires Shape(c, Apply(c, s, step))
    requires Apply(c, s, step).net.rounds == s.net.rounds
    ensures SameShare(c, s, Apply(c, s, step), u, n)
  {
    if step.Call? && step.u == u {
      CallShare(c, s, Apply(c, s, step), u, n);
    } else if step.SendChunk? && step.u == u {
      ChunkShare(c, s, Apply(c, s, step), u, step.sparse, n);
    } else {
      RestingShare(c, s, step, u);
      QuietShare(c, s, Apply(c, s, step), u, n);
    }
  }

  lemma RestingShare(c: Config, s: State, step: Step, u: nat)
    requires Shape(c, s) && Enabled(c, s, step) && Ready(c, s, step) && !step.Deliver? && u < |c.home|
    requires !(step.Call? && step.u == u) && !(step.SendChunk? && step.u == u) && Shape(c, Apply(c, s, step))
    ensures var s' := Apply(c, s, step);
            && s'.net.users[u].calls == s.net.users[u].calls && s'.net.users[u].seen == s.net.users[u].seen
            && s'.senders[u].eff == s.senders[u].eff
  {
    if step.Report? || step.WakeArrives? {
      Rounds.ReceivingFrame(s.net, NetStep(c, s, step)[0], u);
    }
  }

  lemma QuietShare(c: Config, s: State, s': State, u: nat, n: nat)
    requires Inv(c, s) && n < c.nodes && u < |c.home| && Shape(c, s')
    requires s'.net.users[u].calls == s.net.users[u].calls && s'.net.users[u].seen == s.net.users[u].seen
    requires s'.senders[u].eff == s.senders[u].eff
    ensures SameShare(c, s, s', u, n)
  {
    assert Rounds.UserOk(s.net.users[u], s.net.rounds) && Rounds.NodeOk(s.net, n);
  }

  /** Who calls has nothing in the next round yet, and no node has flushed in it. */
  lemma CallShare(c: Config, s: State, s': State, u: nat, n: nat)
    requires Inv(c, s) && Enabled(c, s, Call(u)) && n < c.nodes && Shape(c, s')
    requires s'.net.users[u].calls == s.net.users[u].calls + 1 && s'.net.users[u].seen[n] == []
    requires forall r :: 0 <= r < s.net.users[u].calls ==> s'.senders[u].eff[r] == s.senders[u].eff[r]
    ensures SameShare(c, s, s', u, n)
  {
    assert Rounds.UserOk(s.net.users[u], s.net.rounds) && Rounds.NodeOk(s.net, n);
    assert !Rounds.Arrived(s.net, u, n);
  }

  /** A user that sends a chunk to node k is in the round, and k has not flushed in it. */
  lemma ChunkTarget(c: Config, s: State, u: nat, sparse: bool)
    requires Inv(c, s) && Enabled(c, s, SendChunk(u, sparse))
    ensures var k := s.senders[u].pc.i;
      k < c.nodes && s.net.users[u].calls == s.net.rounds + 1 && s.net.nodes[k].flushes == s.net.rounds
  {
    var x, y, k := s.senders[u], s.net.users[u], s.senders[u].pc.i;
    assert UserInv(c, x, y, u) && Rounds.UserOk(y, s.net.rounds) && Rounds.NodeOk(s.net, k);
    StillOpen(c, x, y, u, k);
    assert !Rounds.Arrived(s.net, u, k);
  }

  /** A chunk for node k changes the effective vector only inside k's segment, which k has not flushed. */
  lemma ChunkShare(c: Config, s: State, s': State, u: nat, sparse: bool, n: nat)
    requires Inv(c, s) && Enabled(c, s, SendChunk(u, sparse)) && Ready(c, s, SendChunk(u, sparse)) && n < c.nodes && Shape(c, s')
    requires s'.senders[u] == NextSender(c, s, SendChunk(u, sparse), u)
    requires s'.net.users[u].calls == s.net.users[u].calls && s'.net.users[u].seen == s.net.users[u].seen
    ensures SameShare(c, s, s', u, n)
  {
    ChunkTarget(c, s, u, sparse);
    assert Rounds.NodeOk(s.net, n);
    var r := s.net.nodes[n].flushes - 1;
    if r >= 0 {
      forall e: nat | e < c.len && InSegment(c, n, e) ensures s'.senders[u].eff[r][e] == s.senders[u].eff[r][e] {
        ChunkLeaves(c, s, u, sparse, r, e);
      }
    }
  }

  /** A chunk changes the effective vector of the current call only, and only in the segment it is for. */
  lemma ChunkLeaves(c: Config, s: State, u: nat, sparse: bool, r: nat, e: nat)
    requires Inv(c, s) && Enabled(c, s, SendChunk(u, sparse)) && Ready(c, s, SendChunk(u, sparse))
    requires e < c.len && r < s.net.users[u].calls && (r < s.net.users[u].calls - 1 || !InSegment(c, s.senders[u].pc.i, e))
    ensures var x' := NextSender(c, s, SendChunk(u, sparse), u);
            r < |x'.eff| && |x'.eff[r]| == c.len && x'.eff[r][e] == s.senders[u].eff[r][e]
  {
    var x, y, k := s.senders[u], s.net.users[u], s.senders[u].pc.i;
    assert UserInv(c, x, y, u);
    Segment(c, k);
    NextChunkSound(c.input(u, y.calls - 1), sparse, c.threshold, x.cursor[k], c.end[k], c.dsm);
  }

  // ---- receiving a message ----

  /** The buffer of the receiving node with the message added. */
  ghost function Added(c: Config, s: State, u: nat, n: nat): seq<real>
    requires Shape(c, s) && Rounds.Enabled(s.net, Rounds.Deliver(u, n))
  {
    AddPart(c.dsm, s.bufs[n], Lo(c, n), s.net.users[u].chan[n][0].payload)
  }

  /** Adding a message moves its sender's share by the message's contribution. */
  lemma AddedIsSum(c: Config, s: State, u: nat, n: nat, e: nat)
    requires Inv(c, s) && Rounds.Enabled(s.net, Rounds.Deliver(u, n)) && InSegment(c, n, e)
    ensures Added(c, s, u, n)[e - Lo(c, n)] ==
              Sum(Shares(c, s, n, e)[u := SumParts(c, Rounds.Popped(s.net.users[u], n).seen[n], e)])
  {
    Rounds.ReceiverNotFlushed(s.net, u, n);
    assert BufOk(c, s, n);
    SeenOneMore(c, s, u, n, e);
    SumUpdate(Shares(c, s, n, e), u, SumParts(c, Rounds.Popped(s.net.users[u], n).seen[n], e));
  }

  /** ... which is what the sender's share grows by. */
  lemma SeenOneMore(c: Config, s: State, u: nat, n: nat, e: nat)
    requires Inv(c, s) && Rounds.Enabled(s.net, Rounds.Deliver(u, n)) && s.net.users[u].calls == s.net.rounds + 1
    ensures var p := s.net.users[u].chan[n][0].payload;
            SumParts(c, Rounds.Popped(s.net.users[u], n).seen[n], e) == Shares(c, s, n, e)[u] + Contribution(p.payload, Elem(p.off, c.dsm), e)
  {
    SumPartsAppend(c, s.net.users[u].seen[n], s.net.users[u].chan[n][0].payload, e);
  }

  lemma ReceiverWithoutFlush(c: Config, s: State, u: nat, n: nat)
    requires Inv(c, s) && Rounds.Enabled(s.net, Rounds.Deliver(u, n)) && !Flushes(s, u, n)
    requires Ready(c, s, Deliver(u, n)) && Shape(c, Apply(c, s, Deliver(u, n)))
    ensures NodeKept(c, Apply(c, s, Deliver(u, n)), n)
  {
    var s' := Apply(c, s, Deliver(u, n));
    var op := Rounds.Deliver(u, n);
    Rounds.HistoryFrame(s.net, op, n);
    Rounds.ReceiverNotFlushed(s.net, u, n);
    assert ArrOk(c, s, n);
    ArrayRests(c, s, s', n);
    forall e: nat | InSegment(c, n, e) ensures s'.bufs[n][e - Lo(c, n)] == Sum(Shares(c, s', n, e)) {
      SharesMove(c, s, u, n, e);
      AddedIsSum(c, s, u, n, e);
    }
  }

  /** Receiving a message that ends nothing moves the sender's share only. */
  lemma SharesMove(c: Config, s: State, u: nat, n: nat, e: nat)
    requires Inv(c, s) && Rounds.Enabled(s.net, Rounds.Deliver(u, n)) && !Flushes(s, u, n)
    requires Ready(c, s, Deliver(u, n)) && Shape(c, Apply(c, s, Deliver(u, n)))
    ensures Shares(c, Apply(c, s, Deliver(u, n)), n, e) ==
      Shares(c, s, n, e)[u := SumParts(c, Rounds.Popped(s.net.users[u], n).seen[n], e)]
  {
    var s' := Apply(c, s, Deliver(u, n));
    Rounds.HistoryFrame(s.net, Rounds.Deliver(u, n), n);
    Rounds.ReceiverNotFlushed(s.net, u, n);
    forall w | 0 <= w < |c.home| ensures
        Shares(c, s', n, e)[w] == if w == u then SumParts(c, Rounds.Popped(s.net.users[u], n).seen[n], e) else Shares(c, s, n, e)[w]
    {
      Rounds.ReceivingFrame(s.net, Rounds.Deliver(u, n), w);
    }
  }

  /** At a flush, the buffer is the sum of the vectors everybody sent in this round. */
  lemma FlushedIsSum(c: Config, s: State, u: nat, n: nat, e: nat)
    requires Inv(c, s) && Rounds.Enabled(s.net, Rounds.Deliver(u, n)) && Flushes(s, u, n)
    requires InSegment(c, n, e) && e < c.len
    ensures Added(c, s, u, n)[e - Lo(c, n)] == Sum(Effs(c, s, s.net.rounds, e))
  {
    AddedIsSum(c, s, u, n, e);
    var shares := Shares(c, s, n, e)[u := SumParts(c, Rounds.Popped(s.net.users[u], n).seen[n], e)];
    forall w | 0 <= w < |c.home| ensures shares[w] == Effs(c, s, s.net.rounds, e)[w] {
      ShareAtFlush(c, s, u, n, e, w);
    }
    assert shares == Effs(c, s, s.net.rounds, e);
  }

  /** At a flush, what node n has seen of user w is w's whole vector. */
  lemma ShareAtFlush(c: Config, s: State, u: nat, n: nat, e: nat, w: nat)
    requires Inv(c, s) && Rounds.Enabled(s.net, Rounds.Deliver(u, n)) && Flushes(s, u, n)
    requires InSegment(c, n, e) && e < c.len && w < |c.home|
    ensures Shares(c, s, n, e)[u := SumParts(c, Rounds.Popped(s.net.users[u], n).seen[n], e)][w] == Effs(c, s, s.net.rounds, e)[w]
  {
    Rounds.FlushMeansAll(s.net, Rounds.Deliver(u, n), w);
    Rounds.ReceivingFrame(s.net, Rounds.Deliver(u, n), w);
    assert UserInv(c, s.senders[w], s.net.users[w], w);
    AllSentAt(c, s.senders[w], s.net.users[w], w, n, e);
  }

  lemma AllSentAt(c: Config, x: Sender, y: Rounds.User<Part>, u: nat, n: nat, e: nat)
    requires Ok(c) && u < |c.home| && SenderShape(c, x, y.calls) && Rounds.UserShape(y, c.nodes) && UserInv(c, x, y, u)
    requires y.calls > 0 && n < c.nodes && y.finished[n] && InSegment(c, n, e)
    ensures e < c.len && SumParts(c, y.sent[n], e) == x.eff[y.calls - 1][e]
  {
    assert SentOk(c, x, y, n) && CursorOk(c, x, n) && (y.finished[n] <==> DoneWith(c, x, u, n));
    assert WasSent(c, x, n, e);
  }

  /** A flush writes exactly the receiver's segment of the shared array. */
  lemma FlushWrites(c: Config, s: State, u: nat, n: nat)
    requires Inv(c, s) && Rounds.Enabled(s.net, Rounds.Deliver(u, n)) && Ready(c, s, Deliver(u, n))
    ensures var s' := Apply(c, s, Deliver(u, n));
            && |s'.arr| == |s'.before| == |s.arr|
            && forall e: nat {:trigger s'.arr[e]} :: e < c.len ==>
                 if Flushes(s, u, n) && InSegment(c, n, e) then
                   && s'.arr[e] == AfterFlush(c.fate(s.net.nodes[n].flushes, e), s.arr[e], Added(c, s, u, n)[e - Lo(c, n)])
                   && s'.before[e] == s.arr[e]
                 else s'.arr[e] == s.arr[e] && s'.before[e] == s.before[e]
  {
    Segment(c, n);
  }

  lemma FlushedArray(c: Config, s: State, u: nat, n: nat)
    requires Inv(c, s) && Rounds.Enabled(s.net, Rounds.Deliver(u, n)) && Flushes(s, u, n)
    requires Ready(c, s, Deliver(u, n)) && Shape(c, Apply(c, s, Deliver(u, n)))
    ensures ArrOk(c, Apply(c, s, Deliver(u, n)), n)
  {
    var s' := Apply(c, s, Deliver(u, n));
    Rounds.HistoryFrame(s.net, Rounds.Deliver(u, n), n);
    Rounds.ReceiverNotFlushed(s.net, u, n);
    FlushWrites(c, s, u, n);
    assert s'.senders == s.senders;
    SumsInArray(c, s, s', u, n);
  }

  lemma SumsInArray(c: Config, s: State, s': State, u: nat, n: nat)
    requires Inv(c, s) && Rounds.Enabled(s.net, Rounds.Deliver(u, n)) && Flushes(s, u, n)
    requires Shape(c, s') && s'.senders == s.senders && s'.net.nodes[n].flushes == s.net.rounds + 1
    requires forall e: nat {:trigger s'.arr[e]} :: e < c.len && InSegment(c, n, e) ==>
               s'.arr[e] == AfterFlush(c.fate(s.net.rounds, e), s'.before[e], Added(c, s, u, n)[e - Lo(c, n)])
    ensures ArrOk(c, s', n)
  {
    forall e: nat | e < c.len && InSegment(c, n, e)
      ensures s'.arr[e] == AfterFlush(c.fate(s.net.rounds, e), s'.before[e], Sum(Effs(c, s', s.net.rounds, e)))
    {
      FlushedIsSum(c, s, u, n, e);
      assert Effs(c, s', s.net.rounds, e) == Effs(c, s, s.net.rounds, e);
    }
  }

  lemma FlushedBuffer(c: Config, s: State, u: nat, n: nat)
    requires Inv(c, s) && Rounds.Enabled(s.net, Rounds.Deliver(u, n)) && Flushes(s, u, n)
    requires Ready(c, s, Deliver(u, n)) && Shape(c, Apply(c, s, Deliver(u, n)))
    ensures forall e :: 0 <= e < |Apply(c, s, Deliver(u, n)).bufs[n]| ==> Apply(c, s, Deliver(u, n)).bufs[n][e] == 0.0
    ensures Apply(c, s, Deliver(u, n)).net.nodes[n].flushes == s.net.rounds + 1
  {
    Rounds.HistoryFrame(s.net, Rounds.Deliver(u, n), n);
    Rounds.ReceiverNotFlushed(s.net, u, n);
  }

  lemma ReceiverWithFlush(c: Config, s: State, u: nat, n: nat)
    requires Inv(c, s) && Rounds.Enabled(s.net, Rounds.Deliver(u, n)) && Flushes(s, u, n)
    requires Ready(c, s, Deliver(u, n)) && Shape(c, Apply(c, s, Deliver(u, n)))
    ensures NodeKept(c, Apply(c, s, Deliver(u, n)), n)
  {
    FlushedArray(c, s, u, n);
    FlushedBuffer(c, s, u, n);
    if Apply(c, s, Deliver(u, n)).net.rounds != s.net.rounds {
      DeliveryEndsRound(c, s, u, n, n);
    } else {
      ZeroBuffer(c, Apply(c, s, Deliver(u, n)), n);
    }
  }

  lemma ZeroBuffer(c: Config, s: State, n: nat)
    requires Shape(c, s) && n < c.nodes && s.net.nodes[n].flushes != s.net.rounds
    requires forall e :: 0 <= e < |s.bufs[n]| ==> s.bufs[n][e] == 0.0
    ensures BufOk(c, s, n)
  {
  }

  lemma DeliveryEndsRound(c: Config, s: State, u: nat, n: nat, m: nat)
    requires Inv(c, s) && Rounds.Enabled(s.net, Rounds.Deliver(u, n)) && m < c.nodes
    requires Ready(c, s, Deliver(u, n)) && Shape(c, Apply(c, s, Deliver(u, n)))
    requires ArrOk(c, Apply(c, s, Deliver(u, n)), m) && Apply(c, s, Deliver(u, n)).net.rounds != s.net.rounds
    requires forall e :: 0 <= e < |Apply(c, s, Deliver(u, n)).bufs[m]| ==> Apply(c, s, Deliver(u, n)).bufs[m][e] == 0.0
    ensures BufOk(c, Apply(c, s, Deliver(u, n)), m)
  {
    var s' := Apply(c, s, Deliver(u, n));
    var op := Rounds.Deliver(u, n);
    forall w | 0 <= w < |c.home| ensures s'.net.users[w].calls == s'.net.rounds {
      Rounds.RoundEndMeansAll(s.net, op, m, w);
    }
    Rounds.RoundEndMeansAll(s.net, op, m, 0);
    NodeAtRoundEnd(c, s, s', m);
  }

  lemma BystanderOfDelivery(c: Config, s: State, u: nat, n: nat, m: nat)
    requires Inv(c, s) && Rounds.Enabled(s.net, Rounds.Deliver(u, n)) && m < c.nodes && m != n
    requires Ready(c, s, Deliver(u, n)) && Shape(c, Apply(c, s, Deliver(u, n)))
    ensures NodeKept(c, Apply(c, s, Deliver(u, n)), m)
  {
    if Apply(c, s, Deliver(u, n)).net.rounds == s.net.rounds {
      BystanderInRound(c, s, u, n, m);
    } else {
      BystanderAtEnd(c, s, u, n, m);
    }
  }

  /** A flush leaves the other nodes' segments alone. */
  lemma BystanderSame(c: Config, s: State, u: nat, n: nat, m: nat)
    requires Inv(c, s) && Rounds.Enabled(s.net, Rounds.Deliver(u, n)) && m < c.nodes && m != n
    requires Ready(c, s, Deliver(u, n)) && Shape(c, Apply(c, s, Deliver(u, n)))
    ensures SameArray(c, s, Apply(c, s, Deliver(u, n)), m)
  {
    FlushWrites(c, s, u, n);
    assert forall e: nat :: e < c.len && InSegment(c, m, e) ==> !InSegment(c, n, e);
  }

  lemma BystanderInRound(c: Config, s: State, u: nat, n: nat, m: nat)
    requires Inv(c, s) && Rounds.Enabled(s.net, Rounds.Deliver(u, n)) && m < c.nodes && m != n
    requires Ready(c, s, Deliver(u, n)) && Shape(c, Apply(c, s, Deliver(u, n)))
    requires Apply(c, s, Deliver(u, n)).net.rounds == s.net.rounds
    ensures NodeKept(c, Apply(c, s, Deliver(u, n)), m)
  {
    var s' := Apply(c, s, Deliver(u, n));
    Rounds.HistoryFrame(s.net, Rounds.Deliver(u, n), m);
    assert BufOk(c, s, m) && ArrOk(c, s, m);
    BystanderSame(c, s, u, n, m);
    forall w | 0 <= w < |c.home| ensures SameShare(c, s, s', w, m) {
      BystanderShare(c, s, u, n, m, w);
    }
    NodeRests(c, s, s', m);
  }

  lemma BystanderAtEnd(c: Config, s: State, u: nat, n: nat, m: nat)
    requires Inv(c, s) && Rounds.Enabled(s.net, Rounds.Deliver(u, n)) && m < c.nodes && m != n
    requires Ready(c, s, Deliver(u, n)) && Shape(c, Apply(c, s, Deliver(u, n)))
    requires Apply(c, s, Deliver(u, n)).net.rounds != s.net.rounds
    ensures NodeKept(c, Apply(c, s, Deliver(u, n)), m)
  {
    BystanderArray(c, s, u, n, m);
    assert BufOk(c, s, m);
    BufferIsZero(c, s, m);
    DeliveryEndsRound(c, s, u, n, m);
  }

  lemma DeliveryKeepsSenders(c: Config, s: State, u: nat, n: nat)
    requires Shape(c, s) && Enabled(c, s, Deliver(u, n)) && Ready(c, s, Deliver(u, n))
    ensures Apply(c, s, Deliver(u, n)).senders == s.senders
  {
  }

  lemma BystanderArray(c: Config, s: State, u: nat, n: nat, m: nat)
    requires Inv(c, s) && Rounds.Enabled(s.net, Rounds.Deliver(u, n)) && m < c.nodes && m != n
    requires Ready(c, s, Deliver(u, n)) && Shape(c, Apply(c, s, Deliver(u, n)))
    requires Apply(c, s, Deliver(u, n)).net.rounds != s.net.rounds
    ensures ArrOk(c, Apply(c, s, Deliver(u, n)), m) && s.net.nodes[m].flushes != s.net.rounds
  {
    Rounds.HistoryFrame(s.net, Rounds.Deliver(u, n), m);
    Rounds.RoundEndMeansAll(s.net, Rounds.Deliver(u, n), m, 0);
    assert ArrOk(c, s, m);
    BystanderSame(c, s, u, n, m);
    DeliveryKeepsSenders(c, s, u, n);
    ArrayRests(c, s, Apply(c, s, Deliver(u, n)), m);
  }

  lemma BystanderShare(c: Config, s: State, u: nat, n: nat, m: nat, w: nat)
    requires Inv(c, s) && Rounds.Enabled(s.net, Rounds.Deliver(u, n)) && m < c.nodes && m != n && w < |c.home|
    requires Ready(c, s, Deliver(u, n)) && Shape(c, Apply(c, s, Deliver(u, n)))
    ensures SameShare(c, s, Apply(c, s, Deliver(u, n)), w, m)
  {
    Rounds.ReceivingFrame(s.net, Rounds.Deliver(u, n), w);
    assert Rounds.UserOk(s.net.users[w], s.net.rounds) && Rounds.NodeOk(s.net, m);
  }

  // ---- every step keeps the invariant ----

  /** The network after a step. */
  lemma NetAfter(c: Config, s: State, step: Step)
    requires Inv(c, s) && Enabled(c, s, step) && Ready(c, s, step)
    ensures var net := Apply(c, s, step).net;
            && Rounds.Shape(net) && |net.users| == |c.home| && |net.nodes| == c.nodes
            && forall u :: 0 <= u < |c.home| ==> net.users[u] == NetUser(c, s, step, u)
  {
    var ops := NetStep(c, s, step);
    if ops != [] {
      Rounds.StepInv(s.net, ops[0]);
      Rounds.HistoryFrame(s.net, ops[0], 0);
    }
    NetUserCount(s.net, ops);
  }

  /** Buffers and arrays keep their sizes. */
  lemma ArraysAfter(c: Config, s: State, step: Step)
    requires Inv(c, s) && Enabled(c, s, step) && Ready(c, s, step)
    ensures var s' := Apply(c, s, step);
            && |s'.senders| == |c.home| && |s'.bufs| == c.nodes && |s'.arr| == |s'.before| == c.len
            && forall n :: 0 <= n < c.nodes ==> |s'.bufs[n]| == Hi(c, n) - Lo(c, n)
  {
    if step.Deliver? {
      FlushWrites(c, s, step.u, step.n);
    }
  }

  lemma StepShape(c: Config, s: State, step: Step)
    requires Inv(c, s) && Enabled(c, s, step) && Ready(c, s, step)
    ensures Shape(c, Apply(c, s, step))
    ensures forall u :: 0 <= u < |c.home| ==> Apply(c, s, step).net.users[u] == NetUser(c, s, step, u)
  {
    NetAfter(c, s, step);
    ArraysAfter(c, s, step);
    forall u | 0 <= u < |c.home| ensures SenderShape(c, NextSender(c, s, step, u), NetUser(c, s, step, u).calls) {
      EveryUserKept(c, s, step, u);
    }
  }

  lemma NetUserCount(net: Rounds.State<Part>, ops: seq<Rounds.Step<Part>>)
    requires Rounds.Shape(net) && (ops != [] ==> Rounds.Enabled(net, ops[0]))
    ensures ops != [] ==> |Rounds.Apply(net, ops[0]).users| == |net.users|
  {
  }

  lemma StepInv(c: Config, s: State, step: Step)
    requires Inv(c, s) && Enabled(c, s, step)
    ensures Ready(c, s, step) && Inv(c, Apply(c, s, step))
  {
    StepsAreReady(c, s, step);
    var s' := Apply(c, s, step);
    StepShape(c, s, step);
    var ops := NetStep(c, s, step);
    if ops != [] {
      Rounds.StepInv(s.net, ops[0]);
    }
    forall u | 0 <= u < |c.home|
      ensures UserInv(c, s'.senders[u], s'.net.users[u], u)
      ensures forall n :: 0 <= n < c.nodes ==> MessagesOk(c, s'.net.users[u], n)
    {
      EveryUserKept(c, s, step, u);
      forall n | 0 <= n < c.nodes ensures MessagesOk(c, s'.net.users[u], n) {
        EveryMessageKept(c, s, step, u, n);
      }
    }
    forall n | 0 <= n < c.nodes ensures BufOk(c, s', n) && ArrOk(c, s', n) {
      if !step.Deliver? {
        NodeWithoutDelivery(c, s, step, n);
      } else if n != step.n {
        BystanderOfDelivery(c, s, step.u, step.n, n);
      } else if Flushes(s, step.u, n) {
        ReceiverWithFlush(c, s, step.u, n);
      } else {
        ReceiverWithoutFlush(c, s, step.u, n);
      }
    }
  }
}
