/**
The object of module DataSync is a node of the step system of module Accumulator: handling a message does
to the object exactly what the step that delivers the message does to the node.
*/
module NodeSteps {
  import opened Accumulator
  import opened Chunks
  import opened DataSync
  import opened Fates
  import opened FlushedSegment
  import Rounds

  /** The entries of the object's wait list for users of the step system; `tid` gives their thread numbers. */
  function Names(home: seq<nat>, tid: nat -> nat, users: seq<nat>): (r: seq<SyncThreadNode>)
    ensures |r| == |users|
  {
    seq(|users|, i requires 0 <= i < |users| => SyncThreadNode(if users[i] < |home| then home[users[i]] else 0, tid(users[i])))
  }

  lemma NamesAppend(home: seq<nat>, tid: nat -> nat, users: seq<nat>, u: nat)
    requires u < |home|
    ensures Names(home, tid, users + [u]) == Names(home, tid, users) + [SyncThreadNode(home[u], tid(u))]
  {
  }

  /** The constants of the object are those of node n. */
  ghost predicate Stands(node: DataSyncNode, c: Config, n: nat)
    reads node
  {
    && Ok(c) && n < c.nodes && node.Valid()
    && node.count == |c.home| && node.nodes == c.nodes && node.self == n && node.dsm == c.dsm
    && Elem(node.base, node.dsm) == Lo(c, n) && Elem(node.size, node.dsm) == Hi(c, n) - Lo(c, n)
    && (node.size == 0 <==> Empty(c, n)) && (Empty(c, n) || Hi(c, n) <= c.len)
  }

  /** The object is node n of the step system in state s. */
  ghost predicate Is(node: DataSyncNode, out: SharedArray, c: Config, s: State, n: nat, tid: nat -> nat)
    reads node, node.buf, out
  {
    && Stands(node, c, n) && Shape(c, s)
    && node.val == s.net.nodes[n].val && node.buf[..] == s.bufs[n] && out.elems == s.arr
    && (n == 0 ==> node.doneNodeCnt == s.net.doneCnt && node.waitlist == Names(c.home, tid, s.net.waitlist))
  }

  /** What a delivery does to the counters of the receiving node, and of the master if that is the node. */
  lemma CountersAfter<P>(net: Rounds.State<P>, u: nat, n: nat)
    requires Rounds.Shape(net) && Rounds.Enabled(net, Rounds.Deliver(u, n))
    ensures var net' := Rounds.Apply(net, Rounds.Deliver(u, n));
      var last := net.users[u].chan[n][0].last;
      var full := last && Rounds.CountFinal(net.nodes[n].val, |net.users|).1;
      var list := if last && n == 0 then net.waitlist + [u] else net.waitlist;
      && |net'.nodes| == |net.nodes|
      && net'.nodes[n].val == (if last then Rounds.CountFinal(net.nodes[n].val, |net.users|).0 else net.nodes[n].val)
      && net'.nodes[n].reports == net.nodes[n].reports + (if full && n != 0 then 1 else 0)
      && (net'.doneCnt, net'.waitlist) ==
           if full && n == 0 then (Rounds.CountReport(net.doneCnt, list, |net.nodes|).0, Rounds.CountReport(net.doneCnt, list, |net.nodes|).1)
           else (net.doneCnt, list)
  {
  }

  /** The users that the delivery wakes. */
  ghost function Woken<P>(net: Rounds.State<P>, u: nat, n: nat): seq<nat>
    requires Rounds.Shape(net) && Rounds.Enabled(net, Rounds.Deliver(u, n))
  {
    if n == 0 && net.users[u].chan[n][0].last && Rounds.CountFinal(net.nodes[n].val, |net.users|).1 then
      Rounds.CountReport(net.doneCnt, net.waitlist + [u], |net.nodes|).2
    else []
  }

  /** ... are those who have one more wake-up under way afterwards. */
  lemma WokenAre<P>(net: Rounds.State<P>, u: nat, n: nat, w: nat)
    requires Rounds.Shape(net) && Rounds.Enabled(net, Rounds.Deliver(u, n)) && w < |net.users|
    ensures var net' := Rounds.Apply(net, Rounds.Deliver(u, n));
      |net'.users| == |net.users| && net'.users[w].wakes == net.users[w].wakes + multiset(Woken(net, u, n))[w]
  {
    assert multiset([])[w] == 0;
  }

  /** The state after a delivery, as far as the receiving node is concerned. */
  ghost predicate After(c: Config, s: State, u: nat, n: nat, s': State)
    requires Shape(c, s) && Rounds.Enabled(s.net, Rounds.Deliver(u, n)) && (Empty(c, n) || Hi(c, n) <= c.len)
  {
    && Shape(c, s') && s'.net == Rounds.Apply(s.net, Rounds.Deliver(u, n))
    && s'.bufs[n] == (if Flushes(s, u, n) then Zeros(|s.bufs[n]|) else Added(c, s, u, n))
    && s'.arr == if Flushes(s, u, n) then FlushTo(c, s.arr, n, s.net.nodes[n].flushes, Added(c, s, u, n)) else s.arr
  }

  lemma Delivered(c: Config, s: State, u: nat, n: nat)
    requires Inv(c, s) && Rounds.Enabled(s.net, Rounds.Deliver(u, n))
    ensures Ready(c, s, Deliver(u, n)) && (Empty(c, n) || Hi(c, n) <= c.len)
    ensures After(c, s, u, n, Apply(c, s, Deliver(u, n))) && PartOk(c, n, s.net.users[u].chan[n][0].payload)
  {
    StepsAreReady(c, s, Deliver(u, n));
    StepShape(c, s, Deliver(u, n));
    Segment(c, n);
    assert MessagesOk(c, s.net.users[u], n);
  }

  lemma SameFlush(c: Config, arr: seq<real>, n: nat, r: nat, sum: seq<real>, flush: Flush, base: nat, dsm: Dsm)
    requires Ok(c) && n < c.nodes && |sum| == Hi(c, n) - Lo(c, n) && Hi(c, n) <= |arr| && FlushOk(flush)
    requires forall j: nat {:trigger FateOf(flush, base, dsm, j)} :: c.fate(r, Lo(c, n) + j) == FateOf(flush, base, dsm, j)
    ensures FlushTo(c, arr, n, r, sum) == Landed(arr, Lo(c, n), sum, flush, base, dsm)
  {
    var a, b := FlushTo(c, arr, n, r, sum), Landed(arr, Lo(c, n), sum, flush, base, dsm);
    forall e | 0 <= e < |arr| ensures a[e] == b[e] {
      if InSegment(c, n, e) {
        assert c.fate(r, Lo(c, n) + (e - Lo(c, n))) == FateOf(flush, base, dsm, e - Lo(c, n));
      }
    }
  }

  /** The object's part in it. */
  method Handle(node: DataSyncNode, out: SharedArray, flush: Flush, src: nat, threadId: nat, off: nat, data: Payload,
      ghost c: Config, ghost s: State, ghost u: nat, ghost n: nat, ghost tid: nat -> nat, ghost s': State)
    returns (report: bool, woken: seq<SyncThreadNode>)
    requires Is(node, out, c, s, n, tid) && Rounds.Enabled(s.net, Rounds.Deliver(u, n)) && After(c, s, u, n, s') && u < |c.home|
    requires Part(off, data) == s.net.users[u].chan[n][0].payload && PartOk(c, n, Part(off, data)) && src == c.home[u] && tid(u) != 0
    requires threadId == if s.net.users[u].chan[n][0].last then tid(u) else 0
    requires FlushOk(flush) && forall j: nat {:trigger FateOf(flush, node.base, node.dsm, j)} ::
               c.fate(s.net.nodes[n].flushes, Lo(c, n) + j) == FateOf(flush, node.base, node.dsm, j)
    modifies node, node.buf, out
    ensures Is(node, out, c, s', n, tid)
    ensures report <==> s'.net.nodes[n].reports == s.net.nodes[n].reports + 1
    ensures woken == Names(c.home, tid, Woken(s.net, u, n))
  {
    CountersAfter(s.net, u, n);
    NamesAppend(c.home, tid, s.net.waitlist, u);
    ghost var sum := Added(c, s, u, n);
    assert sum == AddPart(node.dsm, node.buf[..], Elem(node.base, node.dsm), Part(off, data));
    if !Empty(c, n) {
      SameFlush(c, s.arr, n, s.net.nodes[n].flushes, sum, flush, node.base, node.dsm);
    }
    report, woken := node.AccumulateMsg(src, threadId, off, data, out, flush);
  }

  /** AcAccumulateMsg for the message user u's queue to node n starts with is the step Deliver(u, n). */
  method HandleMessage(node: DataSyncNode, out: SharedArray, flush: Flush, src: nat, threadId: nat, off: nat, data: Payload,
      ghost c: Config, ghost s: State, ghost u: nat, ghost n: nat, ghost tid: nat -> nat)
    returns (report: bool, woken: seq<SyncThreadNode>)
    requires Inv(c, s) && Is(node, out, c, s, n, tid) && Rounds.Enabled(s.net, Rounds.Deliver(u, n))
    requires Part(off, data) == s.net.users[u].chan[n][0].payload && src == c.home[u] && tid(u) != 0
    requires threadId == if s.net.users[u].chan[n][0].last then tid(u) else 0
    requires FlushOk(flush) && forall j: nat {:trigger FateOf(flush, node.base, node.dsm, j)} ::
               c.fate(s.net.nodes[n].flushes, Lo(c, n) + j) == FateOf(flush, node.base, node.dsm, j)
    modifies node, node.buf, out
    ensures Ready(c, s, Deliver(u, n)) && Is(node, out, c, Apply(c, s, Deliver(u, n)), n, tid)
    ensures report <==> Apply(c, s, Deliver(u, n)).net.nodes[n].reports == s.net.nodes[n].reports + 1
    ensures woken == Names(c.home, tid, Woken(s.net, u, n))
  {
    Delivered(c, s, u, n);
    report, woken := Handle(node, out, flush, src, threadId, off, data, c, s, u, n, tid, Apply(c, s, Deliver(u, n)));
  }
}
