/**
The sending side, `_DoAccumulateAndWait`, as the loop the source runs: what it puts on each node's
socket for any behaviour of the sockets (which are writable when) and any choice of chunk modes.
*/
module Sender {
  import opened Chunks
  import opened Counting
  import opened Partition
  import opened Words
  import Layout = AccumulatorLayout

  /** One RcSend of an AcDataAccumulate message. */
  datatype Sent = Sent(off: nat, advance: nat, bytes: nat, payload: Payload, last: bool)

  /** What a scan finds at a node: is its socket writable, and is the next chunk to be sparse? */
  datatype Chance = Chance(writable: bool, sparse: bool)

  /** The fixed facts of one call: `start` and `end` are the segments in words. */
  datatype Job = Job(vec: seq<real>, threshold: real, dsm: Dsm, nodes: nat, self: nat, start: seq<nat>, end: seq<nat>)

  predicate Ok(j: Job) {
    && |j.start| == |j.end| == j.nodes && j.self < j.nodes
    && forall k :: 0 <= k < j.nodes ==> SegmentOk(j, k)
  }

  predicate SegmentOk(j: Job, k: nat)
    requires k < |j.start| == |j.end|
  {
    Whole(j.start[k], j.dsm) && Whole(j.end[k], j.dsm) && (j.start[k] < j.end[k] ==> Elem(j.end[k], j.dsm) <= |j.vec|)
  }

  predicate Empty(j: Job, k: nat)
    requires k < |j.start| == |j.end|
  {
    j.end[k] <= j.start[k]
  }

  function Empties(j: Job): seq<bool>
    requires |j.start| == |j.end| == j.nodes
  {
    seq(j.nodes, k requires 0 <= k < j.nodes => Empty(j, k))
  }

  /** The chunk comes from the chunk builder, for the words from `off` to the end of the segment. */
  predicate Built(j: Job, end: nat, m: Sent) {
    && Whole(m.off, j.dsm) && Whole(end, j.dsm) && m.off < end && Elem(end, j.dsm) <= |j.vec|
    && exists sparse :: Chunk(m.advance, m.bytes, m.payload) == NextChunk(j.vec, sparse, j.threshold, m.off, end, j.dsm)
  }

  /**
  The messages tile the words from `start` to `upto`: each begins where the one before it ends,
  makes progress, fits the buffer, and only one that reaches the end of the segment carries the
  thread id.
  */
  predicate Tiles(j: Job, log: seq<Sent>, start: nat, upto: nat, end: nat)
    decreases |log|
  {
    if log == [] then upto == start
    else
      var m := log[|log| - 1];
      && Built(j, end, m) && m.advance > 0 && m.bytes <= MAX_BYTES
      && m.off + m.advance == upto <= end
      && (m.last <==> upto == end)
      && Tiles(j, log[..|log| - 1], start, m.off, end)
  }

  lemma TileAdded(j: Job, log: seq<Sent>, start: nat, at: nat, end: nat, m: Sent)
    requires Tiles(j, log, start, at, end) && Built(j, end, m) && m.off == at && (m.last <==> at + m.advance == end)
    requires m.advance > 0 && at + m.advance <= end && m.bytes <= MAX_BYTES
    ensures Tiles(j, log + [m], start, at + m.advance, end)
  {
    assert (log + [m])[..|log|] == log;
  }

  lemma TilesAppend(j: Job, log: seq<Sent>, start: nat, at: nat, end: nat, m: Sent)
    requires Tiles(j, log, start, at, end) && Built(j, end, m) && m.off == at && (m.last <==> at + m.advance == end)
    ensures m.advance > 0 && at + m.advance <= end && Whole(at + m.advance, j.dsm)
    ensures Tiles(j, log + [m], start, at + m.advance, end)
  {
    var sparse :| Chunk(m.advance, m.bytes, m.payload) == NextChunk(j.vec, sparse, j.threshold, m.off, end, j.dsm);
    NextChunkSound(j.vec, sparse, j.threshold, m.off, end, j.dsm);
    TileAdded(j, log, start, at, end, m);
  }

  /** Which nodes `done` has counted once all segments are open. */
  function Counted(j: Job, idx: seq<nat>): seq<bool>
    requires |idx| == j.nodes == |j.start| == |j.end|
  {
    seq(j.nodes, k requires 0 <= k < j.nodes => Empty(j, k) || (k != j.self && idx[k] == j.end[k]))
  }

  /** What node k has been sent so far. */
  predicate LogOk(j: Job, k: nat, log: seq<Sent>, idx: nat)
    requires Ok(j) && k < j.nodes
  {
    if k == j.self then
      && idx == j.end[k]
      && log == [Own(j)]
    else if Empty(j, k) then
      idx >= j.end[k] && log == [Sent(0, 0, 0, Dense([]), true)]
    else
      j.start[k] <= idx <= j.end[k] && Whole(idx, j.dsm) && Tiles(j, log, j.start[k], idx, j.end[k])
  }

  /** The direct AcAccumulateMsg call for the own segment: dense, whole, with the thread id. */
  function Own(j: Job): Sent
    requires Ok(j)
  {
    assert SegmentOk(j, j.self);
    var start, end := j.start[j.self], j.end[j.self];
    if end <= start then Sent(start, 0, 0, Dense([]), true)
    else Sent(start, end - start, 4 * (end - start), Dense(j.vec[Elem(start, j.dsm)..Elem(end, j.dsm)]), true)
  }

  /** Everything the loop keeps up: the log and cursor of each node, and what `done` counts. */
  predicate LoopOk(j: Job, log: seq<seq<Sent>>, idx: seq<nat>, done: nat)
    requires Ok(j)
  {
    && |log| == |idx| == j.nodes
    && (forall k {:trigger LogOk(j, k, log[k], idx[k])} :: 0 <= k < j.nodes ==> LogOk(j, k, log[k], idx[k]))
    && done == 1 + Count(Counted(j, idx))
  }

  /** After the own segment has been handed over, the loop's invariant holds. */
  lemma LoopStarts(j: Job, log: seq<seq<Sent>>, idx: seq<nat>, done: nat)
    requires Ok(j) && |log| == |idx| == j.nodes
    requires forall k :: 0 <= k < j.nodes ==> idx[k] == j.start[k]
    requires forall k :: 0 <= k < j.nodes ==>
               log[k] == if Empty(j, k) && k != j.self then [Sent(0, 0, 0, Dense([]), true)] else []
    requires done == 1 + Count(Empties(j))
    ensures LoopOk(j, log[j.self := [Own(j)]], idx[j.self := j.end[j.self]], done)
  {
    var idx' := idx[j.self := j.end[j.self]];
    forall k | 0 <= k < j.nodes ensures LogOk(j, k, log[j.self := [Own(j)]][k], idx'[k]) {
      assert SegmentOk(j, k);
    }
    assert Counted(j, idx') == Empties(j);
  }

  /** Sending the next chunk keeps what is known of the node it is for. */
  lemma LogGrows(j: Job, k: nat, log: seq<Sent>, idx: nat, m: Sent)
    requires Ok(j) && k < j.nodes && k != j.self && LogOk(j, k, log, idx) && idx < j.end[k]
    requires m.off == idx && Built(j, j.end[k], m) && (m.last <==> idx + m.advance == j.end[k])
    ensures LogOk(j, k, log + [m], idx + m.advance) && !Empty(j, k) && idx + m.advance <= j.end[k]
  {
    TilesAppend(j, log, j.start[k], idx, j.end[k], m);
  }

  /** ... and what `done` counts. */
  lemma DoneGrows(j: Job, idx: seq<nat>, i: nat, v: nat)
    requires |idx| == j.nodes == |j.start| == |j.end| && i < j.nodes && i != j.self && !Empty(j, i) && idx[i] < j.end[i]
    ensures Count(Counted(j, idx[i := v])) == Count(Counted(j, idx)) + if v == j.end[i] then 1 else 0
  {
    if v == j.end[i] {
      assert Counted(j, idx[i := v]) == Counted(j, idx)[i := true];
      CountSet(Counted(j, idx), i);
    } else {
      assert Counted(j, idx[i := v]) == Counted(j, idx);
    }
  }

  lemma OthersKeep(j: Job, log: seq<seq<Sent>>, idx: seq<nat>, i: nat, l: seq<Sent>, v: nat)
    requires Ok(j) && |log| == |idx| == j.nodes && i < j.nodes && LogOk(j, i, l, v)
    requires forall k {:trigger LogOk(j, k, log[k], idx[k])} :: 0 <= k < j.nodes ==> LogOk(j, k, log[k], idx[k])
    ensures var (log', idx') := (log[i := l], idx[i := v]);
            forall k {:trigger LogOk(j, k, log'[k], idx'[k])} :: 0 <= k < j.nodes ==> LogOk(j, k, log'[k], idx'[k])
  {
    var log', idx' := log[i := l], idx[i := v];
    forall k | 0 <= k < j.nodes ensures LogOk(j, k, log'[k], idx'[k]) {
      if k != i {
        assert LogOk(j, k, log[k], idx[k]);
      }
    }
  }

  /** Sending the next chunk to node i keeps the invariant. */
  lemma LoopSends(j: Job, log: seq<seq<Sent>>, idx: seq<nat>, done: nat, i: nat, l: seq<Sent>, v: nat)
    requires Ok(j) && LoopOk(j, log, idx, done) && i < j.nodes && i != j.self && !Empty(j, i) && idx[i] < j.end[i]
    requires LogOk(j, i, l, v)
    ensures LoopOk(j, log[i := l], idx[i := v], if v == j.end[i] then done + 1 else done)
  {
    DoneGrows(j, idx, i, v);
    OthersKeep(j, log, idx, i, l, v);
  }

  /** What one pass does at node k: the next chunk if it has data left and its socket is writable. */
  predicate Scanned(j: Job, idx0: nat, log0: seq<Sent>, idx: nat, log: seq<Sent>, k: nat, chance: Chance)
    requires k < |j.end|
  {
    if idx0 < j.end[k] && k != j.self && chance.writable then
      |log| == |log0| + 1 && log == log0 + [log[|log0|]] && log[|log0|].off == idx0 && idx == idx0 + log[|log0|].advance
    else idx == idx0 && log == log0
  }

  /** Where the loop stands at its test: cursors, messages so far, and `done`. */
  datatype Mark = Mark(idx: seq<nat>, log: seq<seq<Sent>>, done: nat)

  predicate MarkOk(j: Job, m: Mark) {
    Ok(j) && LoopOk(j, m.log, m.idx, m.done)
  }

  /** What a pass has done at node k, whether or not its socket was writable. */
  predicate MayScan(j: Job, m: Mark, m': Mark, k: nat)
    requires MarkOk(j, m) && MarkOk(j, m') && k < j.nodes
  {
    || Scanned(j, m.idx[k], m.log[k], m'.idx[k], m'.log[k], k, Chance(true, false))
    || Scanned(j, m.idx[k], m.log[k], m'.idx[k], m'.log[k], k, Chance(false, false))
  }

  /** One pass leads from m to m'. */
  predicate Passed(j: Job, m: Mark, m': Mark)
    requires MarkOk(j, m) && MarkOk(j, m')
  {
    m.done < j.nodes && forall k {:trigger MayScan(j, m, m', k)} :: 0 <= k < j.nodes ==> MayScan(j, m, m', k)
  }

  /** Mark p is in order, and one pass leads to it from the one before. */
  predicate Linked(j: Job, marks: seq<Mark>, p: nat)
    requires p < |marks|
  {
    MarkOk(j, marks[p]) && (p > 0 ==> MarkOk(j, marks[p - 1]) && Passed(j, marks[p - 1], marks[p]))
  }

  /** The marks of the loop, from its first test on. */
  predicate Marks(j: Job, marks: seq<Mark>) {
    && |marks| > 0
    && (forall p {:trigger Linked(j, marks, p)} :: 0 <= p < |marks| ==> Linked(j, marks, p))
    && |marks[0].idx| == |marks[0].log| == j.nodes == |j.start| == |j.end| && j.self < j.nodes && Ok(j)
    && marks[0].idx == j.start[j.self := j.end[j.self]]
    && forall k {:trigger marks[0].log[k]} :: 0 <= k < j.nodes ==>
         marks[0].log[k] == if k == j.self then [Own(j)] else if Empty(j, k) then [Sent(0, 0, 0, Dense([]), true)] else []
  }

  lemma OnePassMore(j: Job, marks: seq<Mark>, m: Mark, chances: seq<Chance>)
    requires Marks(j, marks) && MarkOk(j, m) && |chances| == j.nodes
    requires MarkOk(j, marks[|marks| - 1]) && marks[|marks| - 1].done < j.nodes
    requires var m0 := marks[|marks| - 1];
      forall k :: 0 <= k < j.nodes ==> Scanned(j, m0.idx[k], m0.log[k], m.idx[k], m.log[k], k, chances[k])
    ensures Marks(j, marks + [m])
  {
    var m0, more := marks[|marks| - 1], marks + [m];
    forall k | 0 <= k < j.nodes ensures MayScan(j, m0, m, k) {
      assert Scanned(j, m0.idx[k], m0.log[k], m.idx[k], m.log[k], k, chances[k]);
    }
    assert Passed(j, m0, m);
    assert Linked(j, marks, 0) && more[0] == marks[0];
    forall p | 0 <= p < |more| ensures Linked(j, more, p) {
      if p < |marks| {
        assert Linked(j, marks, p);
      } else {
        assert more[p - 1] == m0;
      }
    }
  }

  /** The body of the inner loop for node i. */
  method SendNext(j: Job, i: nat, idx: nat, size: nat, sparse: bool, ghost log: seq<seq<Sent>>, ghost idxs: seq<nat>, ghost done: nat)
    returns (m: Sent)
    requires Ok(j) && i < j.nodes && i != j.self && idx < size == j.end[i]
    requires LoopOk(j, log, idxs, done) && idxs[i] == idx
    ensures m.off == idx && m.last == (idx + m.advance == size)
    ensures LoopOk(j, log[i := log[i] + [m]], idxs[i := idx + m.advance], if m.last then done + 1 else done)
  {
    assert LogOk(j, i, log[i], idxs[i]);
    assert SegmentOk(j, i);
    var advance, bytes, payload := PrepareBuffer(j.vec, sparse, j.threshold, idx, size, j.dsm);
    m := Sent(idx, advance, bytes, payload, idx + advance == size);
    LogGrows(j, i, log[i], idxs[i], m);
    LoopSends(j, log, idxs, done, i, log[i] + [m], idx + advance);
  }

  /** One pass of the inner loop: at most one chunk to every node that is not finished. */
  method ScanOnce(j: Job, idx0: seq<nat>, sendSize: seq<nat>, done0: nat, log0: seq<seq<Sent>>, chances: seq<Chance>)
    returns (idx: seq<nat>, done: nat, log: seq<seq<Sent>>)
    requires Ok(j) && |sendSize| == j.nodes == |chances|
    requires forall k :: 0 <= k < j.nodes ==> sendSize[k] == j.end[k]
    requires LoopOk(j, log0, idx0, done0)
    ensures LoopOk(j, log, idx, done)
    ensures forall k :: 0 <= k < j.nodes ==> Scanned(j, idx0[k], log0[k], idx[k], log[k], k, chances[k])
  {
    idx, done, log := idx0, done0, log0;
    for i := 0 to j.nodes
      invariant LoopOk(j, log, idx, done)
      invariant forall k :: i <= k < j.nodes ==> idx[k] == idx0[k] && log[k] == log0[k]
      invariant forall k :: 0 <= k < i ==> Scanned(j, idx0[k], log0[k], idx[k], log[k], k, chances[k])
    {
      if idx[i] < sendSize[i] && i != j.self && chances[i].writable {
        var m := SendNext(j, i, idx[i], sendSize[i], chances[i].sparse, log, idx, done);
        idx, log, done := idx[i := idx[i] + m.advance], log[i := log[i] + [m]], if m.last then done + 1 else done;
      }
    }
  }

  /** Start and end of one segment. */
  method OpenSegment(sz: nat, nodes: nat, blocks: nat, i: nat) returns (idx: nat, size: nat)
    requires Limits(sz, nodes) && blocks == BlocksPerNode(sz, nodes)
    ensures idx == SenderStart(sz, nodes, i) && size == SenderEnd(sz, nodes, i)
  {
    idx := Wrap32(i * blocks * BLOCK);
    if Wrap32(blocks * BLOCK + idx) > sz {
      size := sz;
    } else {
      size := Wrap32(idx + blocks * BLOCK);
    }
  }

  /** The segments below i that are empty. */
  function EmptyBelow(sz: nat, nodes: nat, i: nat): seq<bool>
    requires nodes > 0
  {
    seq(i, k requires 0 <= k => SenderEmpty(sz, nodes, k))
  }

  lemma OneMoreOpen(sz: nat, nodes: nat, i: nat)
    requires nodes > 0
    ensures Count(EmptyBelow(sz, nodes, i + 1)) == Count(EmptyBelow(sz, nodes, i)) + if SenderEmpty(sz, nodes, i) then 1 else 0
  {
    assert EmptyBelow(sz, nodes, i + 1)[..i] == EmptyBelow(sz, nodes, i);
  }

  /** The first loop: opens every segment and sends the final message for each empty one. */
  method OpenSegments(sz: nat, nodes: nat, self: nat) returns (sendIdx: seq<nat>, sendSize: seq<nat>, done: nat, log: seq<seq<Sent>>)
    requires Limits(sz, nodes)
    ensures |sendIdx| == |sendSize| == |log| == nodes
    ensures forall k :: 0 <= k < nodes ==> sendIdx[k] == SenderStart(sz, nodes, k) && sendSize[k] == SenderEnd(sz, nodes, k)
    ensures forall k :: 0 <= k < nodes ==>
              log[k] == if SenderEmpty(sz, nodes, k) && k != self then [Sent(0, 0, 0, Dense([]), true)] else []
    ensures done == 1 + Count(EmptyBelow(sz, nodes, nodes))
  {
    var blocks := if sz % BLOCK == 0 then sz / BLOCK else sz / BLOCK + 1;
    blocks := if blocks % nodes == 0 then blocks / nodes else blocks / nodes + 1;
    assert blocks == BlocksPerNode(sz, nodes);
    sendIdx, sendSize, log := [], [], [];
    done := 1;
    for i := 0 to nodes
      invariant |sendIdx| == |sendSize| == |log| == i
      invariant forall k :: 0 <= k < i ==> sendIdx[k] == SenderStart(sz, nodes, k) && sendSize[k] == SenderEnd(sz, nodes, k)
      invariant forall k :: 0 <= k < i ==>
                  log[k] == if SenderEmpty(sz, nodes, k) && k != self then [Sent(0, 0, 0, Dense([]), true)] else []
      invariant done == 1 + Count(EmptyBelow(sz, nodes, i))
    {
      var idx, size := OpenSegment(sz, nodes, blocks, i);
      OneMoreOpen(sz, nodes, i);
      sendIdx, sendSize := sendIdx + [idx], sendSize + [size];
      if size <= idx {
        log := log + [if i != self then [Sent(0, 0, 0, Dense([]), true)] else []];
        done := done + 1;
      } else {
        log := log + [[]];
      }
    }
  }

  /** Own segment good, or nothing to send at all: the guard of module SendLoop. */
  predicate Guarded(j: Job)
    requires Ok(j)
  {
    !Empty(j, j.self) || forall k :: 0 <= k < j.nodes ==> Empty(j, k)
  }

  /** The last mark is what the loop leaves; it is left through its condition if `done` has reached the node count. */
  predicate Ends(j: Job, marks: seq<Mark>, log: seq<seq<Sent>>, idx: seq<nat>, left: bool)
    requires |marks| > 0
  {
    var m := marks[|marks| - 1];
    m.log == log && m.idx == idx && (left <==> m.done >= j.nodes)
  }

  /**
  The `while (done < num_nodes)` loop, for sockets that behave as `passes` says. Every node's
  messages tile its segment from the start. If the loop is left through its condition and the guard
  holds, every segment has been tiled to its end, so exactly its last message carries the thread id.
  */
  method SendAll(j: Job, sent: seq<seq<Sent>>, done0: nat, passes: seq<seq<Chance>>)
    returns (log: seq<seq<Sent>>, idx: seq<nat>, left: bool, ghost marks: seq<Mark>)
    requires Ok(j) && forall p :: 0 <= p < |passes| ==> |passes[p]| == j.nodes
    requires |sent| == j.nodes && done0 == 1 + Count(Empties(j))
    requires forall k :: 0 <= k < j.nodes ==>
               sent[k] == if Empty(j, k) && k != j.self then [Sent(0, 0, 0, Dense([]), true)] else []
    ensures |log| == |idx| == j.nodes
    ensures forall k :: 0 <= k < j.nodes ==> LogOk(j, k, log[k], idx[k])
    ensures left && Guarded(j) ==> forall k :: 0 <= k < j.nodes && k != j.self && !Empty(j, k) ==> idx[k] == j.end[k]
    ensures Marks(j, marks) && Ends(j, marks, log, idx, left)
  {
    LoopStarts(j, sent, j.start, done0);
    var done: nat := done0;
    log, idx := sent[j.self := [Own(j)]], j.start[j.self := j.end[j.self]];
    marks := [Mark(idx, log, done)];
    var p := 0;
    while done < j.nodes && p < |passes|
      invariant 0 <= p <= |passes|
      invariant LoopOk(j, log, idx, done)
      invariant Marks(j, marks) && marks[|marks| - 1] == Mark(idx, log, done)
      decreases |passes| - p
    {
      idx, done, log := ScanOnce(j, idx, j.end, done, log, passes[p]);
      OnePassMore(j, marks, Mark(idx, log, done), passes[p]);
      marks := marks + [Mark(idx, log, done)];
      p := p + 1;
    }
    left := done >= j.nodes;
    if left && Guarded(j) {
      EverythingSent(j, log, idx, done);
    }
  }

  lemma EverythingSent(j: Job, log: seq<seq<Sent>>, idx: seq<nat>, done: nat)
    requires Ok(j) && LoopOk(j, log, idx, done) && done >= j.nodes && Guarded(j)
    ensures forall k :: 0 <= k < j.nodes && k != j.self && !Empty(j, k) ==> idx[k] == j.end[k]
  {
    forall k | 0 <= k < j.nodes && k != j.self && !Empty(j, k) ensures idx[k] == j.end[k] {
      var b := Counted(j, idx);
      CountSet(b, j.self);
      CountFull(b[j.self := true]);
      assert b[j.self := true][k];
    }
  }

  /** `_DoAccumulateAndWait` up to the wait: the segments it computes, then the send loop. */
  method SendVector(vec: seq<real>, threshold: real, dsm: Dsm, nodes: nat, self: nat, passes: seq<seq<Chance>>)
    returns (j: Job, log: seq<seq<Sent>>, idx: seq<nat>, left: bool, ghost marks: seq<Mark>)
    requires Limits(WordOf(|vec|, dsm), nodes) && self < nodes
    requires forall p :: 0 <= p < |passes| ==> |passes[p]| == nodes
    ensures j.vec == vec && j.threshold == threshold && j.dsm == dsm && j.nodes == nodes && j.self == self
    ensures j.start == Layout.Starts(nodes, dsm, |vec|) && j.end == Layout.Ends(nodes, dsm, |vec|)
    ensures Ok(j) && |log| == |idx| == nodes
    ensures forall k :: 0 <= k < nodes ==> LogOk(j, k, log[k], idx[k])
    ensures left && Guarded(j) ==> forall k :: 0 <= k < nodes && k != self && !Empty(j, k) ==> idx[k] == j.end[k]
    ensures Marks(j, marks) && Ends(j, marks, log, idx, left)
  {
    var start, end, done, sent := OpenSegments(WordOf(|vec|, dsm), nodes, self);
    j := Job(vec, threshold, dsm, nodes, self, start, end);
    forall k | 0 <= k < nodes ensures SegmentOk(j, k) {
      Layout.SegmentBounds(nodes, dsm, |vec|, k);
    }
    assert Empties(j) == EmptyBelow(WordOf(|vec|, dsm), nodes, nodes);
    log, idx, left, marks := SendAll(j, sent, done, passes);
  }
}
