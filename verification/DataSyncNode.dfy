/**
The receiving side of the accumulator as the object the source keeps per node: its constructor,
and the two message handlers, proved against the functions the step system of modules Rounds and
Accumulator is made of.
*/
module DataSync {
  import opened Chunks
  import opened Fates
  import opened FlushedSegment
  import opened Partition
  import opened Words
  import Accumulator
  import Rounds

  /** The array after a flush of `data` to the elements from `at` on, whose words start at `base` in it. */
  function Landed(elems: seq<real>, at: nat, data: seq<real>, flush: Flush, base: nat, dsm: Dsm): (r: seq<real>)
    requires at + |data| <= |elems| && FlushOk(flush)
    ensures |r| == |elems|
    ensures forall e {:trigger r[e]} :: 0 <= e < |elems| ==>
              r[e] == if at <= e < at + |data| then AfterFlush(FateOf(flush, base, dsm, e - at), elems[e], data[e - at]) else elems[e]
  {
    elems[..at] + seq(|data|, j requires 0 <= j < |data| => AfterFlush(FateOf(flush, base, dsm, j), elems[at + j], data[j])) + elems[at + |data|..]
  }

  /** The shared output array. */
  class SharedArray {
    var elems: seq<real>

    constructor (n: nat)
      ensures elems == seq(n, _ => 0.0)
    {
      elems := seq(n, _ => 0.0);
    }

    /** putchunk of a segment; module FlushedSegment has the words of it. */
    method PutSegment(at: nat, data: seq<real>, flush: Flush, base: nat, dsm: Dsm)
      requires at + |data| <= |elems| && FlushOk(flush)
      modifies this
      ensures elems == Landed(old(elems), at, data, flush, base, dsm)
    {
      elems := Landed(elems, at, data, flush, base, dsm);
    }
  }

  datatype SyncThreadNode = SyncThreadNode(machine: nat, threadId: nat)

  class DataSyncNode {
    var doneNodeCnt: nat
    var val: nat
    var waitlist: seq<SyncThreadNode>
    const count: nat            // num_users
    const nodes: nat            // num_nodes
    const self: nat             // self_node_id
    const dsm: Dsm
    const base: nat             // in words
    const size: nat             // in words
    const buf: array<real>      // in elements

    ghost predicate Valid()
      reads this
    {
      0 < nodes && 0 < count && buf.Length == Elem(size, dsm)
    }

    /** init_data_node */
    constructor (totalSize: nat, numUsers: nat, numNodes: nat, selfNodeId: nat, dsmSizeOf: Dsm)
      requires totalSize <= MAX_WORDS && 0 < numNodes && 0 < numUsers
      ensures Valid() && fresh(buf)
      ensures base == ReceiverBase(totalSize, numNodes, selfNodeId) && size == ReceiverSize(totalSize, numNodes, selfNodeId)
      ensures val == 0 && doneNodeCnt == 0 && waitlist == []
      ensures count == numUsers && nodes == numNodes && self == selfNodeId && dsm == dsmSizeOf
      ensures buf[..] == Accumulator.Zeros(buf.Length)
    {
      count, nodes, self, dsm := numUsers, numNodes, selfNodeId, dsmSizeOf;
      val, doneNodeCnt, waitlist := 0, 0, [];
      var blocks := if totalSize % BLOCK == 0 then totalSize / BLOCK else totalSize / BLOCK + 1;
      blocks := if blocks % numNodes == 0 then blocks / numNodes else blocks / numNodes + 1;
      var sz := Wrap32(blocks * BLOCK);
      if Wrap32(blocks * BLOCK * (selfNodeId + 1)) > totalSize {
        sz := Wrap32(totalSize - blocks * selfNodeId * BLOCK);
        if totalSize < Wrap32(blocks * selfNodeId * BLOCK) {
          sz := 0;
        }
      }
      size := sz;
      base := Wrap32(blocks * selfNodeId * BLOCK);
      var zeros := new real[Elem(sz, dsmSizeOf)](_ => 0.0);
      buf := zeros;
      new;
      assert buf[..] == Accumulator.Zeros(buf.Length);
    }

    /** AcAccumulatePartialDoneMsg; `woken` lists the RcWakeRemoteThread calls in order. */
    method PartialDone() returns (woken: seq<SyncThreadNode>)
      requires Valid()
      modifies this`doneNodeCnt, this`waitlist
      ensures (doneNodeCnt, waitlist, woken) == Rounds.CountReport(old(doneNodeCnt), old(waitlist), nodes)
    {
      woken := [];
      doneNodeCnt := doneNodeCnt + 1;
      if doneNodeCnt >= nodes {
        for i := 0 to |waitlist|
          invariant woken == waitlist[..i]
        {
          woken := woken + [waitlist[i]];
        }
        assert waitlist[..|waitlist|] == waitlist;
        doneNodeCnt := 0;
        waitlist := [];
      }
    }

    /** The buffer with one message's data added: `if (size_bytes) ...` of AcAccumulateMsg. */
    method AddData(offset: nat, data: Payload)
      requires Valid()
      requires data == Dense([]) || InBounds(data, Elem(offset, dsm), Elem(base, dsm), Elem(size, dsm))
      modifies buf
      ensures forall e :: 0 <= e < buf.Length ==>
                buf[e] == old(buf[e]) + Contribution(data, Elem(offset, dsm), Elem(base, dsm) + e)
    {
      match data
      case Dense(d) =>
        if d != [] {
          DoAccumulateDense(d, Elem(offset, dsm), buf, Elem(base, dsm));
        }
      case Sparse(items) =>
        DoAccumulateSparse(items, buf, Elem(base, dsm));
    }

    /**
    AcAccumulateMsg. `report` says that a slave sends AcDataAccumulatePartialDone; on the master the
    report is handled at once and `woken` lists who is woken. `flush` is the state of the node's cache,
    should this message make it flush.
    */
    method AccumulateMsg(src: nat, threadId: nat, offset: nat, data: Payload, out: SharedArray, flush: Flush)
      returns (report: bool, woken: seq<SyncThreadNode>)
      requires Valid() && FlushOk(flush) && (size != 0 ==> Elem(base, dsm) + Elem(size, dsm) <= |out.elems|)
      requires data == Dense([]) || InBounds(data, Elem(offset, dsm), Elem(base, dsm), Elem(size, dsm))
      modifies this`val, this`doneNodeCnt, this`waitlist, buf, out
      ensures Valid()
      ensures var sum := Accumulator.AddPart(dsm, old(buf[..]), Elem(base, dsm), Accumulator.Part(offset, data));
              var full := threadId != 0 && Rounds.CountFinal(old(val), count).1;
              var list := if threadId != 0 && self == 0 then old(waitlist) + [SyncThreadNode(src, threadId)] else old(waitlist);
              && val == (if threadId != 0 then Rounds.CountFinal(old(val), count).0 else old(val))
              && buf[..] == (if full && size != 0 then Accumulator.Zeros(|sum|) else sum)
              && out.elems == (if full && size != 0 then Landed(old(out.elems), Elem(base, dsm), sum, flush, base, dsm) else old(out.elems))
              && report == (full && self != 0)
              && (doneNodeCnt, waitlist, woken) ==
                   if full && self == 0 then Rounds.CountReport(old(doneNodeCnt), list, nodes)
                   else (old(doneNodeCnt), list, [])
    {
      report, woken := false, [];
      AddData(offset, data);
      ghost var sum := Accumulator.AddPart(dsm, old(buf[..]), Elem(base, dsm), Accumulator.Part(offset, data));
      assert buf[..] == sum;
      if threadId != 0 {
        val := val + 1;
        if self == 0 {
          waitlist := waitlist + [SyncThreadNode(src, threadId)];
        }
        if val >= count {
          if size != 0 {
            out.PutSegment(Elem(base, dsm), buf[..], flush, base, dsm);
            forall e | 0 <= e < buf.Length {
              buf[e] := 0.0;
            }
            assert buf[..] == Accumulator.Zeros(|sum|);
          }
          val := 0;
          if self == 0 {
            woken := PartialDone();
          } else {
            report := true;
          }
        }
      }
    }
  }
}
