/**
The segments the source computes satisfy what the step system of module Accumulator asks of them,
and each receiver's buffer is laid out exactly as the senders expect.
*/
module AccumulatorLayout {
  import opened Accumulator
  import opened Chunks
  import opened Fates
  import opened Partition
  import SendLoop

  ghost predicate Sensible(nodes: nat, dsm: Dsm, len: nat, home: seq<nat>, input: (nat, nat) -> seq<real>) {
    && Limits(WordOf(len, dsm), nodes) && |home| > 0
    && (forall u :: 0 <= u < |home| ==> home[u] < nodes)
    && forall u, r :: |input(u, r)| == len
  }

  function Starts(nodes: nat, dsm: Dsm, len: nat): seq<nat>
    requires nodes > 0
  {
    seq(nodes, i requires 0 <= i => SenderStart(WordOf(len, dsm), nodes, i))
  }

  function Ends(nodes: nat, dsm: Dsm, len: nat): seq<nat>
    requires nodes > 0
  {
    seq(nodes, i requires 0 <= i => SenderEnd(WordOf(len, dsm), nodes, i))
  }

  function Owners(nodes: nat, dsm: Dsm, len: nat): seq<nat>
    requires Limits(WordOf(len, dsm), nodes)
  {
    seq(len, e requires 0 <= e < len => Owner(WordOf(len, dsm), nodes, WordOf(e, dsm)))
  }

  /** The configuration with the segments as `_DoAccumulateAndWait` computes them. */
  ghost function MakeConfig(nodes: nat, dsm: Dsm, len: nat, threshold: real, home: seq<nat>,
                            input: (nat, nat) -> seq<real>, fate: (nat, nat) -> Fate): Config
    requires Sensible(nodes, dsm, len, home, input)
  {
    Config(nodes, dsm, len, threshold, home, Starts(nodes, dsm, len), Ends(nodes, dsm, len), Owners(nodes, dsm, len), input, fate)
  }

  lemma WordsWhole(len: nat, dsm: Dsm)
    ensures WordOf(len, dsm) % dsm == 0
  {
    if dsm == 2 {
      assert WordOf(len, dsm) == 2 * len;
    }
  }

  lemma MultipleIsWhole(words: nat, dsm: Dsm)
    requires words % dsm == 0
    ensures Whole(words, dsm)
  {
  }

  /** Segments are made of whole elements. */
  lemma SegmentWhole(sz: nat, nodes: nat, dsm: Dsm, n: nat)
    requires Limits(sz, nodes) && n < nodes && sz % dsm == 0
    ensures Whole(SenderStart(sz, nodes, n), dsm) && Whole(SenderEnd(sz, nodes, n), dsm)
  {
    SenderReceiverAgree(sz, nodes, n);
    SegmentsKeepElementsWhole(sz, nodes, dsm, n);
    MultipleIsWhole(SenderStart(sz, nodes, n), dsm);
    MultipleIsWhole(SenderEnd(sz, nodes, n), dsm);
  }

  lemma SegmentBounds(nodes: nat, dsm: Dsm, len: nat, n: nat)
    requires Limits(WordOf(len, dsm), nodes) && n < nodes
    ensures var sz := WordOf(len, dsm);
            && Whole(SenderStart(sz, nodes, n), dsm) && Whole(SenderEnd(sz, nodes, n), dsm)
            && SenderEnd(sz, nodes, n) <= sz
            && SenderStart(sz, nodes, n) == ReceiverBase(sz, nodes, n)
            && (if SenderEmpty(sz, nodes, n) then ReceiverSize(sz, nodes, n) == 0
                else ReceiverSize(sz, nodes, n) > 0 && SenderStart(sz, nodes, n) + ReceiverSize(sz, nodes, n) == SenderEnd(sz, nodes, n))
  {
    WordsWhole(len, dsm);
    SegmentWhole(WordOf(len, dsm), nodes, dsm, n);
    SenderReceiverAgree(WordOf(len, dsm), nodes, n);
  }

  lemma OwnerOfElement(nodes: nat, dsm: Dsm, len: nat, n: nat, e: nat)
    requires Limits(WordOf(len, dsm), nodes) && n < nodes
    ensures var sz := WordOf(len, dsm);
            var lo := Elem(SenderStart(sz, nodes, n), dsm);
            var hi := if SenderEmpty(sz, nodes, n) then lo else Elem(SenderEnd(sz, nodes, n), dsm);
            lo <= e < hi <==> e < len && Owner(sz, nodes, WordOf(e, dsm)) == n
    ensures e < len ==> Owner(WordOf(len, dsm), nodes, WordOf(e, dsm)) < nodes
  {
    SegmentBounds(nodes, dsm, len, n);
    SegmentsPartition(WordOf(len, dsm), nodes, n, WordOf(e, dsm));
  }

  /** The segments partition the elements, as the step system requires. */
  lemma LayoutOk(nodes: nat, dsm: Dsm, len: nat, threshold: real, home: seq<nat>, input: (nat, nat) -> seq<real>, fate: (nat, nat) -> Fate)
    requires Sensible(nodes, dsm, len, home, input)
    ensures Ok(MakeConfig(nodes, dsm, len, threshold, home, input, fate))
  {
    var c := MakeConfig(nodes, dsm, len, threshold, home, input, fate);
    forall n | 0 <= n < nodes ensures SegmentOk(c, n) {
      SegmentBounds(nodes, dsm, len, n);
    }
    forall e | 0 <= e < len ensures c.owner[e] < c.nodes && Accumulator.InSegment(c, c.owner[e], e) {
      OwnerOfElement(nodes, dsm, len, 0, e);
      OwnerOfElement(nodes, dsm, len, c.owner[e], e);
    }
    forall n: nat, e: nat | n < c.nodes && Accumulator.InSegment(c, n, e) ensures e < c.len && c.owner[e] == n {
      OwnerOfElement(nodes, dsm, len, n, e);
    }
  }

  /** Every node's buffer (init_data_node) covers exactly its own segment. */
  lemma BuffersMatch(nodes: nat, dsm: Dsm, len: nat, threshold: real, home: seq<nat>, input: (nat, nat) -> seq<real>, fate: (nat, nat) -> Fate, n: nat)
    requires Sensible(nodes, dsm, len, home, input) && n < nodes
    ensures BufferMatches(MakeConfig(nodes, dsm, len, threshold, home, input, fate), n)
  {
    SegmentBounds(nodes, dsm, len, n);
  }

  /** The guard of the send loop, as a caller can check it: the own segment starts inside the vector. */
  lemma GuardIsOwnStart(nodes: nat, dsm: Dsm, len: nat, threshold: real, home: seq<nat>, input: (nat, nat) -> seq<real>, fate: (nat, nat) -> Fate, u: nat)
    requires Sensible(nodes, dsm, len, home, input) && u < |home|
    requires Ok(MakeConfig(nodes, dsm, len, threshold, home, input, fate))
    ensures SendLoop.Guard(MakeConfig(nodes, dsm, len, threshold, home, input, fate), u) <==>
              len == 0 || StartsInside(nodes, dsm, len, home[u])
  {
    var c := MakeConfig(nodes, dsm, len, threshold, home, input, fate);
    assert forall k :: 0 <= k < nodes ==> Empty(c, k) == SenderEmpty(WordOf(len, dsm), nodes, k);
    GuardMeaning(nodes, dsm, len, home[u]);
    if len == 0 {
      forall k | 0 <= k < nodes ensures Empty(c, k) {
        GuardMeaning(nodes, dsm, len, k);
        NonEmptyIsPrefix(WordOf(len, dsm), nodes, 0, k);
      }
    } else {
      assert !Empty(c, 0);
    }
  }

  predicate StartsInside(nodes: nat, dsm: Dsm, len: nat, n: nat)
    requires nodes > 0
  {
    n * Width(WordOf(len, dsm), nodes) < WordOf(len, dsm)
  }

  lemma GuardMeaning(nodes: nat, dsm: Dsm, len: nat, n: nat)
    requires Limits(WordOf(len, dsm), nodes) && n < nodes
    ensures SenderEmpty(WordOf(len, dsm), nodes, n) <==> !StartsInside(nodes, dsm, len, n)
    ensures SenderEmpty(WordOf(len, dsm), nodes, 0) <==> len == 0
  {
    SenderReceiverAgree(WordOf(len, dsm), nodes, n);
    NonEmptyIsPrefix(WordOf(len, dsm), nodes, 0, n);
    if len > 0 {
      WidthPositive(WordOf(len, dsm), nodes);
    }
  }

  /** The receiver's own idea of its segment is the senders' one. */
  ghost predicate BufferMatches(c: Config, n: nat)
    requires c.nodes > 0 && |c.start| == |c.end| == c.nodes && n < c.nodes
  {
    && Elem(ReceiverBase(WordOf(c.len, c.dsm), c.nodes, n), c.dsm) == Lo(c, n)
    && Elem(ReceiverSize(WordOf(c.len, c.dsm), c.nodes, n), c.dsm) == Hi(c, n) - Lo(c, n)
    && (ReceiverSize(WordOf(c.len, c.dsm), c.nodes, n) == 0 <==> Empty(c, n))
  }
}
