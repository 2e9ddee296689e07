/**
How a vector of `sz` words is split over the nodes. The receiving node and every sender compute
the split on their own, in 32-bit arithmetic; this module shows that they agree and that the
segments partition the vector on block boundaries.
*/
module Partition {
  import opened Words

  /** Largest vector the accumulator accepts, in words. */
  const MAX_WORDS: int := 1024 * 1024 * 128

  /** Up to so many nodes no 32-bit product below wraps, whatever the size. */
  const MAX_NODES: int := 0x7ff_ffff

  predicate Limits(sz: nat, nodes: nat) {
    sz <= MAX_WORDS && 0 < nodes <= MAX_NODES
  }

  /** Blocks each node is responsible for. */
  function BlocksPerNode(sz: nat, nodes: nat): nat
    requires nodes > 0
  {
    CeilDiv(CeilDiv(sz, BLOCK), nodes)
  }

  /** Words each node is responsible for, before clipping at the end of the vector. */
  function Width(sz: nat, nodes: nat): nat
    requires nodes > 0
  {
    BlocksPerNode(sz, nodes) * BLOCK
  }

  // ---- the receiver (init_data_node) ----

  function ReceiverBase(sz: nat, nodes: nat, self: nat): nat
    requires nodes > 0
  {
    Wrap32(BlocksPerNode(sz, nodes) * self * BLOCK)
  }

  function ReceiverSize(sz: nat, nodes: nat, self: nat): nat
    requires nodes > 0
  {
    var blocks := BlocksPerNode(sz, nodes);
    if Wrap32(blocks * BLOCK * (self + 1)) > sz then
      if sz < Wrap32(blocks * self * BLOCK) then 0
      else Wrap32(sz - blocks * self * BLOCK)
    else
      Wrap32(blocks * BLOCK)
  }

  // ---- the sender (_DoAccumulateAndWait): start and end index of the part for node i ----

  function SenderStart(sz: nat, nodes: nat, i: nat): nat
    requires nodes > 0
  {
    Wrap32(i * BlocksPerNode(sz, nodes) * BLOCK)
  }

  function SenderEnd(sz: nat, nodes: nat, i: nat): nat
    requires nodes > 0
  {
    var blocks := BlocksPerNode(sz, nodes);
    if Wrap32(blocks * BLOCK + SenderStart(sz, nodes, i)) > sz then sz
    else Wrap32(SenderStart(sz, nodes, i) + blocks * BLOCK)
  }

  predicate SenderEmpty(sz: nat, nodes: nat, i: nat)
    requires nodes > 0
  {
    SenderEnd(sz, nodes, i) <= SenderStart(sz, nodes, i)
  }

  // ---- exact values ----

  function Min(a: int, b: int): int {
    if a < b then a else b
  }

  lemma WidthBounds(sz: nat, nodes: nat)
    requires Limits(sz, nodes)
    ensures sz <= nodes * Width(sz, nodes) < U32
    ensures sz == 0 <==> Width(sz, nodes) == 0
    ensures Width(sz, nodes) % BLOCK == 0
  {
    var all := CeilDiv(sz, BLOCK);
    var blocks := BlocksPerNode(sz, nodes);
    CeilDivBounds(sz, BLOCK);
    CeilDivBounds(all, nodes);
    MulAssoc(nodes, blocks);
    if all < nodes {
      OneBlock(all, nodes);
    }
    if blocks == 0 {
      assert nodes * blocks == 0;
    }
  }

  /** With more nodes than blocks, a node gets at most one. */
  lemma OneBlock(all: nat, nodes: nat)
    requires all < nodes
    ensures CeilDiv(all, nodes) == if all == 0 then 0 else 1
  {
    SmallDiv(all, nodes);
  }

  lemma SmallDiv(a: nat, b: nat)
    requires a < b
    ensures a / b == 0 && a % b == a
  {
  }

  lemma MulAssoc(a: nat, b: nat)
    ensures a * (b * BLOCK) == a * b * BLOCK
  {
  }

  lemma MulMono(a: nat, b: nat, w: nat)
    requires a <= b
    ensures a * w <= b * w
    ensures (a + 1) * w == a * w + w
  {
  }

  /** The exact product `i * Width` in the forms the source spells it. */
  lemma Products(sz: nat, nodes: nat, i: nat)
    requires Limits(sz, nodes) && i < nodes
    ensures i * Width(sz, nodes) + Width(sz, nodes) <= nodes * Width(sz, nodes) < U32
    ensures BlocksPerNode(sz, nodes) * i * BLOCK == i * Width(sz, nodes)
    ensures i * BlocksPerNode(sz, nodes) * BLOCK == i * Width(sz, nodes)
    ensures BlocksPerNode(sz, nodes) * BLOCK * (i + 1) == i * Width(sz, nodes) + Width(sz, nodes)
  {
    var b, w := BlocksPerNode(sz, nodes), Width(sz, nodes);
    WidthBounds(sz, nodes);
    MulMono(i + 1, nodes, w);
    MulMono(i, nodes, w);
    assert b * i * BLOCK == i * (b * BLOCK);
    assert i * b * BLOCK == i * (b * BLOCK);
    assert b * BLOCK * (i + 1) == w * (i + 1) == (i + 1) * w;
  }

  lemma StartIs(sz: nat, nodes: nat, i: nat)
    requires Limits(sz, nodes) && i < nodes
    ensures SenderStart(sz, nodes, i) == ReceiverBase(sz, nodes, i) == i * Width(sz, nodes) < U32
  {
    Products(sz, nodes, i);
    WrapSmall(i * BlocksPerNode(sz, nodes) * BLOCK);
    WrapSmall(BlocksPerNode(sz, nodes) * i * BLOCK);
  }

  lemma SenderEndIs(sz: nat, nodes: nat, i: nat)
    requires Limits(sz, nodes) && i < nodes
    ensures SenderEnd(sz, nodes, i) == Min(sz, i * Width(sz, nodes) + Width(sz, nodes))
  {
    var start, w := i * Width(sz, nodes), Width(sz, nodes);
    StartIs(sz, nodes, i);
    Products(sz, nodes, i);
    WrapSmall(w + start);
    WrapSmall(start + w);
  }

  lemma ReceiverSizeIs(sz: nat, nodes: nat, i: nat)
    requires Limits(sz, nodes) && i < nodes
    ensures var start := i * Width(sz, nodes);
      ReceiverSize(sz, nodes, i) ==
        if start + Width(sz, nodes) > sz then (if sz < start then 0 else sz - start) else Width(sz, nodes)
  {
    var start, w := i * Width(sz, nodes), Width(sz, nodes);
    Products(sz, nodes, i);
    WrapSmall(start + w);
    WrapSmall(start);
    WrapSmall(w);
    if start <= sz {
      WrapSmall(sz - start);
    }
  }

  /**
  Senders and receivers agree: both see segment i start at `i * Width` and end at the next
  segment or at the end of the vector, and the receiver's buffer is exactly that long.
  */
  lemma SenderReceiverAgree(sz: nat, nodes: nat, i: nat)
    requires Limits(sz, nodes) && i < nodes
    ensures SenderStart(sz, nodes, i) == ReceiverBase(sz, nodes, i) == i * Width(sz, nodes)
    ensures SenderEnd(sz, nodes, i) == Min(sz, i * Width(sz, nodes) + Width(sz, nodes))
    ensures SenderEmpty(sz, nodes, i) ==> ReceiverSize(sz, nodes, i) == 0
    ensures !SenderEmpty(sz, nodes, i) ==>
              ReceiverBase(sz, nodes, i) + ReceiverSize(sz, nodes, i) == SenderEnd(sz, nodes, i)
  {
    StartIs(sz, nodes, i);
    SenderEndIs(sz, nodes, i);
    ReceiverSizeIs(sz, nodes, i);
    WidthZero(sz, nodes);
  }

  /** The segment node i computes for itself is the one the senders compute for it. */
  predicate Agreed(sz: nat, nodes: nat, i: nat)
    requires nodes > 0
  {
    && SenderStart(sz, nodes, i) == ReceiverBase(sz, nodes, i)
    && (if SenderEmpty(sz, nodes, i) then ReceiverSize(sz, nodes, i) == 0
        else ReceiverBase(sz, nodes, i) + ReceiverSize(sz, nodes, i) == SenderEnd(sz, nodes, i))
  }

  /** They agree on every node exactly up to MAX_NODES nodes; above, 32-bit products wrap, unless there is nothing to split. */
  lemma AgreedIffFewNodes(sz: nat, nodes: nat)
    requires sz <= MAX_WORDS && 0 < nodes < U32 / 2
    ensures (forall i :: 0 <= i < nodes ==> Agreed(sz, nodes, i)) <==> sz == 0 || nodes <= MAX_NODES
  {
    if nodes <= MAX_NODES {
      forall i | 0 <= i < nodes ensures Agreed(sz, nodes, i) {
        SenderReceiverAgree(sz, nodes, i);
      }
    } else {
      FewBlocks(sz, nodes);
      if sz > 0 {
        assert !Agreed(sz, nodes, MAX_NODES);
      }
    }
  }

  lemma FewBlocks(sz: nat, nodes: nat)
    requires sz <= MAX_WORDS && nodes > MAX_NODES
    ensures BlocksPerNode(sz, nodes) == if sz == 0 then 0 else 1
  {
    CeilDivBounds(sz, BLOCK);
    OneBlock(CeilDiv(sz, BLOCK), nodes);
  }

  lemma WidthZero(sz: nat, nodes: nat)
    requires Limits(sz, nodes)
    ensures sz == 0 <==> Width(sz, nodes) == 0
  {
    WidthBounds(sz, nodes);
  }

  function Quotient(w: nat, width: nat): nat
    requires width > 0
  {
    w / width
  }

  /** The node responsible for word w. */
  function Owner(sz: nat, nodes: nat, w: nat): nat
    requires Limits(sz, nodes) && w < sz
  {
    WidthPositive(sz, nodes);
    Quotient(w, Width(sz, nodes))
  }

  lemma WidthPositive(sz: nat, nodes: nat)
    requires Limits(sz, nodes) && sz > 0
    ensures Width(sz, nodes) > 0
  {
    WidthBounds(sz, nodes);
  }

  predicate InSegment(sz: nat, nodes: nat, i: nat, w: nat)
    requires nodes > 0
  {
    ReceiverBase(sz, nodes, i) <= w < ReceiverBase(sz, nodes, i) + ReceiverSize(sz, nodes, i)
  }

  /** Every word of the vector lies in exactly one segment, that of its owner; no segment leaves the vector. */
  lemma SegmentsPartition(sz: nat, nodes: nat, i: nat, w: nat)
    requires Limits(sz, nodes) && i < nodes
    ensures InSegment(sz, nodes, i, w) <==> w < sz && Owner(sz, nodes, w) == i
    ensures w < sz ==> Owner(sz, nodes, w) < nodes
  {
    SenderReceiverAgree(sz, nodes, i);
    if w < sz {
      WidthBounds(sz, nodes);
      DivMeaning(w, Width(sz, nodes), i);
      OwnerExists(sz, nodes, w);
    }
  }

  lemma OwnerExists(sz: nat, nodes: nat, w: nat)
    requires Limits(sz, nodes) && w < sz
    ensures Owner(sz, nodes, w) < nodes
  {
    WidthBounds(sz, nodes);
    var width, o := Width(sz, nodes), Owner(sz, nodes, w);
    DivMeaning(w, width, o);
    if nodes <= o {
      MulMono(nodes, o, width);
    }
  }

  lemma DivMeaning(w: nat, width: nat, i: nat)
    requires width > 0
    ensures w / width == i <==> i * width <= w < i * width + width
  {
    var q := w / width;
    assert w == width * q + w % width;
    if i < q {
      MulMono(i + 1, q, width);
    } else if q < i {
      MulMono(q + 1, i, width);
    }
  }

  /**
  Elements of one or two words are never split: when the vector holds whole elements, each segment
  starts and ends on an element boundary.
  */
  lemma SegmentsKeepElementsWhole(sz: nat, nodes: nat, dsm: nat, i: nat)
    requires Limits(sz, nodes) && i < nodes && 1 <= dsm <= 2 && sz % dsm == 0
    ensures ReceiverBase(sz, nodes, i) % dsm == 0
    ensures ReceiverSize(sz, nodes, i) % dsm == 0
    ensures SenderEnd(sz, nodes, i) % dsm == 0
  {
    SenderReceiverAgree(sz, nodes, i);
    var w := Width(sz, nodes);
    BlocksAreWhole(i * BlocksPerNode(sz, nodes), dsm);
    BlocksAreWhole(BlocksPerNode(sz, nodes), dsm);
    MulAssoc(i, BlocksPerNode(sz, nodes));
    SumIsWhole(i * w, w, dsm);
    assert SenderEnd(sz, nodes, i) % dsm == 0;
    if !SenderEmpty(sz, nodes, i) {
      SumIsWhole(SenderStart(sz, nodes, i), ReceiverSize(sz, nodes, i), dsm);
    }
  }

  lemma BlocksAreWhole(x: nat, dsm: nat)
    requires 1 <= dsm <= 2
    ensures x * BLOCK % dsm == 0
  {
    EvenBlocks(x);
  }

  lemma EvenBlocks(x: nat)
    ensures x * BLOCK % 2 == 0 && x * BLOCK % 1 == 0
  {
    assert x * BLOCK == 2 * (16 * x);
  }

  lemma SumIsWhole(a: nat, b: nat, dsm: nat)
    requires 1 <= dsm <= 2 && a % dsm == 0
    ensures (a + b) % dsm == 0 <==> b % dsm == 0
  {
  }

  /** Non-empty segments form a prefix of the nodes, and there is one unless the vector is empty. */
  lemma NonEmptyIsPrefix(sz: nat, nodes: nat, i: nat, j: nat)
    requires Limits(sz, nodes) && i <= j < nodes
    ensures !SenderEmpty(sz, nodes, j) ==> !SenderEmpty(sz, nodes, i)
    ensures SenderEmpty(sz, nodes, 0) <==> sz == 0
  {
    SenderReceiverAgree(sz, nodes, i);
    SenderReceiverAgree(sz, nodes, j);
    SenderReceiverAgree(sz, nodes, 0);
    WidthBounds(sz, nodes);
    MulMono(i, j, Width(sz, nodes));
  }
}
