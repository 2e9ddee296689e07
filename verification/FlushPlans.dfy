/**
Configurations of the accumulator whose fates come from caches: for every round and node, the state of the
node's cache when it flushes. Which elements are stored is then a matter of the blocks of each segment.
*/
module FlushPlans {
  import opened Accumulator
  import opened AccumulatorLayout
  import opened CacheChunks
  import opened Chunks
  import opened Fates
  import opened FlushedSegment
  import opened Partition
  import opened Words

  /** Per round and node. */
  type Plan = (nat, nat) -> Flush

  ghost predicate PlanOk(plan: Plan) {
    forall r: nat, n: nat {:trigger plan(r, n)} :: FlushOk(plan(r, n)) && (plan(r, n).Cached? ==> CodecOk(plan(r, n).codec))
  }

  /** The fate of element e in round r: that of its place in its owner's segment. */
  function FatesOf(nodes: nat, dsm: Dsm, len: nat, plan: Plan): (nat, nat) -> Fate
    requires Limits(WordOf(len, dsm), nodes)
  {
    (r: nat, e: nat) =>
      if e >= len then Stored
      else
        var n := Owner(WordOf(len, dsm), nodes, WordOf(e, dsm));
        var start := SenderStart(WordOf(len, dsm), nodes, n);
        if !FlushOk(plan(r, n)) || e < Elem(start, dsm) then Stored else FateOf(plan(r, n), start, dsm, e - Elem(start, dsm))
  }

  ghost function PlannedConfig(nodes: nat, dsm: Dsm, len: nat, threshold: real, home: seq<nat>,
                               input: (nat, nat) -> seq<real>, plan: Plan): Config
    requires Sensible(nodes, dsm, len, home, input)
  {
    MakeConfig(nodes, dsm, len, threshold, home, input, FatesOf(nodes, dsm, len, plan))
  }

  /** The segment of the node that owns element e. */
  lemma OwnersSegment(nodes: nat, dsm: Dsm, len: nat, e: nat)
    requires Limits(WordOf(len, dsm), nodes) && e < len
    ensures var (sz, n) := (WordOf(len, dsm), Owner(WordOf(len, dsm), nodes, WordOf(e, dsm)));
            var start := SenderStart(sz, nodes, n);
            && n < nodes && start % BLOCK == 0 && Elem(start, dsm) <= e && start + WordOf(e - Elem(start, dsm), dsm) == WordOf(e, dsm)
            && start <= WordOf(e, dsm) && WordOf(e, dsm) + dsm <= SenderEnd(sz, nodes, n)
  {
    var sz := WordOf(len, dsm);
    OwnerOfElement(nodes, dsm, len, 0, e);
    var n := Owner(sz, nodes, WordOf(e, dsm));
    OwnerOfElement(nodes, dsm, len, n, e);
    SegmentBounds(nodes, dsm, len, n);
    StartAligned(sz, nodes, n);
    ElementWords(SenderStart(sz, nodes, n), SenderEnd(sz, nodes, n), e, dsm);
  }

  lemma StartAligned(sz: nat, nodes: nat, n: nat)
    requires Limits(sz, nodes) && n < nodes
    ensures SenderStart(sz, nodes, n) % BLOCK == 0
  {
    SenderReceiverAgree(sz, nodes, n);
    WidthBounds(sz, nodes);
    BlocksMultiple(n, Width(sz, nodes));
  }

  lemma BlocksMultiple(n: nat, width: nat)
    requires width % BLOCK == 0
    ensures n * width % BLOCK == 0
  {
    assert width == BLOCK * (width / BLOCK);
    assert n * width == BLOCK * (n * (width / BLOCK));
  }

  lemma ElementWords(start: nat, end: nat, e: nat, dsm: Dsm)
    requires Whole(start, dsm) && Whole(end, dsm) && Elem(start, dsm) <= e < Elem(end, dsm)
    ensures start + WordOf(e - Elem(start, dsm), dsm) == WordOf(e, dsm) && start <= WordOf(e, dsm) && WordOf(e, dsm) + dsm <= end
  {
  }

  /** A cached flush whose first word is `start`, when it comes to the block of word w: is this a write miss at the own home? */
  predicate MissesAt(flush: Flush, start: nat, w: nat)
    requires FlushOk(flush) && flush.Cached?
  {
    var b := Address(flush.okey, w) / BLOCK;
    OwnMiss(Visited(flush.site, Address(flush.okey, start) / BLOCK, b), b)
  }

  /** The fates of the configuration are those of the flushes. */
  lemma FatesAre(nodes: nat, dsm: Dsm, len: nat, plan: Plan, r: nat, e: nat)
    requires Limits(WordOf(len, dsm), nodes) && PlanOk(plan) && e < len
    ensures var (w, n) := (WordOf(e, dsm), Owner(WordOf(len, dsm), nodes, WordOf(e, dsm)));
            var (flush, start) := (plan(r, n), SenderStart(WordOf(len, dsm), nodes, n));
            FatesOf(nodes, dsm, len, plan)(r, e) ==
              if flush.Direct? || !MissesAt(flush, start, w) then Stored
              else if w % BLOCK != 0 then Missed
              else if dsm == 1 then Stored
              else Torn(flush.codec)
  {
    var w, n := WordOf(e, dsm), Owner(WordOf(len, dsm), nodes, WordOf(e, dsm));
    var flush, start := plan(r, n), SenderStart(WordOf(len, dsm), nodes, n);
    OwnersSegment(nodes, dsm, len, e);
    if flush.Cached? {
      FateExactly(flush, start, dsm, e - Elem(start, dsm));
      SameOffset(flush.okey, w);
    }
  }

  lemma SameOffset(okey: nat, w: nat)
    ensures Address(okey, w) % BLOCK == w % BLOCK
    ensures Address(okey, w) / BLOCK == okey * (U32 / BLOCK) + w / BLOCK
  {
    var q := okey * (U32 / BLOCK) + w / BLOCK;
    assert okey * U32 == BLOCK * (okey * (U32 / BLOCK));
    assert w == BLOCK * (w / BLOCK) + w % BLOCK;
    DivOf(Address(okey, w), q, w % BLOCK);
  }

  lemma DivOf(a: nat, q: nat, r: nat)
    requires a == BLOCK * q + r && r < BLOCK
    ensures a / BLOCK == q && a % BLOCK == r
  {
  }

  lemma FatesOk(nodes: nat, dsm: Dsm, len: nat, plan: Plan, r: nat, e: nat)
    requires Limits(WordOf(len, dsm), nodes) && PlanOk(plan) && e < len
    ensures FateOk(FatesOf(nodes, dsm, len, plan)(r, e))
  {
    FatesAre(nodes, dsm, len, plan, r, e);
  }

  // ---- block by block ----

  /** The words of the segment [start, end) that lie in the block from word w on. */
  function PieceOf(end: nat, w: nat): int {
    if w + BLOCK < end then BLOCK else end - w
  }

  /**
  The guard of the branch that drops words, for the block from word w on: no write miss at the own home,
  or one that passes a single word.
  */
  predicate PieceKept(flush: Flush, start: nat, end: nat, w: nat)
    requires FlushOk(flush)
  {
    flush.Direct? || !MissesAt(flush, start, w) || PieceOf(end, w) == 1
  }

  /** All blocks of all segments, in all rounds. */
  ghost predicate PiecesKept(nodes: nat, dsm: Dsm, len: nat, plan: Plan)
    requires Limits(WordOf(len, dsm), nodes) && PlanOk(plan)
  {
    forall r: nat, n: nat, w: nat {:trigger KeptAt(nodes, dsm, len, plan, r, n, w)} :: KeptAt(nodes, dsm, len, plan, r, n, w)
  }

  ghost predicate KeptAt(nodes: nat, dsm: Dsm, len: nat, plan: Plan, r: nat, n: nat, w: nat)
    requires Limits(WordOf(len, dsm), nodes) && PlanOk(plan)
  {
    var (start, end) := (SenderStart(WordOf(len, dsm), nodes, n), SenderEnd(WordOf(len, dsm), nodes, n));
    n < nodes && start <= w < end && w % BLOCK == 0 ==> PieceKept(plan(r, n), start, end, w)
  }

  ghost predicate StoredAt(nodes: nat, dsm: Dsm, len: nat, plan: Plan, r: nat, e: nat)
    requires Limits(WordOf(len, dsm), nodes)
  {
    FatesOf(nodes, dsm, len, plan)(r, e).Stored?
  }

  /** An element is stored if its block's piece is kept. */
  lemma KeptIsStored(nodes: nat, dsm: Dsm, len: nat, plan: Plan, r: nat, e: nat)
    requires Limits(WordOf(len, dsm), nodes) && PlanOk(plan) && e < len && PiecesKept(nodes, dsm, len, plan)
    ensures StoredAt(nodes, dsm, len, plan, r, e)
  {
    var x, n := WordOf(e, dsm), Owner(WordOf(len, dsm), nodes, WordOf(e, dsm));
    var start, end := SenderStart(WordOf(len, dsm), nodes, n), SenderEnd(WordOf(len, dsm), nodes, n);
    OwnersSegment(nodes, dsm, len, e);
    FatesAre(nodes, dsm, len, plan, r, e);
    var w := BlockStart(x);
    BlockStartBounds(x);
    StartBefore(start, x);
    assert KeptAt(nodes, dsm, len, plan, r, n, w);
    if plan(r, n).Cached? {
      SameBlock(plan(r, n), start, w, x);
      if PieceOf(end, w) == 1 {
        SegmentBounds(nodes, dsm, len, n);
        OnlyWord(w, x, end, dsm);
      }
    }
  }

  lemma StartBefore(start: nat, x: nat)
    requires start % BLOCK == 0 && start <= x
    ensures start <= BlockStart(x)
  {
    assert start == BLOCK * (start / BLOCK) && x == BLOCK * (x / BLOCK) + x % BLOCK;
  }

  lemma SameBlock(flush: Flush, start: nat, w: nat, x: nat)
    requires FlushOk(flush) && flush.Cached? && w % BLOCK == 0 && w <= x < w + BLOCK
    ensures MissesAt(flush, start, w) == MissesAt(flush, start, x)
  {
    SameOffset(flush.okey, w);
    SameOffset(flush.okey, x);
    DivOf(x, w / BLOCK, x - w);
  }

  lemma OnlyWord(w: nat, x: nat, end: nat, dsm: Dsm)
    requires w % BLOCK == 0 && w <= x && x + dsm <= end && PieceOf(end, w) == 1 && Whole(end, dsm)
    ensures x == w && dsm == 1
  {
  }

  /** Of a piece that is not kept some element is not stored. */
  lemma LostElement(nodes: nat, dsm: Dsm, len: nat, plan: Plan, r: nat, n: nat, w: nat) returns (e: nat)
    requires Limits(WordOf(len, dsm), nodes) && PlanOk(plan) && !KeptAt(nodes, dsm, len, plan, r, n, w)
    ensures e < len && !StoredAt(nodes, dsm, len, plan, r, e)
  {
    var sz := WordOf(len, dsm);
    SegmentBounds(nodes, dsm, len, n);
    e := if dsm == 1 then w + 1 else w / 2;
    ElementOfWord(w, e, dsm, SenderStart(sz, nodes, n), SenderEnd(sz, nodes, n));
    OwnerOfElement(nodes, dsm, len, n, e);
    SameBlock(plan(r, n), SenderStart(sz, nodes, n), w, WordOf(e, dsm));
    FatesAre(nodes, dsm, len, plan, r, e);
  }

  lemma ElementOfWord(w: nat, e: nat, dsm: Dsm, start: nat, end: nat)
    requires w % BLOCK == 0 && start <= w < end && PieceOf(end, w) != 1 && Whole(start, dsm) && Whole(end, dsm)
    requires e == if dsm == 1 then w + 1 else w / 2
    ensures Elem(start, dsm) <= e < Elem(end, dsm) && w <= WordOf(e, dsm) < w + BLOCK
    ensures dsm == 1 ==> WordOf(e, dsm) % BLOCK != 0
    ensures dsm == 2 ==> WordOf(e, dsm) == w
  {
    assert w == BLOCK * (w / BLOCK);
    if dsm == 1 {
      DivOf(w + 1, w / BLOCK, 1);
    } else {
      assert w == 2 * (16 * (w / BLOCK));
    }
  }

  /** Every element of every round is stored if and only if every piece is kept. */
  lemma StoredIffKept(nodes: nat, dsm: Dsm, len: nat, plan: Plan)
    requires Limits(WordOf(len, dsm), nodes) && PlanOk(plan)
    ensures (forall r: nat, e: nat {:trigger StoredAt(nodes, dsm, len, plan, r, e)} :: e < len ==> StoredAt(nodes, dsm, len, plan, r, e))
            <==> PiecesKept(nodes, dsm, len, plan)
  {
    if PiecesKept(nodes, dsm, len, plan) {
      forall r: nat, e: nat | e < len ensures StoredAt(nodes, dsm, len, plan, r, e) {
        KeptIsStored(nodes, dsm, len, plan, r, e);
      }
    } else {
      var r: nat, n: nat, w: nat :| !KeptAt(nodes, dsm, len, plan, r, n, w);
      var e := LostElement(nodes, dsm, len, plan, r, n, w);
    }
  }
}
