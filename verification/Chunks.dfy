/**
Chunks of a vector on the wire: how a sender cuts its next chunk, densely or sparsely, and how a
receiver adds a chunk into its buffer. Vectors and buffers are in elements (exact reals); offsets,
segment ends and chunk advances are in words, as in the source. An element takes `dsm` words.
*/
module Chunks {
  import opened Sums

  /** BD_DATA_PROCESS_SIZE: the most bytes a chunk may carry. */
  const MAX_BYTES: int := 16 * 1024

  /** The data of one message. Sparse items carry the element's index in the whole vector. */
  datatype Payload =
    | Dense(data: seq<real>)
    | Sparse(items: seq<(nat, real)>)

  datatype Chunk = Chunk(advance: nat, bytes: nat, payload: Payload)

  /** dsm_size_of: a shared element is one or two words (4 or 8 bytes). */
  type Dsm = d: nat | 1 <= d <= 2 witness 1

  /** `words / dsm_size_of`. */
  function Elem(words: nat, dsm: Dsm): nat {
    if dsm == 2 then words / 2 else words
  }

  /** First word of element e; also the number of words in e elements. */
  function WordOf(e: nat, dsm: Dsm): nat {
    if dsm == 2 then e + e else e
  }

  /** `words` is a whole number of elements. */
  predicate Whole(words: nat, dsm: Dsm) {
    dsm == 2 ==> words % 2 == 0
  }

  /** Bytes of n sparse elements: sizeof(SparseElement<T>) with 4-byte packing is 8 or 12. */
  function ItemBytes(n: nat, dsm: Dsm): nat {
    if dsm == 2 then n * 12 else n * 8
  }

  /** The value a sparse chunk sends for `v`: values below the threshold become zero. */
  function Kept(v: real, t: real): real {
    if v >= 0.0 && v < t then 0.0
    else if v < 0.0 && v > -t then 0.0
    else v
  }

  /** A zero threshold loses nothing, and a positive one moves a value by less than itself. */
  lemma KeptIsClose(v: real, t: real)
    ensures t <= 0.0 ==> Kept(v, t) == v
    ensures t > 0.0 ==> Abs(v - Kept(v, t)) < t
  {
  }

  /** The non-zero kept elements of vec[from..to], in order. */
  function SparseItems(vec: seq<real>, from: nat, upto: nat, t: real): seq<(nat, real)>
    requires from <= upto <= |vec|
    decreases upto
  {
    if from == upto then []
    else
      var rest := SparseItems(vec, from, upto - 1, t);
      if Kept(vec[upto - 1], t) != 0.0 then rest + [(upto - 1, Kept(vec[upto - 1], t))] else rest
  }

  /** Where the sparse scan stops when `used` bytes are taken on reaching element i. */
  function SparseEnd(vec: seq<real>, i: nat, end: nat, t: real, used: nat, dsm: Dsm): (r: nat)
    requires i <= end <= |vec|
    ensures i <= r <= end
    decreases end - i
  {
    if i == end || used + ItemBytes(1, dsm) >= MAX_BYTES then i
    else if Kept(vec[i], t) != 0.0 then SparseEnd(vec, i + 1, end, t, used + ItemBytes(1, dsm), dsm)
    else SparseEnd(vec, i + 1, end, t, used, dsm)
  }

  /** What the sender puts in its next chunk: words [idx, size) of the vector are still to go. */
  function NextChunk(vec: seq<real>, sparse: bool, t: real, idx: nat, size: nat, dsm: Dsm): Chunk
    requires idx <= size && Elem(size, dsm) <= |vec| && Whole(idx, dsm) && Whole(size, dsm)
  {
    var from, end := Elem(idx, dsm), Elem(size, dsm);
    if sparse then
      var upto := SparseEnd(vec, from, end, t, 0, dsm);
      var items := SparseItems(vec, from, upto, t);
      Chunk(dsm * (upto - from), ItemBytes(|items|, dsm), Sparse(items))
    else
      var words := if idx + MAX_BYTES / 4 > size then size - idx else MAX_BYTES / 4;
      Chunk(words, words * 4, Dense(vec[from..Elem(idx + words, dsm)]))
  }

  // ---- the sender's loops ----

  /** MakeSparseArray: scans vec[src..vsize] and returns how many elements it covered. */
  method MakeSparseArray(vec: seq<real>, src: nat, vsize: nat, threshold: real, dsm: Dsm)
    returns (covered: nat, used: nat, items: seq<(nat, real)>)
    requires src <= vsize <= |vec|
    ensures src + covered == SparseEnd(vec, src, vsize, threshold, 0, dsm)
    ensures items == SparseItems(vec, src, src + covered, threshold)
    ensures used == ItemBytes(|items|, dsm)
  {
    used, items := 0, [];
    var i := src;
    while i < vsize
      invariant src <= i <= vsize
      invariant SparseEnd(vec, i, vsize, threshold, used, dsm) == SparseEnd(vec, src, vsize, threshold, 0, dsm)
      invariant items == SparseItems(vec, src, i, threshold)
      invariant used == ItemBytes(|items|, dsm)
    {
      if used + ItemBytes(1, dsm) >= MAX_BYTES {
        break;
      }
      var val := vec[i];
      if val >= 0.0 && val < threshold {
        val := 0.0;
      } else if val < 0.0 && val > -threshold {
        val := 0.0;
      }
      if val != 0.0 {
        items := items + [(i, val)];
        used := used + ItemBytes(1, dsm);
      }
      i := i + 1;
    }
    covered := i - src;
  }

  /** AcAccumulatePrepareBuffer, for the mode already chosen. */
  method PrepareBuffer(vec: seq<real>, sparse: bool, threshold: real, idx: nat, size: nat, dsm: Dsm)
    returns (sendIdxSize: nat, outsize: nat, payload: Payload)
    requires idx <= size && Elem(size, dsm) <= |vec| && Whole(idx, dsm) && Whole(size, dsm)
    ensures Chunk(sendIdxSize, outsize, payload) == NextChunk(vec, sparse, threshold, idx, size, dsm)
  {
    if sparse {
      var covered, used, items := MakeSparseArray(vec, Elem(idx, dsm), Elem(size, dsm), threshold, dsm);
      sendIdxSize, outsize, payload := dsm * covered, used, Sparse(items);
    } else {
      if idx + MAX_BYTES / 4 > size {
        sendIdxSize := size - idx;
      } else {
        sendIdxSize := MAX_BYTES / 4;
      }
      outsize := sendIdxSize * 4;
      payload := Dense(vec[Elem(idx, dsm)..Elem(idx + sendIdxSize, dsm)]);
    }
  }

  // ---- what a chunk contributes ----

  /** Sum of the items for element e. */
  function SumAt(items: seq<(nat, real)>, e: nat): real {
    if items == [] then 0.0
    else
      var last := items[|items| - 1];
      SumAt(items[..|items| - 1], e) + (if last.0 == e then last.1 else 0.0)
  }

  /** What a payload sent for element offset `off` adds to element e of the vector. */
  function Contribution(p: Payload, off: nat, e: nat): real {
    match p
    case Dense(data) => if off <= e < off + |data| then data[e - off] else 0.0
    case Sparse(items) => SumAt(items, e)
  }

  /** The receiver's bound asserts hold for a buffer of `len` elements starting at element `base`. */
  predicate InBounds(p: Payload, off: nat, base: nat, len: nat) {
    match p
    case Dense(data) => base <= off && off + |data| <= base + len
    case Sparse(items) => forall k :: 0 <= k < |items| ==> base <= items[k].0 < base + len
  }

  lemma {:induction false} SparseItemsSum(vec: seq<real>, from: nat, upto: nat, t: real, e: nat)
    requires from <= upto <= |vec|
    ensures SumAt(SparseItems(vec, from, upto, t), e) == if from <= e < upto then Kept(vec[e], t) else 0.0
    decreases upto
  {
    if from < upto {
      SparseItemsSum(vec, from, upto - 1, t, e);
      var rest := SparseItems(vec, from, upto - 1, t);
      if Kept(vec[upto - 1], t) != 0.0 {
        assert (rest + [(upto - 1, Kept(vec[upto - 1], t))])[..|rest|] == rest;
      }
    }
  }

  lemma {:induction false} SparseItemsInRange(vec: seq<real>, from: nat, upto: nat, t: real)
    requires from <= upto <= |vec|
    ensures forall k :: 0 <= k < |SparseItems(vec, from, upto, t)| ==> from <= SparseItems(vec, from, upto, t)[k].0 < upto
    decreases upto
  {
    if from < upto {
      SparseItemsInRange(vec, from, upto - 1, t);
    }
  }

  lemma {:induction false} SparseEndFits(vec: seq<real>, src: nat, i: nat, end: nat, t: real, dsm: Dsm)
    requires src <= i <= end <= |vec|
    requires ItemBytes(|SparseItems(vec, src, i, t)|, dsm) < MAX_BYTES
    ensures var r := SparseEnd(vec, i, end, t, ItemBytes(|SparseItems(vec, src, i, t)|, dsm), dsm);
            ItemBytes(|SparseItems(vec, src, r, t)|, dsm) < MAX_BYTES
    decreases end - i
  {
    var used := ItemBytes(|SparseItems(vec, src, i, t)|, dsm);
    if i < end && used + ItemBytes(1, dsm) < MAX_BYTES {
      SparseEndFits(vec, src, i + 1, end, t, dsm);
    }
  }

  /** Elements and words: n elements after word idx. */
  lemma Advance(idx: nat, size: nat, n: nat, dsm: Dsm)
    requires Whole(idx, dsm) && Whole(size, dsm)
    ensures Elem(dsm * n, dsm) == n && Elem(idx + dsm * n, dsm) == Elem(idx, dsm) + n && Whole(idx + dsm * n, dsm)
    ensures Elem(idx, dsm) + n <= Elem(size, dsm) ==> idx + dsm * n <= size
    ensures n > 0 ==> dsm <= dsm * n
    ensures idx < size ==> Elem(idx, dsm) < Elem(size, dsm)
  {
    if dsm == 2 {
      assert dsm * n == 2 * n;
    } else {
      assert dsm * n == n;
    }
  }

  /** The chunk advances by whole elements, not past the segment, fits the buffer and meets the receiver's asserts. */
  predicate Sound(c: Chunk, idx: nat, size: nat, dsm: Dsm) {
    && dsm <= c.advance && idx + c.advance <= size && Whole(idx + c.advance, dsm)
    && c.bytes <= MAX_BYTES
    && InBounds(c.payload, Elem(idx, dsm), Elem(idx, dsm), Elem(c.advance, dsm))
  }

  /** The chunk contributes exactly the (kept) elements it advances over. */
  ghost predicate Worth(c: Chunk, vec: seq<real>, sparse: bool, t: real, idx: nat, dsm: Dsm) {
    forall e: nat {:trigger Contribution(c.payload, Elem(idx, dsm), e)} ::
      Contribution(c.payload, Elem(idx, dsm), e) == Covered(vec, sparse, t, Elem(idx, dsm), Elem(idx + c.advance, dsm), e)
  }

  /** A sparse chunk: at least one element, up to where the bytes run out. */
  predicate SparseCut(c: Chunk, vec: seq<real>, t: real, idx: nat, size: nat, dsm: Dsm, upto: nat) {
    && Elem(idx, dsm) < upto <= Elem(size, dsm) <= |vec|
    && c.advance == dsm * (upto - Elem(idx, dsm)) && c.bytes < MAX_BYTES
    && c.payload == Sparse(SparseItems(vec, Elem(idx, dsm), upto, t))
  }

  lemma SparseChunk(vec: seq<real>, t: real, idx: nat, size: nat, dsm: Dsm) returns (upto: nat)
    requires idx < size && Elem(size, dsm) <= |vec| && Whole(idx, dsm) && Whole(size, dsm)
    ensures SparseCut(NextChunk(vec, true, t, idx, size, dsm), vec, t, idx, size, dsm, upto)
  {
    var from, end := Elem(idx, dsm), Elem(size, dsm);
    upto := SparseEnd(vec, from, end, t, 0, dsm);
    Advance(idx, size, 1, dsm);
    assert SparseItems(vec, from, from, t) == [];
    SparseEndFits(vec, from, from, end, t, dsm);
  }

  lemma SparseSound(c: Chunk, vec: seq<real>, t: real, idx: nat, size: nat, dsm: Dsm, upto: nat)
    requires Whole(idx, dsm) && Whole(size, dsm) && SparseCut(c, vec, t, idx, size, dsm, upto)
    ensures Sound(c, idx, size, dsm) && Elem(idx + c.advance, dsm) == upto
  {
    Advance(idx, size, upto - Elem(idx, dsm), dsm);
    SparseItemsInRange(vec, Elem(idx, dsm), upto, t);
  }

  lemma SparseWorth(c: Chunk, vec: seq<real>, t: real, idx: nat, size: nat, dsm: Dsm, upto: nat, e: nat)
    requires SparseCut(c, vec, t, idx, size, dsm, upto)
    ensures Contribution(c.payload, Elem(idx, dsm), e) == Covered(vec, true, t, Elem(idx, dsm), upto, e)
  {
    SparseItemsSum(vec, Elem(idx, dsm), upto, t, e);
  }

  /** A dense chunk is a plain slice of n elements. */
  predicate DenseCut(c: Chunk, vec: seq<real>, idx: nat, size: nat, dsm: Dsm, n: nat) {
    && 0 < n && Elem(idx, dsm) + n <= Elem(size, dsm) <= |vec|
    && c.advance == dsm * n && c.bytes <= MAX_BYTES
    && c.payload == Dense(vec[Elem(idx, dsm)..Elem(idx, dsm) + n])
  }

  lemma DenseChunk(vec: seq<real>, t: real, idx: nat, size: nat, dsm: Dsm) returns (n: nat)
    requires idx < size && Elem(size, dsm) <= |vec| && Whole(idx, dsm) && Whole(size, dsm)
    ensures DenseCut(NextChunk(vec, false, t, idx, size, dsm), vec, idx, size, dsm, n)
  {
    var words := NextChunk(vec, false, t, idx, size, dsm).advance;
    n := Elem(words, dsm);
    assert Whole(words, dsm) && words > 0;
    assert words == if dsm == 2 then 2 * n else n;
  }

  lemma DenseSound(c: Chunk, vec: seq<real>, idx: nat, size: nat, dsm: Dsm, n: nat)
    requires Whole(idx, dsm) && Whole(size, dsm) && DenseCut(c, vec, idx, size, dsm, n)
    ensures Sound(c, idx, size, dsm) && Elem(idx + c.advance, dsm) == Elem(idx, dsm) + n
  {
    Advance(idx, size, n, dsm);
  }

  lemma DenseWorth(c: Chunk, vec: seq<real>, t: real, idx: nat, size: nat, dsm: Dsm, n: nat, e: nat)
    requires DenseCut(c, vec, idx, size, dsm, n)
    ensures Contribution(c.payload, Elem(idx, dsm), e) == Covered(vec, false, t, Elem(idx, dsm), Elem(idx, dsm) + n, e)
  {
  }

  lemma SparseCovers(vec: seq<real>, t: real, idx: nat, size: nat, dsm: Dsm, c: Chunk)
    requires idx < size && Elem(size, dsm) <= |vec| && Whole(idx, dsm) && Whole(size, dsm)
    requires c == NextChunk(vec, true, t, idx, size, dsm)
    ensures Sound(c, idx, size, dsm) && Worth(c, vec, true, t, idx, dsm)
  {
    var upto := SparseChunk(vec, t, idx, size, dsm);
    SparseSound(c, vec, t, idx, size, dsm, upto);
    forall e: nat ensures Contribution(c.payload, Elem(idx, dsm), e) == Covered(vec, true, t, Elem(idx, dsm), upto, e) {
      SparseWorth(c, vec, t, idx, size, dsm, upto, e);
    }
  }

  lemma DenseCovers(vec: seq<real>, t: real, idx: nat, size: nat, dsm: Dsm, c: Chunk)
    requires idx < size && Elem(size, dsm) <= |vec| && Whole(idx, dsm) && Whole(size, dsm)
    requires c == NextChunk(vec, false, t, idx, size, dsm)
    ensures Sound(c, idx, size, dsm) && Worth(c, vec, false, t, idx, dsm)
  {
    var n := DenseChunk(vec, t, idx, size, dsm);
    DenseSound(c, vec, idx, size, dsm, n);
    forall e: nat ensures Contribution(c.payload, Elem(idx, dsm), e) == Covered(vec, false, t, Elem(idx, dsm), Elem(idx, dsm) + n, e) {
      DenseWorth(c, vec, t, idx, size, dsm, n, e);
    }
  }

  lemma NextChunkSound(vec: seq<real>, sparse: bool, t: real, idx: nat, size: nat, dsm: Dsm)
    requires idx < size && Elem(size, dsm) <= |vec| && Whole(idx, dsm) && Whole(size, dsm)
    ensures Sound(NextChunk(vec, sparse, t, idx, size, dsm), idx, size, dsm)
  {
    if sparse {
      var upto := SparseChunk(vec, t, idx, size, dsm);
      SparseSound(NextChunk(vec, sparse, t, idx, size, dsm), vec, t, idx, size, dsm, upto);
    } else {
      var n := DenseChunk(vec, t, idx, size, dsm);
      DenseSound(NextChunk(vec, sparse, t, idx, size, dsm), vec, idx, size, dsm, n);
    }
  }

  /**
  The chunk builder: every chunk advances by at least one whole element, never past the segment,
  carries at most MAX_BYTES bytes, and contributes exactly the (kept) elements it advances over.
  */
  lemma NextChunkCovers(vec: seq<real>, sparse: bool, t: real, idx: nat, size: nat, dsm: Dsm)
    requires idx < size && Elem(size, dsm) <= |vec| && Whole(idx, dsm) && Whole(size, dsm)
    ensures Sound(NextChunk(vec, sparse, t, idx, size, dsm), idx, size, dsm)
    ensures Worth(NextChunk(vec, sparse, t, idx, size, dsm), vec, sparse, t, idx, dsm)
  {
    var c := NextChunk(vec, sparse, t, idx, size, dsm);
    if sparse {
      SparseCovers(vec, t, idx, size, dsm, c);
    } else {
      DenseCovers(vec, t, idx, size, dsm, c);
    }
  }

  /** What a chunk over the elements [from, upto) is worth at element e. */
  function Covered(vec: seq<real>, sparse: bool, t: real, from: nat, upto: nat, e: nat): real {
    if from <= e < upto && e < |vec| then
      if sparse then Kept(vec[e], t) else vec[e]
    else 0.0
  }

  // ---- the receiver's loops (DAddAccumulator) ----

  method DoAccumulateDense(inData: seq<real>, inIndex: nat, out: array<real>, outIndex: nat)
    requires InBounds(Dense(inData), inIndex, outIndex, out.Length)
    modifies out
    ensures forall e :: 0 <= e < out.Length ==>
              out[e] == old(out[e]) + Contribution(Dense(inData), inIndex, outIndex + e)
  {
    var offset := inIndex - outIndex;
    var i := 0;
    while i < |inData|
      invariant 0 <= i <= |inData|
      invariant forall e :: 0 <= e < out.Length ==>
                  out[e] == old(out[e]) + if offset <= e < offset + i then inData[e - offset] else 0.0
    {
      out[offset + i] := out[offset + i] + inData[i];
      i := i + 1;
    }
  }

  method DoAccumulateSparse(inData: seq<(nat, real)>, out: array<real>, outIndex: nat)
    requires InBounds(Sparse(inData), 0, outIndex, out.Length)
    modifies out
    ensures forall e :: 0 <= e < out.Length ==> out[e] == old(out[e]) + SumAt(inData, outIndex + e)
  {
    var i := 0;
    assert forall e: nat :: SumAt(inData[..0], e) == 0.0;
    while i < |inData|
      invariant 0 <= i <= |inData|
      invariant forall e :: 0 <= e < out.Length ==> out[e] == old(out[e]) + SumAt(inData[..i], outIndex + e)
    {
      var idx := inData[i].0;
      assert inData[..i + 1][..i] == inData[..i];
      out[idx - outIndex] := out[idx - outIndex] + inData[i].1;
      i := i + 1;
    }
    assert inData[..|inData|] == inData;
  }
}
