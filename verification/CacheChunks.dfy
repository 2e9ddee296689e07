/**
putchunk and getchunk of the directory cache: a range of words anywhere in the 64-bit address space is
handled block by block. The pieces lie inside one block each, follow each other and cover exactly the
range, so together the reads are one flat read. Together the writes are one flat write but for the words
that a write miss at the node's own home drops.
*/
module CacheChunks {
  import opened Recency
  import opened Words

  /** Number of values of a `uint64_t`. */
  const U64: int := 0x1_0000_0000_0000_0000

  function Wrap64(x: int): nat {
    x % U64
  }

  // ---- flat memory ----

  type Memory = map<nat, int>

  /** Memory starts out zero. */
  function At(m: Memory, a: nat): int {
    if a in m then m[a] else 0
  }

  function Range(m: Memory, a: nat, len: nat): (r: seq<int>)
    ensures |r| == len
  {
    seq(len, i requires 0 <= i < len => At(m, a + i))
  }

  /** m' is m with `data` written from address a on, and unchanged everywhere else. */
  ghost predicate Wrote(m: Memory, m': Memory, a: nat, data: seq<int>) {
    forall x: nat {:trigger At(m', x)} :: At(m', x) == if a <= x < a + |data| then data[x - a] else At(m, x)
  }

  lemma WroteBoth(m: Memory, m1: Memory, m2: Memory, a: nat, d1: seq<int>, d2: seq<int>)
    requires Wrote(m, m1, a, d1) && Wrote(m1, m2, a + |d1|, d2)
    ensures Wrote(m, m2, a, d1 + d2)
  {
    forall x: nat ensures At(m2, x) == if a <= x < a + |d1 + d2| then (d1 + d2)[x - a] else At(m, x) {
      assert At(m1, x) == if a <= x < a + |d1| then d1[x - a] else At(m, x);
    }
  }

  // ---- the arithmetic ----

  /** `(k & mask) ? (k & ~mask) + BLOCK : k`, in 64 bits. */
  function StartOf(k: nat): nat {
    if k % BLOCK != 0 then Wrap64(BlockStart(k) + BLOCK) else k
  }

  /** How much goes into the block k lies in before the aligned part. */
  function HeadLen(k: nat, len: nat): nat {
    if StartOf(k) < Wrap64(k + len) then Wrap32(StartOf(k) - k) else len
  }

  /** Where the arithmetic does not run over the end of the address space. */
  predicate Fits(k: nat, len: nat) {
    || (k + len < U64 && (k % BLOCK == 0 || k < U64 - BLOCK))
    || (k + len == U64 && k >= U64 - BLOCK)
  }

  /** The asserted bound on the first piece, and that there is that much to write. */
  predicate HeadOk(k: nat, len: nat) {
    HeadLen(k, len) <= BLOCK && HeadLen(k, len) <= len
  }

  /** An access inside an object fits, except possibly in the very last object. */
  lemma ObjectAccessFits(okey: nat, fldid: nat, len: nat)
    requires okey < U32 - 1 && fldid < U32 && fldid + len <= U32
    ensures Fits(okey * U32 + fldid, len)
  {
  }

  /** The head piece is in order exactly when the access fits: all other accesses trip the assertion or overrun. */
  lemma HeadOkIffFits(k: nat, len: nat)
    requires k < U64 && len < U32 && k + len <= U64
    ensures HeadOk(k, len) <==> Fits(k, len)
  {
    assert BlockStart(k) % BLOCK == 0;
    if k + len == U64 && k < U64 - BLOCK {
      assert Wrap64(k + len) == 0 && HeadLen(k, len) == len > BLOCK;
    }
    if k + len < U64 && k % BLOCK != 0 && k >= U64 - BLOCK {
      assert BlockStart(k) + BLOCK == U64;
      assert StartOf(k) == 0 && Wrap64(k + len) == k + len;
      assert 0 - k + U64 == BLOCK - k % BLOCK;
      assert Wrap32(0 - k) == BLOCK - k % BLOCK;
    }
  }

  /** Where the pieces lie: the head ends where the aligned part starts, or it is everything. */
  lemma HeadFits(k: nat, len: nat)
    requires k < U64 && len < U32 && Fits(k, len)
    ensures HeadLen(k, len) <= len && k % BLOCK + HeadLen(k, len) <= BLOCK
  {
    HeadOkIffFits(k, len);
  }

  lemma BodyStarts(k: nat, len: nat)
    requires k < U64 && len < U32 && Fits(k, len) && HeadLen(k, len) < len
    ensures StartOf(k) == k + HeadLen(k, len) && StartOf(k) % BLOCK == 0 && Wrap64(k + len) == k + len
    ensures StartOf(k) <= BlockStart(k + len)
  {
  }

  lemma HeadIsAll(k: nat, len: nat)
    requires k < U64 && len < U32 && Fits(k, len) && HeadLen(k, len) == len
    ensures BlockStart(Wrap64(k + len)) <= StartOf(k)
  {
  }

  /** The loop of whole blocks: either everything is done, or i is the aligned address of word idx. */
  predicate Aligned(k: nat, len: nat, i: nat, idx: nat, kEnd: nat) {
    if idx == len then kEnd <= i else i == k + idx && i % BLOCK == 0 && i <= kEnd && kEnd == BlockStart(k + len)
  }

  lemma AfterHead(k: nat, len: nat)
    requires k < U64 && len < U32 && Fits(k, len)
    ensures Aligned(k, len, StartOf(k), HeadLen(k, len), BlockStart(Wrap64(k + len)))
  {
    if HeadLen(k, len) < len {
      BodyStarts(k, len);
    } else {
      HeadIsAll(k, len);
    }
  }

  lemma NextBlock(k: nat, len: nat, i: nat, idx: nat, kEnd: nat)
    requires idx <= len && Aligned(k, len, i, idx, kEnd) && i < kEnd
    ensures i == k + idx && i % BLOCK == 0 && idx + BLOCK <= len && Aligned(k, len, i + BLOCK, idx + BLOCK, kEnd)
  {
    BlockStartBounds(k + len);
    NextBoundary(i, kEnd);
  }

  lemma Tail(k: nat, len: nat, i: nat, idx: nat, kEnd: nat)
    requires idx < len && Aligned(k, len, i, idx, kEnd) && i >= kEnd
    ensures kEnd == k + idx && kEnd % BLOCK + (len - idx) <= BLOCK
  {
    BlockStartBounds(k + len);
  }

  /** The next piece: how many words of it there are, when the aligned part is at address i. */
  function PieceLen(len: nat, i: nat, idx: nat, kEnd: nat): nat
    requires idx < len
  {
    if i < kEnd then BLOCK else len - idx
  }

  /** A piece behind the head is a block, or the rest of the range inside one. */
  lemma NextPiece(k: nat, len: nat, i: nat, idx: nat, kEnd: nat)
    requires idx < len && Aligned(k, len, i, idx, kEnd)
    ensures var n := PieceLen(len, i, idx, kEnd);
      0 < n && idx + n <= len && (k + idx) % BLOCK == 0 && (k + idx) % BLOCK + n <= BLOCK
    ensures i < kEnd ==> Aligned(k, len, i + BLOCK, idx + BLOCK, kEnd)
  {
    if i < kEnd {
      NextBlock(k, len, i, idx, kEnd);
    } else {
      Tail(k, len, i, idx, kEnd);
    }
  }

  lemma MoreBlocks(k: nat, len: nat, i: nat, idx: nat, kEnd: nat)
    requires idx <= len && Aligned(k, len, i, idx, kEnd) && i < kEnd
    ensures idx < len
  {
  }

  // ---- what a put through the cache stores ----

  /**
  One node's cache with nothing else going on: its number, the number of caches, its capacity and the
  resident blocks, least recently used first. Blocks are given by their number in the address space.
  */
  datatype Site = Site(self: nat, caches: nat, size: nat, order: seq<nat>)

  predicate SiteOk(site: Site) {
    site.self < site.caches && site.size > 0
  }

  /** A put into block b would be a write miss at the node itself: WriteMiss then passes length 1. */
  predicate OwnMiss(site: Site, b: nat)
    requires SiteOk(site)
  {
    b !in site.order && b % site.caches == site.self
  }

  /** The words of a put into block b that reach memory. */
  function Stored(site: Site, b: nat, data: seq<int>): seq<int>
    requires SiteOk(site)
  {
    if OwnMiss(site, b) && data != [] then data[..1] else data
  }

  /** After one access to each of the blocks [from, upto), in that order. */
  function Visited(site: Site, from: nat, upto: nat): (r: Site)
    ensures r == site.(order := r.order)
    decreases upto - from
  {
    if upto <= from then site else site.(order := Touched(site.size, Visited(site, from, upto - 1).order, upto - 1))
  }

  /** The first address that an access from k on has in the block of x. */
  function FirstIn(k: nat, x: nat): nat {
    if x / BLOCK == k / BLOCK then k else x / BLOCK * BLOCK
  }

  /**
  The word for address x of a put from k on does not reach memory: when its block's turn comes, the
  block is homed at the node itself and not resident, and x is not the first address put in it.
  */
  predicate Lost(site: Site, k: nat, x: nat)
    requires SiteOk(site)
  {
    x != FirstIn(k, x) && OwnMiss(Visited(site, k / BLOCK, x / BLOCK), x / BLOCK)
  }

  /** m' is m with `data` written from k on, but for the lost words. */
  ghost predicate PutInto(site: Site, m: Memory, m': Memory, k: nat, data: seq<int>)
    requires SiteOk(site)
  {
    forall x: nat {:trigger At(m', x)} :: At(m', x) == if k <= x < k + |data| && !Lost(site, k, x) then data[x - k] else At(m, x)
  }

  /**
  The exact condition: the put is the flat write if and only if each word of a piece that misses at its
  own home, but the first of the piece, had its value already.
  */
  lemma FlatIff(site: Site, m: Memory, m': Memory, k: nat, data: seq<int>)
    requires SiteOk(site) && PutInto(site, m, m', k, data)
    ensures Wrote(m, m', k, data) <==> forall x: nat {:trigger Lost(site, k, x)} :: k <= x < k + |data| && Lost(site, k, x) ==> At(m, x) == data[x - k]
  {
    if Wrote(m, m', k, data) {
      forall x: nat | k <= x < k + |data| && Lost(site, k, x) ensures At(m, x) == data[x - k] {
        assert At(m', x) == data[x - k];
      }
    } else {
      var x: nat :| At(m', x) != if k <= x < k + |data| then data[x - k] else At(m, x);
      assert Lost(site, k, x) && At(m', x) == At(m, x);
    }
  }

  /** What is read back from there is what was put exactly under that condition; reads elsewhere do not notice the put. */
  lemma ReadBack(site: Site, m: Memory, m': Memory, k: nat, data: seq<int>, b: nat, len: nat)
    requires SiteOk(site) && PutInto(site, m, m', k, data)
    ensures Range(m', k, |data|) == data <==>
      forall x: nat {:trigger Lost(site, k, x)} :: k <= x < k + |data| && Lost(site, k, x) ==> At(m, x) == data[x - k]
    ensures b + len <= k || k + |data| <= b ==> Range(m', b, len) == Range(m, b, len)
  {
    if Range(m', k, |data|) == data {
      forall x: nat | k <= x < k + |data| && Lost(site, k, x) ensures At(m, x) == data[x - k] {
        assert Range(m', k, |data|)[x - k] == At(m', k + (x - k));
      }
    } else {
      var j :| 0 <= j < |data| && Range(m', k, |data|)[j] != data[j];
      assert Lost(site, k, k + j);
    }
  }

  /** Nothing is lost of a put whose blocks are all resident or homed elsewhere when their turn comes. */
  lemma NothingLost(site: Site, m: Memory, m': Memory, k: nat, data: seq<int>)
    requires SiteOk(site) && PutInto(site, m, m', k, data)
    requires forall b: nat {:trigger OwnMiss(Visited(site, k / BLOCK, b), b)} ::
      k / BLOCK <= b && b * BLOCK < k + |data| ==> !OwnMiss(Visited(site, k / BLOCK, b), b)
    ensures Wrote(m, m', k, data)
  {
    forall x: nat | k <= x < k + |data| ensures !Lost(site, k, x) {
      DivisionOrder(k, x);
      assert x / BLOCK * BLOCK <= x;
    }
    FlatIff(site, m, m', k, data);
  }

  lemma DivisionOrder(a: nat, b: nat)
    requires a <= b
    ensures a / BLOCK <= b / BLOCK
  {
  }

  // ---- pieces ----

  /** The number of the block whose turn is next when the words before idx are done. */
  function NextUp(k: nat, idx: nat): nat {
    if idx == 0 then k / BLOCK else (k + idx - 1) / BLOCK + 1
  }

  lemma PieceBlock(a: nat, n: nat, x: nat)
    requires a % BLOCK + n <= BLOCK && a <= x < a + n
    ensures x / BLOCK == a / BLOCK
  {
    assert x == BLOCK * (a / BLOCK) + (a % BLOCK + (x - a));
  }

  /** The next piece: its block is the next one up, and it starts where the put starts in this block. */
  lemma PieceStarts(k: nat, idx: nat, n: nat)
    requires (k + idx) % BLOCK + n <= BLOCK && n > 0 && (idx == 0 || (k + idx) % BLOCK == 0)
    ensures NextUp(k, idx) == (k + idx) / BLOCK >= k / BLOCK && NextUp(k, idx + n) == (k + idx) / BLOCK + 1
    ensures FirstIn(k, k + idx) == k + idx
  {
    PieceBlock(k + idx, n, k + idx + n - 1);
    DivisionOrder(k, k + idx);
    if idx > 0 {
      AlignedBlocks(k + idx);
      DivisionOrder(k, k + idx - 1);
    }
  }

  lemma AlignedBlocks(a: nat)
    requires a % BLOCK == 0 && a > 0
    ensures (a - 1) / BLOCK + 1 == a / BLOCK && a / BLOCK * BLOCK == a
  {
    assert a == BLOCK * (a / BLOCK);
    assert a - 1 == BLOCK * (a / BLOCK - 1) + (BLOCK - 1);
  }

  /** Putting the next piece, less what is lost of it, after the ones before. */
  lemma PieceKept(site: Site, m: Memory, m1: Memory, m2: Memory, k: nat, d1: seq<int>, d2: seq<int>)
    requires SiteOk(site) && PutInto(site, m, m1, k, d1) && d2 != []
    requires (k + |d1|) % BLOCK + |d2| <= BLOCK && (d1 == [] || (k + |d1|) % BLOCK == 0)
    requires Wrote(m1, m2, k + |d1|, Stored(Visited(site, k / BLOCK, (k + |d1|) / BLOCK), (k + |d1|) / BLOCK, d2))
    ensures PutInto(site, m, m2, k, d1 + d2)
  {
    var a := k + |d1|;
    PieceStarts(k, |d1|, |d2|);
    forall x: nat
      ensures At(m2, x) == if k <= x < k + |d1 + d2| && !Lost(site, k, x) then (d1 + d2)[x - k] else At(m, x)
    {
      assert At(m1, x) == if k <= x < k + |d1| && !Lost(site, k, x) then d1[x - k] else At(m, x);
      if a <= x < a + |d2| {
        PieceBlock(a, |d2|, x);
        assert FirstIn(k, x) == a;
      }
    }
  }

  /** The first idx words of the buffer are those from k on. */
  predicate Got(m: Memory, k: nat, v: seq<int>, idx: nat) {
    idx <= |v| && forall j {:trigger v[j]} :: 0 <= j < idx ==> v[j] == At(m, k + j)
  }

  lemma GotMore(m: Memory, k: nat, v: seq<int>, v': seq<int>, idx: nat, n: nat)
    requires Got(m, k, v, idx) && idx + n <= |v| && v' == v[..idx] + Range(m, k + idx, n) + v[idx + n..]
    ensures Got(m, k, v', idx + n)
  {
  }

  /** The cache as one client uses it while nobody else touches the blocks: `mem` is what the backend, and every copy, holds. */
  class ChunkCache {
    const self: nat
    const caches: nat
    const size: nat
    var order: seq<nat>
    var mem: Memory

    ghost function Now(): Site
      reads this
    {
      Site(self, caches, size, order)
    }

    constructor (self: nat, caches: nat, size: nat)
      requires self < caches && size > 0
      ensures SiteOk(Now()) && Now() == Site(self, caches, size, []) && forall a :: At(mem, a) == 0
    {
      this.self, this.caches, this.size := self, caches, size;
      order, mem := [], map[];
    }

    /** doput: one put inside one block. A miss at the node's own home passes on the first word only. */
    method PutBlockData(a: nat, data: seq<int>)
      requires SiteOk(Now()) && a % BLOCK + |data| <= BLOCK
      modifies this
      ensures Wrote(old(mem), mem, a, Stored(old(Now()), a / BLOCK, data))
      ensures order == Touched(size, old(order), a / BLOCK)
    {
      var len := if a / BLOCK !in order && a / BLOCK % caches == self && |data| > 0 then 1 else |data|;
      ghost var stored := Stored(Now(), a / BLOCK, data);
      for i := 0 to len
        invariant order == old(order) && stored == data[..len]
        invariant Wrote(old(mem), mem, a, stored[..i])
      {
        ghost var before := mem;
        mem := mem[a + i := data[i]];
        assert Wrote(before, mem, a + |stored[..i]|, [stored[i]]);
        WroteBoth(old(mem), before, mem, a, stored[..i], [stored[i]]);
        assert stored[..i] + [stored[i]] == stored[..i + 1];
      }
      assert stored[..len] == stored;
      order := Touched(size, order, a / BLOCK);
    }

    /** doget: copies words of one block into the caller's buffer. */
    method GetBlockData(a: nat, len: nat, v: array<int>, idx: nat)
      requires a % BLOCK + len <= BLOCK && idx + len <= v.Length
      modifies v, this`order
      ensures v[..] == old(v[..idx]) + Range(mem, a, len) + old(v[idx + len..])
      ensures order == Touched(size, old(order), a / BLOCK)
    {
      forall i | 0 <= i < len {
        v[idx + i] := At(mem, a + i);
      }
      order := Touched(size, order, a / BLOCK);
    }

    /** Writes the next piece of v after those before idx. */
    method PutNext(k: nat, v: array<int>, idx: nat, n: nat, ghost site: Site, ghost start: Memory)
      requires SiteOk(site) && n > 0 && (k + idx) % BLOCK + n <= BLOCK && (idx == 0 || (k + idx) % BLOCK == 0)
      requires idx + n <= v.Length && PutInto(site, start, mem, k, v[..idx]) && Now() == Visited(site, k / BLOCK, NextUp(k, idx))
      modifies this
      ensures PutInto(site, start, mem, k, v[..idx + n]) && Now() == Visited(site, k / BLOCK, NextUp(k, idx + n))
    {
      PieceStarts(k, idx, n);
      ghost var before := mem;
      PutBlockData(k + idx, v[idx..idx + n]);
      PieceKept(site, start, before, mem, k, v[..idx], v[idx..idx + n]);
      assert v[..idx] + v[idx..idx + n] == v[..idx + n];
    }

    /** The words before the aligned part, or everything. */
    method PutHead(k: nat, v: array<int>, len: nat, ghost site: Site, ghost start: Memory) returns (copylen: nat)
      requires SiteOk(site) && k < U64 && len < U32 && len <= v.Length && Fits(k, len) && site == Now() && start == mem
      modifies this
      ensures copylen == HeadLen(k, len) <= len
      ensures PutInto(site, start, mem, k, v[..copylen]) && Now() == Visited(site, k / BLOCK, NextUp(k, copylen))
    {
      HeadFits(k, len);
      copylen := HeadLen(k, len);
      if copylen > 0 {
        PutNext(k, v, 0, copylen, site, start);
      }
    }

    /** A whole block, or what is left behind the last one. */
    method PutPiece(k: nat, v: array<int>, len: nat, i: nat, idx: nat, kEnd: nat, ghost site: Site, ghost start: Memory) returns (n: nat)
      requires SiteOk(site) && idx < len <= v.Length && Aligned(k, len, i, idx, kEnd)
      requires PutInto(site, start, mem, k, v[..idx]) && Now() == Visited(site, k / BLOCK, NextUp(k, idx))
      modifies this
      ensures n == PieceLen(len, i, idx, kEnd) && idx + n <= len && (i < kEnd ==> Aligned(k, len, i + BLOCK, idx + BLOCK, kEnd))
      ensures PutInto(site, start, mem, k, v[..idx + n]) && Now() == Visited(site, k / BLOCK, NextUp(k, idx + n))
    {
      NextPiece(k, len, i, idx, kEnd);
      n := PieceLen(len, i, idx, kEnd);
      PutNext(k, v, idx, n, site, start);
    }

    /** The aligned part, from address i0 on, and what is left behind it. */
    method PutRest(k: nat, v: array<int>, len: nat, i0: nat, idx0: nat, kEnd: nat, ghost site: Site, ghost start: Memory)
      requires SiteOk(site) && idx0 <= len <= v.Length && Aligned(k, len, i0, idx0, kEnd) && PutInto(site, start, mem, k, v[..idx0]) && Now() == Visited(site, k / BLOCK, NextUp(k, idx0))
      modifies this
      ensures PutInto(site, start, mem, k, v[..len]) && Now() == Visited(site, k / BLOCK, NextUp(k, len))
    {
      var i, idx := i0, idx0;
      while i < kEnd
        invariant 0 <= idx <= len && Aligned(k, len, i, idx, kEnd)
        invariant PutInto(site, start, mem, k, v[..idx]) && Now() == Visited(site, k / BLOCK, NextUp(k, idx))
      {
        MoreBlocks(k, len, i, idx, kEnd);
        var n := PutPiece(k, v, len, i, idx, kEnd, site, start);
        idx := idx + n;
        i := i + BLOCK;
      }
      if idx < len {
        var _ := PutPiece(k, v, len, i, idx, kEnd, site, start);
      }
    }

    method PutChunk(k: nat, v: array<int>, len: nat)
      requires SiteOk(Now()) && k < U64 && len < U32 && len <= v.Length && Fits(k, len)
      modifies this
      ensures PutInto(old(Now()), old(mem), mem, k, v[..len])
      ensures Now() == Visited(old(Now()), k / BLOCK, NextUp(k, len))
    {
      ghost var site, start := Now(), mem;
      AfterHead(k, len);
      var kEnd, kStart := BlockStart(Wrap64(k + len)), StartOf(k);
      var copylen := PutHead(k, v, len, site, start);
      PutRest(k, v, len, kStart, copylen, kEnd, site, start);
    }

    /** Reads the next piece after those before idx. */
    method GetNext(k: nat, v: array<int>, idx: nat, n: nat, ghost site: Site)
      requires n > 0 && (k + idx) % BLOCK + n <= BLOCK && (idx == 0 || (k + idx) % BLOCK == 0)
      requires idx + n <= v.Length && Got(mem, k, v[..], idx) && Now() == Visited(site, k / BLOCK, NextUp(k, idx))
      modifies v, this`order
      ensures Got(mem, k, v[..], idx + n) && Now() == Visited(site, k / BLOCK, NextUp(k, idx + n))
    {
      PieceStarts(k, idx, n);
      GetBlockData(k + idx, n, v, idx);
      GotMore(mem, k, old(v[..]), v[..], idx, n);
    }

    method GetHead(k: nat, v: array<int>, len: nat, ghost site: Site) returns (copylen: nat)
      requires k < U64 && len < U32 && len <= v.Length && Fits(k, len) && site == Now()
      modifies v, this`order
      ensures copylen == HeadLen(k, len) <= len
      ensures Got(mem, k, v[..], copylen) && Now() == Visited(site, k / BLOCK, NextUp(k, copylen))
    {
      HeadFits(k, len);
      copylen := HeadLen(k, len);
      if copylen > 0 {
        GetNext(k, v, 0, copylen, site);
      }
    }

    method GetPiece(k: nat, v: array<int>, len: nat, i: nat, idx: nat, kEnd: nat, ghost site: Site) returns (n: nat)
      requires idx < len <= v.Length && Aligned(k, len, i, idx, kEnd)
      requires Got(mem, k, v[..], idx) && Now() == Visited(site, k / BLOCK, NextUp(k, idx))
      modifies v, this`order
      ensures n == PieceLen(len, i, idx, kEnd) && idx + n <= len && (i < kEnd ==> Aligned(k, len, i + BLOCK, idx + BLOCK, kEnd))
      ensures Got(mem, k, v[..], idx + n) && Now() == Visited(site, k / BLOCK, NextUp(k, idx + n))
    {
      NextPiece(k, len, i, idx, kEnd);
      n := PieceLen(len, i, idx, kEnd);
      GetNext(k, v, idx, n, site);
    }

    /** The aligned part, from address i0 on, and what is left behind it. */
    method GetRest(k: nat, v: array<int>, len: nat, i0: nat, idx0: nat, kEnd: nat, ghost site: Site)
      requires idx0 <= len <= v.Length && Aligned(k, len, i0, idx0, kEnd) && Got(mem, k, v[..], idx0) && Now() == Visited(site, k / BLOCK, NextUp(k, idx0))
      modifies v, this`order
      ensures Got(mem, k, v[..], len) && Now() == Visited(site, k / BLOCK, NextUp(k, len))
    {
      var i, idx := i0, idx0;
      while i < kEnd
        invariant 0 <= idx <= len && Aligned(k, len, i, idx, kEnd)
        invariant Got(mem, k, v[..], idx) && Now() == Visited(site, k / BLOCK, NextUp(k, idx))
      {
        MoreBlocks(k, len, i, idx, kEnd);
        var n := GetPiece(k, v, len, i, idx, kEnd, site);
        idx := idx + n;
        i := i + BLOCK;
      }
      if idx < len {
        var _ := GetPiece(k, v, len, i, idx, kEnd, site);
      }
    }

    method GetChunk(k: nat, v: array<int>, len: nat)
      requires k < U64 && len < U32 && len == v.Length && Fits(k, len)
      modifies v, this`order
      ensures v[..] == Range(mem, k, len)
      ensures Now() == Visited(old(Now()), k / BLOCK, NextUp(k, len))
    {
      ghost var site := Now();
      AfterHead(k, len);
      var kEnd, kStart := BlockStart(Wrap64(k + len)), StartOf(k);
      var copylen := GetHead(k, v, len, site);
      GetRest(k, v, len, kStart, copylen, kEnd, site);
    }
  }

  /** A cold cache of the only node: of two words put into one block, the second is lost. */
  method ColdPutLosesWords() returns (c: ChunkCache, back: array<int>)
    ensures fresh(c) && fresh(back) && back[..] == [7, 0] && At(c.mem, 1) == 0
  {
    c := new ChunkCache(0, 1, 16);
    var v := new int[2][7, 8];
    c.PutChunk(0, v, 2);
    assert Lost(Site(0, 1, 16, []), 0, 1);
    assert At(c.mem, 0) == 7 && At(c.mem, 1) == 0;
    back := new int[2];
    c.GetChunk(0, back, 2);
    assert back[0] == back[..][0] && back[1] == back[..][1];
  }
}
