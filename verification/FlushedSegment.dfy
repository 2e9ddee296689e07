/**
A node's flush of its segment, word by word through putchunk of its cache, and what that means for the
elements of the vector, which take one or two words each.
*/
module FlushedSegment {
  import opened CacheChunks
  import opened Chunks
  import opened Fates
  import opened Words

  /** With no directory cache configured putchunk goes to the backend. */
  datatype Flush = Direct | Cached(site: Site, okey: nat, codec: Codec)

  predicate FlushOk(flush: Flush) {
    flush.Cached? ==> SiteOk(flush.site)
  }

  /** MAKE64 of the array's key and the first word of the segment. */
  function Address(okey: nat, base: nat): nat {
    okey * U32 + base
  }

  function FateOf(flush: Flush, base: nat, dsm: Dsm, j: nat): Fate
    requires FlushOk(flush)
  {
    match flush
    case Direct => Stored
    case Cached(site, okey, codec) =>
      var (k, x) := (Address(okey, base), Address(okey, base) + WordOf(j, dsm));
      var (first, last) := (Lost(site, k, x), Lost(site, k, if dsm == 2 then x + 1 else x));
      if !first && !last then Stored else if first && last then Missed else Torn(codec)
  }

  /** All words of the element are stored, or all are lost. */
  lemma FateMeans(flush: Flush, base: nat, dsm: Dsm, j: nat)
    requires FlushOk(flush) && flush.Cached?
    ensures var (k, x) := (Address(flush.okey, base), Address(flush.okey, base) + WordOf(j, dsm));
      && (FateOf(flush, base, dsm, j) == Stored <==> !Lost(flush.site, k, x) && (dsm == 2 ==> !Lost(flush.site, k, x + 1)))
      && (FateOf(flush, base, dsm, j) == Missed <==> Lost(flush.site, k, x) && (dsm == 2 ==> Lost(flush.site, k, x + 1)))
  {
  }

  /** A segment starts on a block boundary, so an element lies inside one block. */
  lemma ElementInBlock(okey: nat, base: nat, dsm: Dsm, j: nat)
    requires base % BLOCK == 0
    ensures var x := Address(okey, base) + WordOf(j, dsm);
      && (dsm == 2 ==> (x + 1) / BLOCK == x / BLOCK)
      && FirstIn(Address(okey, base), x) == x / BLOCK * BLOCK && (x == x / BLOCK * BLOCK <==> x % BLOCK == 0)
  {
    var k, x := Address(okey, base), Address(okey, base) + WordOf(j, dsm);
    AddressAligned(okey, base);
    Multiples(k);
    Multiples(x);
    if dsm == 2 {
      EvenWord(16 * (k / BLOCK) + j);
      PieceBlock(x, 2, x + 1);
    }
  }

  lemma AddressAligned(okey: nat, base: nat)
    requires base % BLOCK == 0
    ensures Address(okey, base) % BLOCK == 0
  {
    assert okey * U32 == BLOCK * (okey * (U32 / BLOCK));
    assert Address(okey, base) == BLOCK * (okey * (U32 / BLOCK) + base / BLOCK);
  }

  lemma Multiples(a: nat)
    ensures a / BLOCK * BLOCK <= a && (a == a / BLOCK * BLOCK <==> a % BLOCK == 0)
  {
    assert a == BLOCK * (a / BLOCK) + a % BLOCK;
  }

  /** Two words from an even address on lie inside one block. */
  lemma EvenWord(h: nat)
    ensures (h + h) % BLOCK + 2 <= BLOCK
  {
    var q := (h + h) / BLOCK;
    assert h + h == BLOCK * q + (h + h) % BLOCK;
    assert (h + h) % BLOCK == 2 * (h - 16 * q);
  }

  /**
  Which elements a flush loses: those in blocks homed at the node itself and not resident when their turn
  comes. Of the first element of such a block one word is stored, of the others nothing.
  */
  lemma FateExactly(flush: Flush, base: nat, dsm: Dsm, j: nat)
    requires FlushOk(flush) && flush.Cached? && base % BLOCK == 0
    ensures var (k, x) := (Address(flush.okey, base), Address(flush.okey, base) + WordOf(j, dsm));
      var own := OwnMiss(Visited(flush.site, k / BLOCK, x / BLOCK), x / BLOCK);
      FateOf(flush, base, dsm, j) == if !own then Stored
        else if x % BLOCK != 0 then Missed
        else if dsm == 1 then Stored
        else Torn(flush.codec)
  {
    ElementInBlock(flush.okey, base, dsm, j);
  }

  lemma WordAfter(site: Site, m: Memory, m': Memory, k: nat, data: seq<int>, w: nat)
    requires SiteOk(site) && PutInto(site, m, m', k, data) && w < |data|
    ensures At(m', k + w) == if !Lost(site, k, k + w) then data[w] else At(m, k + w)
  {
  }

  lemma WordsAfter(site: Site, m: Memory, m': Memory, k: nat, data: seq<int>, w: nat, dsm: Dsm)
    requires SiteOk(site) && PutInto(site, m, m', k, data) && w + dsm <= |data|
    ensures !Lost(site, k, k + w) && (dsm == 2 ==> !Lost(site, k, k + w + 1)) ==> Range(m', k + w, dsm) == data[w..w + dsm]
    ensures Lost(site, k, k + w) && (dsm == 2 ==> Lost(site, k, k + w + 1)) ==> Range(m', k + w, dsm) == Range(m, k + w, dsm)
  {
    WordAfter(site, m, m', k, data, w);
    if dsm == 2 {
      WordAfter(site, m, m', k, data, w + 1);
    }
    WordsFare(m, m', k, w, dsm, data, Lost(site, k, k + w), Lost(site, k, k + w + 1));
  }

  /** What memory m' then holds of an element: all its new words, or the words it had. */
  predicate Fared(m: Memory, m': Memory, k: nat, w: nat, dsm: Dsm, data: seq<int>, fate: Fate)
    requires w + dsm <= |data|
  {
    && (fate.Stored? ==> Range(m', k + w, dsm) == data[w..w + dsm])
    && (fate.Missed? ==> Range(m', k + w, dsm) == Range(m, k + w, dsm))
  }

  lemma WordsFare(m: Memory, m': Memory, k: nat, w: nat, dsm: Dsm, data: seq<int>, lost: bool, lostNext: bool)
    requires w + dsm <= |data| && At(m', k + w) == if !lost then data[w] else At(m, k + w)
    requires dsm == 2 ==> At(m', k + w + 1) == if !lostNext then data[w + 1] else At(m, k + w + 1)
    ensures !lost && (dsm == 2 ==> !lostNext) ==> Range(m', k + w, dsm) == data[w..w + dsm]
    ensures lost && (dsm == 2 ==> lostNext) ==> Range(m', k + w, dsm) == Range(m, k + w, dsm)
  {
    if dsm == 2 {
      assert data[w..w + 2] == [data[w], data[w + 1]];
      assert Range(m', k + w, 2) == [At(m', k + w), At(m', k + w + 1)] && Range(m, k + w, 2) == [At(m, k + w), At(m, k + w + 1)];
    } else {
      assert Range(m', k + w, 1) == [At(m', k + w)] && Range(m, k + w, 1) == [At(m, k + w)];
    }
  }

  lemma ElementFares(flush: Flush, m: Memory, m': Memory, base: nat, data: seq<int>, dsm: Dsm, j: nat)
    requires FlushOk(flush) && flush.Cached? && WordOf(j, dsm) + dsm <= |data|
    requires PutInto(flush.site, m, m', Address(flush.okey, base), data)
    ensures Fared(m, m', Address(flush.okey, base), WordOf(j, dsm), dsm, data, FateOf(flush, base, dsm, j))
  {
    WordsAfter(flush.site, m, m', Address(flush.okey, base), data, WordOf(j, dsm), dsm);
    FateMeans(flush, base, dsm, j);
  }

  lemma TornWords(flush: Flush, base: nat, j: nat)
    requires FlushOk(flush) && flush.Cached? && base % BLOCK == 0 && FateOf(flush, base, 2, j).Torn?
    ensures var x := Address(flush.okey, base) + WordOf(j, 2);
      && !Lost(flush.site, Address(flush.okey, base), x) && Lost(flush.site, Address(flush.okey, base), x + 1)
      && FateOf(flush, base, 2, j) == Torn(flush.codec)
  {
    ElementInBlock(flush.okey, base, 2, j);
  }

  /** Half of a torn element is new: its first word. So its value is the one that HalfNew gives. */
  lemma TornFares(flush: Flush, m: Memory, m': Memory, base: nat, data: seq<int>, j: nat, before: real, sum: real)
    requires FlushOk(flush) && flush.Cached? && base % BLOCK == 0 && WordOf(j, 2) + 2 <= |data|
    requires PutInto(flush.site, m, m', Address(flush.okey, base), data) && FateOf(flush, base, 2, j).Torn?
    requires var (x, w) := (Address(flush.okey, base) + WordOf(j, 2), WordOf(j, 2));
      flush.codec.encode(sum) == (data[w], data[w + 1]) && flush.codec.encode(before) == (At(m, x), At(m, x + 1))
    ensures var x := Address(flush.okey, base) + WordOf(j, 2);
      flush.codec.decode(At(m', x), At(m', x + 1)) == AfterFlush(FateOf(flush, base, 2, j), before, sum)
  {
    var k, w := Address(flush.okey, base), WordOf(j, 2);
    TornWords(flush, base, j);
    WordAfter(flush.site, m, m', k, data, w);
    WordAfter(flush.site, m, m', k, data, w + 1);
  }

  /** The flush itself: putchunk of the segment's words. Every element fares as FateOf says. */
  method FlushWords(cache: ChunkCache, okey: nat, base: nat, words: array<int>, dsm: Dsm, ghost codec: Codec)
    requires SiteOk(cache.Now()) && Address(okey, base) < U64 && words.Length < U32 && Fits(Address(okey, base), words.Length)
    modifies cache
    ensures forall j: nat {:trigger WordOf(j, dsm)} :: WordOf(j, dsm) + dsm <= words.Length ==>
      Fared(old(cache.mem), cache.mem, Address(okey, base), WordOf(j, dsm), dsm, words[..],
            FateOf(Cached(old(cache.Now()), okey, codec), base, dsm, j))
  {
    ghost var site, before := cache.Now(), cache.mem;
    cache.PutChunk(Address(okey, base), words, words.Length);
    assert words[..words.Length] == words[..];
    forall j: nat | WordOf(j, dsm) + dsm <= words.Length
      ensures Fared(before, cache.mem, Address(okey, base), WordOf(j, dsm), dsm, words[..], FateOf(Cached(site, okey, codec), base, dsm, j))
    {
      ElementFares(Cached(site, okey, codec), before, cache.mem, base, words[..], dsm, j);
    }
  }
}
