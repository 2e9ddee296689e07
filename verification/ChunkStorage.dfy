/**
The block-keyed storage over memcached: one value per block of 32 words. Reads and writes at any word
offset refine a flat memory that starts out zero.
*/
module ChunkStorage {
  import opened Objects
  import opened Words

  /** CHUNK_MEMCACHED_FETCH_BATCH */
  const BATCH: nat := 15000

  /** A store as this class leaves it: values at block keys are whole blocks. */
  predicate BlocksOk(s: Store) {
    forall k: LongKey {:trigger s[k]} :: k in s && k.low < U32 / BLOCK ==> |s[k]| == BLOCK
  }

  /** The word that field `f` of object `obj` has. */
  function WordAt(s: Store, obj: nat, f: nat): int
    requires BlocksOk(s)
  {
    var k := LongKey(obj, f / BLOCK);
    if f < U32 && k in s then s[k][f % BLOCK] else 0
  }

  function Range(s: Store, obj: nat, f: nat, len: nat): (r: seq<int>)
    requires BlocksOk(s)
    ensures |r| == len
  {
    seq(len, i requires 0 <= i < len => WordAt(s, obj, f + i))
  }

  /** s' is s with `data` written from field f of obj on, and unchanged everywhere else. */
  ghost predicate Wrote(s: Store, s': Store, obj: nat, f: nat, data: seq<int>) {
    && BlocksOk(s) && BlocksOk(s')
    && (forall o: nat, x: nat {:trigger WordAt(s', o, x)} :: WordAt(s', o, x) == if o == obj && f <= x < f + |data| then data[x - f] else WordAt(s, o, x))
    && (forall k: LongKey {:trigger k in s'} {:trigger k in s} :: k.low >= U32 / BLOCK || k.obj != obj ==>
          (k in s' <==> k in s) && (k in s ==> s'[k] == s[k]))
    && (forall k: LongKey {:trigger k in s'} :: k in s' && k !in s ==> k.obj == obj && f / BLOCK <= k.low && k.low * BLOCK < f + |data|)
  }

  lemma WroteBoth(s: Store, s1: Store, s2: Store, obj: nat, f: nat, d1: seq<int>, d2: seq<int>)
    requires Wrote(s, s1, obj, f, d1) && Wrote(s1, s2, obj, f + |d1|, d2)
    ensures Wrote(s, s2, obj, f, d1 + d2)
  {
    forall o: nat, x: nat ensures WordAt(s2, o, x) == if o == obj && f <= x < f + |d1 + d2| then (d1 + d2)[x - f] else WordAt(s, o, x) {
      assert WordAt(s1, o, x) == if o == obj && f <= x < f + |d1| then d1[x - f] else WordAt(s, o, x);
    }
    forall k: LongKey | k in s2 && k !in s ensures k.obj == obj && f / BLOCK <= k.low && k.low * BLOCK < f + |d1 + d2| {
      assert k in s1 || k !in s1;
    }
  }

  lemma RangeAppend(s: Store, obj: nat, f: nat, n: nat, m: nat)
    requires BlocksOk(s)
    ensures Range(s, obj, f, n + m) == Range(s, obj, f, n) + Range(s, obj, f + n, m)
  {
  }

  /** What was written reads back, and other places do not see it. */
  lemma ReadBack(s: Store, s': Store, obj: nat, f: nat, data: seq<int>, o: nat, g: nat, len: nat)
    requires Wrote(s, s', obj, f, data)
    ensures Range(s', obj, f, |data|) == data
    ensures o != obj || g + len <= f || f + |data| <= g ==> Range(s', o, g, len) == Range(s, o, g, len)
  {
  }

  // ---- the arithmetic of putchunk ----

  /** `(k & mask) ? (k & ~mask) + BLOCK : k`, in 32 bits. */
  function StartOf(k: nat): nat {
    if k % BLOCK != 0 then Wrap32(BlockStart(k) + BLOCK) else k
  }

  /** Where no bound of putchunk's loops wraps around. */
  predicate Fits(k: nat, len: nat) {
    k + len < U32 && (k % BLOCK == 0 || k < U32 - BLOCK)
  }

  // ---- one value ----

  /** Putting a block whose words differ from the old ones only from offset `off` on, by `data`. */
  lemma BlockWrote(s: Store, obj: nat, b: nat, off: nat, data: seq<int>, words: seq<int>)
    requires BlocksOk(s) && b < U32 / BLOCK && off < BLOCK == |words| && 0 < off + |data| <= BLOCK
    requires forall i :: 0 <= i < BLOCK ==> words[i] == if off <= i < off + |data| then data[i - off] else WordAt(s, obj, b * BLOCK + i)
    ensures Wrote(s, s[LongKey(obj, b) := words], obj, b * BLOCK + off, data)
  {
    var s' := s[LongKey(obj, b) := words];
    forall o: nat, x: nat ensures WordAt(s', o, x) ==
      if o == obj && b * BLOCK + off <= x < b * BLOCK + off + |data| then data[x - (b * BLOCK + off)] else WordAt(s, o, x)
    {
      if o == obj && x / BLOCK == b {
        assert x == b * BLOCK + x % BLOCK;
      }
    }
  }

  /** The loop of whole blocks: either everything is done, or i is the aligned field of word idx. */
  predicate Aligned(k: nat, len: nat, i: nat, idx: nat, kEnd: nat) {
    if idx == len then kEnd <= i else i == k + idx && i % BLOCK == 0 && i <= kEnd && kEnd == BlockStart(k + len)
  }

  function HeadEnd(k: nat, len: nat): nat {
    if StartOf(k) < Wrap32(k + len) then StartOf(k) else Wrap32(k + len)
  }

  lemma AfterHead(k: nat, len: nat)
    requires k < U32 && Fits(k, len)
    ensures Wrap32(k + len) == k + len
    ensures k < StartOf(k) ==> k <= HeadEnd(k, len) <= k + len && 0 < k % BLOCK + (HeadEnd(k, len) - k) <= BLOCK
    ensures Aligned(k, len, StartOf(k), if k < StartOf(k) then HeadEnd(k, len) - k else 0, BlockStart(k + len))
  {
    WrapSmall(k + len);
    BlockStartBounds(k);
    BlockStartBounds(k + len);
    if k % BLOCK != 0 {
      WrapSmall(BlockStart(k) + BLOCK);
      BlockBetween(k, len);
    }
  }

  /** A range that goes on past the end of the block of k ends at or after that block's end. */
  lemma BlockBetween(k: nat, len: nat)
    ensures k + len < BlockStart(k) + BLOCK ==> BlockStart(k + len) == BlockStart(k)
    ensures BlockStart(k) + BLOCK <= k + len ==> BlockStart(k) + BLOCK <= BlockStart(k + len)
  {
    BlockStartBounds(k);
    BlockStartBounds(k + len);
    if BlockStart(k) < BlockStart(k + len) {
      NextBoundary(BlockStart(k), BlockStart(k + len));
    }
  }

  lemma NextBlock(k: nat, len: nat, i: nat, idx: nat, kEnd: nat)
    requires k < U32 && Fits(k, len) && idx <= len && Aligned(k, len, i, idx, kEnd) && i < kEnd
    ensures i == k + idx < U32 && i % BLOCK == 0 && idx + BLOCK <= len && Aligned(k, len, i + BLOCK, idx + BLOCK, kEnd)
  {
    BlockStartBounds(k + len);
    NextBoundary(i, kEnd);
  }

  lemma Tail(k: nat, len: nat, i: nat, idx: nat, kEnd: nat)
    requires k < U32 && Fits(k, len) && idx < len && Aligned(k, len, i, idx, kEnd) && i >= kEnd
    ensures kEnd == k + idx < U32 && 0 < kEnd % BLOCK + (len - idx) <= BLOCK && kEnd != k + len
  {
    BlockStartBounds(k + len);
  }

  // ---- exactly where putchunk is right ----

  function HeadCount(k: nat, len: nat): nat {
    if k < StartOf(k) && k < HeadEnd(k, len) then HeadEnd(k, len) - k else 0
  }

  function BodyCount(k: nat, len: nat): nat {
    if StartOf(k) < BlockStart(Wrap32(k + len)) then BlockStart(Wrap32(k + len)) - StartOf(k) else 0
  }

  /** putchunk, with its bounds computed in 32 bits, stores word j of the caller's buffer in field f. */
  predicate Stores(k: nat, len: nat, f: nat, j: nat) {
    var (head, body, kTail) := (HeadCount(k, len), BodyCount(k, len), Wrap32(k + len));
    || (k <= f < k + head && j == f - k)
    || (StartOf(k) <= f < StartOf(k) + body && j == head + (f - StartOf(k)))
    || (head + body < len && BlockStart(kTail) != kTail && StartOf(k) + body <= f < kTail && j == head + body + (f - (StartOf(k) + body)))
  }

  /** It stores each word in its field and touches nothing else exactly when no bound wraps around. */
  lemma RightIffFits(k: nat, len: nat)
    requires k < U32 && k + len <= U32
    ensures (forall f: nat, j: nat {:trigger Stores(k, len, f, j)} :: Stores(k, len, f, j) <==> k <= f < k + len && j == f - k) <==> Fits(k, len)
  {
    if Fits(k, len) {
      forall f: nat, j: nat ensures Stores(k, len, f, j) <==> k <= f < k + len && j == f - k {
        StoresRange(k, len, f, j);
      }
    } else if k + len == U32 {
      assert Wrap32(k + len) == 0;
      assert !Stores(k, len, k, 0);
    } else {
      assert StartOf(k) == 0 && Wrap32(k + len) == k + len;
      assert Stores(k, len, 0, 0);
    }
  }

  lemma StoresRange(k: nat, len: nat, f: nat, j: nat)
    requires k < U32 && Fits(k, len)
    ensures Stores(k, len, f, j) <==> k <= f < k + len && j == f - k
  {
    AfterHead(k, len);
  }

  lemma InBlock(f: nat, i: nat)
    requires f < U32 && i < BLOCK
    ensures (BlockStart(f) + i) / BLOCK == f / BLOCK && (BlockStart(f) + i) % BLOCK == i && BlockStart(f) + i < U32
  {
  }

  /** Word j after an offset lies in this block, counted from the one the offset is in ... */
  function Block(offset: nat, j: nat): nat {
    (offset + j) / BLOCK
  }

  /** ... at this place. */
  function Place(offset: nat, j: nat): (r: nat)
    ensures r < BLOCK
  {
    (offset + j) % BLOCK
  }

  lemma FieldPlace(f: nat, j: nat, n: nat)
    requires j < n
    ensures (f + j) / BLOCK == f / BLOCK + Block(f % BLOCK, j) && (f + j) % BLOCK == Place(f % BLOCK, j)
    ensures Block(f % BLOCK, j) < CeilDiv(n + f % BLOCK, BLOCK)
  {
  }

  /** SoStorageChunkMemcached over memcached as a map: set and delete take effect at once. */
  class ChunkStore {
    var store: Store

    constructor ()
      ensures store == map[]
    {
      store := map[];
    }

    /** The keys among the n from `low` on that have a value, in some order. */
    ghost predicate Answers(obj: nat, low: nat, n: nat, hits: seq<nat>)
      reads this
    {
      forall b: nat {:trigger b in hits} :: b in hits <==> b < n && LongKey(obj, low + b) in store
    }

    /** memcached's get of several keys. Which order the answers come in is not part of its contract. */
    method MultiGet(obj: nat, low: nat, n: nat) returns (hits: seq<nat>)
      ensures Answers(obj, low, n, hits)
    {
      hits := [];
      for b := 0 to n
        invariant forall c: nat :: c in hits <==> c < b && LongKey(obj, low + c) in store
      {
        if LongKey(obj, low + b) in store {
          hits := [b] + hits;
        }
      }
    }

    /** getblock: the block field f lies in. */
    method GetBlock(obj: nat, f: nat, buf: array<int>)
      requires BlocksOk(store) && f < U32 && buf.Length == BLOCK
      modifies buf
      ensures forall i :: 0 <= i < BLOCK ==> buf[i] == WordAt(store, obj, BlockStart(f) + i)
    {
      forall i | 0 <= i < BLOCK {
        buf[i] := 0;
      }
      var hits := MultiGet(obj, f / BLOCK, 1);
      for r := 0 to |hits|
        invariant forall i :: 0 <= i < BLOCK ==> buf[i] == if r > 0 then WordAt(store, obj, BlockStart(f) + i) else 0
      {
        assert hits[r] in hits;
        var value := store[LongKey(obj, f / BLOCK)];
        forall i | 0 <= i < BLOCK {
          buf[i] := value[i];
        }
        forall i | 0 <= i < BLOCK ensures value[i] == WordAt(store, obj, BlockStart(f) + i) {
          InBlock(f, i);
        }
      }
      if hits == [] {
        assert 0 !in hits;
        forall i | 0 <= i < BLOCK ensures buf[i] == WordAt(store, obj, BlockStart(f) + i) {
          InBlock(f, i);
        }
      }
    }

    method Get(obj: nat, f: nat) returns (word: int)
      requires BlocksOk(store) && f < U32
      ensures word == WordAt(store, obj, f)
    {
      var buf := new int[BLOCK];
      GetBlock(obj, f, buf);
      word := buf[f % BLOCK];
      assert BlockStart(f) + f % BLOCK == f;
    }

    /** memcached_put of one block, which changes the words from f on to `data`. */
    method SetBlock(obj: nat, f: nat, ghost data: seq<int>, words: seq<int>)
      requires BlocksOk(store) && f < U32 && |words| == BLOCK && 0 < f % BLOCK + |data| <= BLOCK
      requires forall i :: 0 <= i < BLOCK ==>
        words[i] == if f % BLOCK <= i < f % BLOCK + |data| then data[i - f % BLOCK] else WordAt(store, obj, BlockStart(f) + i)
      modifies this
      ensures Wrote(old(store), store, obj, f, data)
    {
      assert BlockStart(f) == f / BLOCK * BLOCK;
      BlockWrote(store, obj, f / BLOCK, f % BLOCK, data, words);
      store := store[LongKey(obj, f / BLOCK) := words];
    }

    method SetWhole(obj: nat, f: nat, words: seq<int>)
      requires BlocksOk(store) && f < U32 && |words| == BLOCK && f % BLOCK == 0
      modifies this
      ensures Wrote(old(store), store, obj, f, words)
    {
      SetBlock(obj, f, words, words);
    }

    /** The head and tail cases of putchunk: reads the block of field f, changes its words from f on, puts it back. */
    method PatchBlock(obj: nat, f: nat, end: nat, buf: array<int>, idx: nat)
      requires BlocksOk(store) && f <= end && f < U32 && 0 < f % BLOCK + (end - f) <= BLOCK && idx + (end - f) <= buf.Length
      modifies this
      ensures Wrote(old(store), store, obj, f, buf[idx..idx + (end - f)])
    {
      var words := new int[BLOCK];
      GetBlock(obj, f, words);
      var i, j := f, idx;
      while i < end
        invariant f <= i <= end && j == idx + (i - f) && store == old(store)
        invariant forall n :: 0 <= n < BLOCK ==>
          words[n] == if f % BLOCK <= n < f % BLOCK + (i - f) then buf[idx + (n - f % BLOCK)] else WordAt(store, obj, BlockStart(f) + n)
      {
        assert i % BLOCK == f % BLOCK + (i - f);
        words[i % BLOCK] := buf[j];
        j := j + 1;
        i := i + 1;
      }
      SetBlock(obj, f, buf[idx..j], words[..]);
    }

    /** One whole block straight from the caller's buffer, after idx words are done. */
    method PutWhole(obj: nat, k: nat, buf: array<int>, idx: nat, ghost start: Store)
      requires BlocksOk(store) && k + idx < U32 && (k + idx) % BLOCK == 0 && idx + BLOCK <= buf.Length
      requires Wrote(start, store, obj, k, buf[..idx])
      modifies this
      ensures Wrote(start, store, obj, k, buf[..idx + BLOCK])
    {
      ghost var before := store;
      var words := buf[idx..idx + BLOCK];
      SetWhole(obj, k + idx, words);
      WroteBoth(start, before, store, obj, k, buf[..idx], words);
      assert buf[..idx] + buf[idx..idx + BLOCK] == buf[..idx + BLOCK];
    }

    /** Words [idx, idx + n) go into a part of one block, after idx words are done. */
    method PutPart(obj: nat, k: nat, buf: array<int>, idx: nat, n: nat, ghost start: Store)
      requires BlocksOk(store) && k + idx < U32 && 0 < (k + idx) % BLOCK + n <= BLOCK && idx + n <= buf.Length
      requires Wrote(start, store, obj, k, buf[..idx])
      modifies this
      ensures Wrote(start, store, obj, k, buf[..idx + n])
    {
      ghost var before := store;
      PatchBlock(obj, k + idx, k + idx + n, buf, idx);
      WroteBoth(start, before, store, obj, k, buf[..idx], buf[idx..idx + n]);
      assert buf[..idx] + buf[idx..idx + n] == buf[..idx + n];
    }

    method PutChunk(obj: nat, k: nat, buf: array<int>, len: nat)
      requires BlocksOk(store) && k < U32 && len <= buf.Length && Fits(k, len)
      modifies this
      ensures Wrote(old(store), store, obj, k, buf[..len])
    {
      var kTail := Wrap32(k + len);
      var kStart := StartOf(k);
      var kEnd := BlockStart(kTail);
      AfterHead(k, len);
      var idx: nat := 0;
      if k < kStart {
        PutPart(obj, k, buf, 0, HeadEnd(k, len) - k, store);
        idx := HeadEnd(k, len) - k;
      }
      var i := kStart;
      while i < kEnd
        invariant idx <= len && Aligned(k, len, i, idx, kEnd)
        invariant Wrote(old(store), store, obj, k, buf[..idx])
      {
        NextBlock(k, len, i, idx, kEnd);
        PutWhole(obj, k, buf, idx, old(store));
        idx := idx + BLOCK;
        i := i + BLOCK;
      }
      if idx < len {
        Tail(k, len, i, idx, kEnd);
      }
      if idx < len && kEnd != kTail {
        PutPart(obj, k, buf, idx, kTail - kEnd, old(store));
      }
    }

    /** One answer of the multi-get: its words go where they belong in the caller's buffer. */
    method CopyBlock(words: seq<int>, b: nat, offset: nat, n: nat, v: array<int>, at: nat)
      requires |words| == BLOCK && offset < BLOCK && at + n <= v.Length
      modifies v
      ensures forall x :: 0 <= x < v.Length ==>
        v[x] == if at <= x < at + n && Block(offset, x - at) == b then words[Place(offset, x - at)] else old(v[x])
    {
      var i := if b == 0 then offset else 0;
      var j := b * BLOCK + i - offset;
      while i < BLOCK && j < n
        invariant i <= BLOCK && 0 <= j == b * BLOCK + i - offset
        invariant forall x {:trigger v[x]} :: 0 <= x < v.Length ==>
          v[x] == if at <= x < at + n && x - at < j && Block(offset, x - at) == b then words[Place(offset, x - at)] else old(v[x])
      {
        assert Block(offset, j) == b && Place(offset, j) == i;
        v[at + j] := words[i];
        i, j := i + 1, j + 1;
      }
      forall m: nat | m < n && Block(offset, m) == b ensures m < j {
        assert offset + m < (b + 1) * BLOCK;
      }
    }

    /** do_getchunk: n words from field f on, into the caller's buffer from `at` on. */
    method DoGetChunk(obj: nat, f: nat, n: nat, v: array<int>, at: nat)
      requires BlocksOk(store) && f + n <= U32 && at + n <= v.Length
      modifies v
      ensures v[..] == old(v[..at]) + Range(store, obj, f, n) + old(v[at + n..])
    {
      var offset := f % BLOCK;
      forall x | at <= x < at + n {
        v[x] := 0;
      }
      var hits := MultiGet(obj, f / BLOCK, CeilDiv(n + offset, BLOCK));
      for r := 0 to |hits|
        invariant forall x {:trigger v[x]} :: 0 <= x < v.Length && !(at <= x < at + n) ==> v[x] == old(v[x])
        invariant forall j {:trigger Block(offset, j)} :: 0 <= j < n ==>
          v[at + j] == if Block(offset, j) in hits[..r] then WordAt(store, obj, f + j) else 0
      {
        var b := hits[r];
        assert b in hits;
        var words := store[LongKey(obj, f / BLOCK + b)];
        CopyBlock(words, b, offset, n, v, at);
        forall j | 0 <= j < n && Block(offset, j) == b ensures WordAt(store, obj, f + j) == words[Place(offset, j)] {
          FieldPlace(f, j, n);
        }
      }
      forall j | 0 <= j < n ensures v[at..at + n][j] == Range(store, obj, f, n)[j] {
        FieldPlace(f, j, n);
        assert hits[..|hits|] == hits;
        var b := Block(offset, j);
        assert v[at + j] == if b in hits then WordAt(store, obj, f + j) else 0;
        assert b !in hits ==> WordAt(store, obj, f + j) == 0;
      }
      assert v[at..at + n] == Range(store, obj, f, n);
      assert v[..] == v[..at] + v[at..at + n] + v[at + n..];
    }

    /** splited_getchunk: at most BATCH words per multi-get. */
    method GetChunk(obj: nat, f: nat, len: nat, v: array<int>)
      requires BlocksOk(store) && f < U32 && f + len <= U32 && v.Length == len
      modifies v
      ensures v[..] == Range(store, obj, f, len)
    {
      var l := f;
      if len >= BATCH {
        var limit := Wrap32(f + len - BATCH);
        while l < limit
          invariant f <= l < f + len && v[..l - f] == Range(store, obj, f, l - f)
        {
          DoGetChunk(obj, l, BATCH, v, l - f);
          RangeAppend(store, obj, f, l - f, BATCH);
          l := l + BATCH;
        }
      }
      var remain := Wrap32(f + len - l);
      if remain != 0 {
        DoGetChunk(obj, l, remain, v, l - f);
        RangeAppend(store, obj, f, l - f, remain);
      }
    }

    /** newobj: memcached's add fails if the object is there already. */
    method NewObj(obj: nat, flag: nat, size: nat) returns (ok: bool)
      modifies this
      ensures ok <==> LongKey(obj, INFO) !in old(store)
      ensures store == if ok then old(store)[LongKey(obj, INFO) := [flag, size]] else old(store)
    {
      ok := LongKey(obj, INFO) !in store;
      if ok {
        store := store[LongKey(obj, INFO) := [flag, size]];
      }
    }

    method GetInfo(obj: nat) returns (info: seq<int>)
      ensures info == if LongKey(obj, INFO) in store then store[LongKey(obj, INFO)] else []
    {
      info := if LongKey(obj, INFO) in store then store[LongKey(obj, INFO)] else [];
    }

    /** Deletes the blocks an object of this size can have, and the info record. */
    method Del(obj: nat)
      requires LongKey(obj, INFO) in store && |store[LongKey(obj, INFO)]| == 2 && 0 <= store[LongKey(obj, INFO)][1] < U32
      modifies this
      ensures var cnt := CeilDiv((old(store)[LongKey(obj, INFO)][1] as nat), BLOCK);
        forall k {:trigger k in store} ::
          && (k in store <==> k in old(store) && !(k.obj == obj && (k.low < cnt || k.low == INFO)))
          && (k in store ==> store[k] == old(store)[k])
    {
      var info := GetInfo(obj);
      var cnt := CeilDiv(info[1], BLOCK);
      var i := 0;
      while i < cnt
        invariant i <= cnt
        invariant forall k {:trigger k in store} :: k in store <==> k in old(store) && !(k.obj == obj && k.low < i)
        invariant forall k {:trigger store[k]} :: k in store ==> store[k] == old(store)[k]
      {
        store := store - {LongKey(obj, i)};
        i := i + 1;
      }
      store := store - {LongKey(obj, INFO)};
    }
  }
}
