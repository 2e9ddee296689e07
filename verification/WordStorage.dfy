/**
The word-keyed storage over memcached: one value per word. It refines the same flat memory as the
block-keyed one.
*/
module WordStorage {
  import opened Objects
  import opened Words

  /** MEMCACHED_FETCH_BATCH */
  const BATCH: nat := 490

  /** Every value has at least one word; a word that was never put is zero. */
  predicate WordsOk(s: Store) {
    forall k: LongKey {:trigger s[k]} :: k in s ==> s[k] != []
  }

  function WordAt(s: Store, obj: nat, f: nat): int
    requires WordsOk(s)
  {
    if LongKey(obj, f) in s then s[LongKey(obj, f)][0] else 0
  }

  function Range(s: Store, obj: nat, f: nat, len: nat): (r: seq<int>)
    requires WordsOk(s)
    ensures |r| == len
  {
    seq(len, i requires 0 <= i < len => WordAt(s, obj, f + i))
  }

  predicate Touches(k: LongKey, obj: nat, f: nat, len: nat) {
    k.obj == obj && f <= k.low < f + len
  }

  /** s' is s with `data` put from field f of obj on, key by key. */
  ghost predicate Wrote(s: Store, s': Store, obj: nat, f: nat, data: seq<int>) {
    forall k {:trigger k in s'} {:trigger k in s} ::
      && (k in s' <==> k in s || Touches(k, obj, f, |data|))
      && (k in s' ==> s'[k] == if Touches(k, obj, f, |data|) then [data[k.low - f]] else s[k])
  }

  /** As flat memory: the words from f on are `data`, the others are what they were. */
  lemma WroteWords(s: Store, s': Store, obj: nat, f: nat, data: seq<int>, o: nat, x: nat)
    requires WordsOk(s) && Wrote(s, s', obj, f, data)
    ensures WordsOk(s') && WordAt(s', o, x) == if o == obj && f <= x < f + |data| then data[x - f] else WordAt(s, o, x)
  {
    assert LongKey(o, x) in s' <==> LongKey(o, x) in s || Touches(LongKey(o, x), obj, f, |data|);
    forall k: LongKey | k in s' ensures s'[k] != [] {
      if !Touches(k, obj, f, |data|) {
        assert k in s && s[k] != [];
      }
    }
  }

  /** Where the 32-bit batch offset does not wrap around. */
  predicate BatchesFit(len: nat) {
    CeilDiv(len, BATCH) * BATCH < U32
  }

  class WordStore {
    var store: Store

    constructor ()
      ensures store == map[]
    {
      store := map[];
    }

    ghost predicate Answers(obj: nat, low: nat, n: nat, hits: seq<nat>)
      reads this
    {
      forall b: nat {:trigger b in hits} :: b in hits <==> b < n && LongKey(obj, low + b) in store
    }

    /** memcached's get of several keys. Which order the answers come in is not part of its contract. */
    method MultiGet(obj: nat, low: nat, n: nat) returns (hits: seq<nat>)
      requires low + n <= U32
      ensures Answers(obj, low, n, hits)
    {
      hits := [];
      for b := 0 to n
        invariant forall c: nat :: c in hits <==> c < b && LongKey(obj, low + c) in store
      {
        if LongKey(obj, low + b) in store {
          hits := [b] + hits;
        }
      }
    }

    method PutChunk(obj: nat, f: nat, buf: array<int>, len: nat)
      requires f < U32 && f + len <= U32 && len <= buf.Length
      modifies this
      ensures Wrote(old(store), store, obj, f, buf[..len])
    {
      var i, k := 0, f;
      while i < len
        invariant i <= len && k == Wrap32(f + i)
        invariant Wrote(old(store), store, obj, f, buf[..i])
      {
        assert k == f + i;
        store := store[LongKey(obj, k) := [buf[i]]];
        i := i + 1;
        k := Wrap32(k + 1);
      }
    }

    method Get(obj: nat, f: nat) returns (word: int)
      requires WordsOk(store) && f < U32
      ensures word == WordAt(store, obj, f)
    {
      word := if LongKey(obj, f) in store then store[LongKey(obj, f)][0] else 0;
    }

    /** One batch: zero the buffer, then take the answers as they come. */
    method FetchBatch(obj: nat, f: nat, n: nat, v: array<int>, at: nat)
      requires WordsOk(store) && f + n <= U32 && at + n <= v.Length
      modifies v
      ensures v[..] == old(v[..at]) + Range(store, obj, f, n) + old(v[at + n..])
    {
      forall x | at <= x < at + n {
        v[x] := 0;
      }
      var hits := MultiGet(obj, f, n);
      for r := 0 to |hits|
        invariant forall x {:trigger v[x]} :: 0 <= x < v.Length ==>
          v[x] == if at <= x < at + n then (if x - at in hits[..r] then WordAt(store, obj, f + (x - at)) else 0) else old(v[x])
      {
        assert hits[r] in hits;
        v[at + hits[r]] := store[LongKey(obj, f + hits[r])][0];
      }
      assert hits[..|hits|] == hits;
      forall j | 0 <= j < n ensures v[at..at + n][j] == Range(store, obj, f, n)[j] {
        assert j !in hits ==> WordAt(store, obj, f + j) == 0;
        assert v[at + j] == WordAt(store, obj, f + j);
      }
      assert v[..] == v[..at] + v[at..at + n] + v[at + n..];
    }

    method GetChunk(obj: nat, f: nat, len: nat, v: array<int>)
      requires WordsOk(store) && f < U32 && f + len <= U32 && v.Length == len && BatchesFit(len)
      modifies v
      ensures v[..] == Range(store, obj, f, len)
    {
      var offset := 0;
      while offset < len
        invariant 0 <= offset && offset % BATCH == 0
        invariant v[..if offset < len then offset else len] == Range(store, obj, f, if offset < len then offset else len)
        decreases len - offset
      {
        BatchFits(offset, len);
        var mylen := if Wrap32(offset + BATCH) < len then BATCH else len - offset;
        FetchBatch(obj, f + offset, mylen, v, offset);
        assert Range(store, obj, f, offset + mylen) == Range(store, obj, f, offset) + Range(store, obj, f + offset, mylen);
        offset := Wrap32(offset + BATCH);
      }
    }

    /** newobj: memcached's add fails if the object is there already. */
    method NewObj(obj: nat, flag: nat, size: nat) returns (ok: bool)
      modifies this
      ensures ok <==> LongKey(obj, INFO) !in old(store)
      ensures store == if ok then old(store)[LongKey(obj, INFO) := [flag, size]] else old(store)
    {
      ok := LongKey(obj, INFO) !in store;
      if ok {
        store := store[LongKey(obj, INFO) := [flag, size]];
      }
    }

    method GetInfo(obj: nat) returns (info: seq<int>)
      ensures info == if LongKey(obj, INFO) in store then store[LongKey(obj, INFO)] else []
    {
      info := if LongKey(obj, INFO) in store then store[LongKey(obj, INFO)] else [];
    }

    /** Deletes the words an object of this size can have, and the info record. */
    method Del(obj: nat)
      requires LongKey(obj, INFO) in store && |store[LongKey(obj, INFO)]| == 2 && 0 <= store[LongKey(obj, INFO)][1] < U32
      modifies this
      ensures var cnt := (old(store)[LongKey(obj, INFO)][1] as nat);
        forall k {:trigger k in store} ::
          && (k in store <==> k in old(store) && !(k.obj == obj && (k.low < cnt || k.low == INFO)))
          && (k in store ==> store[k] == old(store)[k])
    {
      var info := GetInfo(obj);
      var cnt := info[1];
      var i := 0;
      while i < cnt
        invariant i <= cnt
        invariant forall k {:trigger k in store} :: k in store <==> k in old(store) && !(k.obj == obj && k.low < i)
        invariant forall k {:trigger store[k]} :: k in store ==> store[k] == old(store)[k]
      {
        store := store - {LongKey(obj, i)};
        i := i + 1;
      }
      store := store - {LongKey(obj, INFO)};
    }
  }

  lemma BatchFits(offset: nat, len: nat)
    requires offset % BATCH == 0 && offset < len && BatchesFit(len)
    ensures offset + BATCH < U32 && (offset + BATCH) % BATCH == 0
  {
    CeilDivBounds(len, BATCH);
    var q := offset / BATCH;
    assert offset == BATCH * q;
    assert q < CeilDiv(len, BATCH);
    assert BATCH * (q + 1) <= BATCH * CeilDiv(len, BATCH);
    Multiple(q + 1);
  }

  lemma Multiple(q: nat)
    ensures BATCH * q % BATCH == 0 && BATCH * q / BATCH == q
  {
  }

  // ---- where the offset wraps around ----

  /** The loop's offset after n passes, in 32 bits. */
  function OffsetAfter(n: nat): nat {
    if n == 0 then 0 else Wrap32(OffsetAfter(n - 1) + BATCH)
  }

  /** The loop makes its pass number n, counting from 0. */
  predicate Reached(len: nat, n: nat) {
    forall m {:trigger OffsetAfter(m)} :: 0 <= m <= n ==> OffsetAfter(m) < len
  }

  /** Fewer words than a batch are left, but the sum wraps around and the test takes the batch for a full one. */
  predicate Overruns(len: nat, offset: nat) {
    offset < len && len - offset < BATCH && Wrap32(offset + BATCH) < len
  }

  /** As long as nothing wraps, pass n is at word n * BATCH. */
  lemma {:induction false} OffsetIs(n: nat)
    requires BATCH * n < U32
    ensures OffsetAfter(n) == BATCH * n
  {
    if n > 0 {
      OffsetIs(n - 1);
      WrapSmall(OffsetAfter(n - 1) + BATCH);
    }
  }

  /** If the batches fit, every pass is at a multiple of the batch size. */
  lemma {:induction false} OffsetAligned(len: nat, n: nat)
    requires BatchesFit(len) && Reached(len, n)
    ensures OffsetAfter(n) % BATCH == 0
  {
    if n > 0 {
      OffsetAligned(len, n - 1);
      assert OffsetAfter(n - 1) < len;
      BatchFits(OffsetAfter(n - 1), len);
      WrapSmall(OffsetAfter(n - 1) + BATCH);
    }
  }

  /** The pass that overruns, if the batches do not fit: the last one. */
  lemma LastPass(len: nat) returns (n: nat)
    requires len < U32 && !BatchesFit(len)
    ensures Reached(len, n) && Overruns(len, OffsetAfter(n))
  {
    var q := CeilDiv(len, BATCH);
    CeilDivBounds(len, BATCH);
    n := q - 1;
    assert BATCH * q == BATCH * n + BATCH && BATCH * n < len;
    forall m | 0 <= m <= n ensures OffsetAfter(m) < len {
      OffsetIs(m);
    }
    OffsetIs(n);
    assert BATCH * n + BATCH >= U32;
    assert Wrap32(BATCH * n + BATCH) == BATCH * n + BATCH - U32;
  }

  /** The exact condition: some pass of the loop runs past the end of the buffer if and only if the batches do not fit 32 bits. */
  lemma LastBatchOverruns(len: nat)
    requires len < U32
    ensures (exists n: nat :: Reached(len, n) && Overruns(len, OffsetAfter(n))) <==> !BatchesFit(len)
  {
    if !BatchesFit(len) {
      var n := LastPass(len);
    } else {
      forall n: nat | Reached(len, n) ensures !Overruns(len, OffsetAfter(n)) {
        OffsetAligned(len, n);
        assert OffsetAfter(n) < len;
        BatchFits(OffsetAfter(n), len);
        WrapSmall(OffsetAfter(n) + BATCH);
      }
    }
  }
}
