/**
What a checkpoint file holds of the shared memory: one record per object, written and read back through
the block-keyed backend in batches.
*/
module CheckpointCodec {
  import opened ChunkStorage
  import opened Objects
  import opened Words

  /** DSM_CACHE_BLOCK_SIZE * 256 */
  const FETCH: nat := 8192

  datatype Saved = Saved(key: nat, flag: nat, words: seq<int>)

  function Record(o: Saved): seq<int> {
    [o.key, |o.words|, o.flag] + o.words
  }

  function Records(list: seq<Saved>): seq<int> {
    if list == [] then [] else Record(list[0]) + Records(list[1..])
  }

  /** The loops step a 32-bit counter by FETCH; it stays below 2^32 exactly for these sizes. */
  predicate Steps(size: nat) {
    size <= U32 - FETCH
  }

  /** For any larger size the counter wraps back to zero before it reaches the size, and the loop never ends. */
  lemma WrapsIffTooLarge(size: nat)
    requires size < U32
    ensures !Steps(size) <==> exists i: nat :: i < size && i % FETCH == 0 && Wrap32(i + FETCH) == 0
  {
    if !Steps(size) {
      assert (U32 - FETCH) % FETCH == 0 && Wrap32(U32 - FETCH + FETCH) == 0;
    }
  }

  /** The store has this object: its record and its words. */
  predicate Holds(s: Store, o: Saved)
    requires BlocksOk(s)
  {
    && LongKey(o.key, INFO) in s && s[LongKey(o.key, INFO)] == [o.flag, |o.words|]
    && Range(s, o.key, 0, |o.words|) == o.words
  }

  predicate Fresh(s: Store, key: nat) {
    LongKey(key, INFO) !in s
  }

  /** A file: words so far, and how many of them are read. */
  class File {
    var words: seq<int>
    var pos: nat

    constructor ()
      ensures words == [] && pos == 0
    {
      words := [];
      pos := 0;
    }

    method Write(w: int)
      modifies this
      ensures words == old(words) + [w] && pos == old(pos)
    {
      words := words + [w];
    }

    method Read() returns (w: int)
      requires pos < |words|
      modifies this`pos
      ensures w == words[old(pos)] && pos == old(pos) + 1
    {
      w := words[pos];
      pos := pos + 1;
    }

    method WriteAll(buf: array<int>)
      modifies this
      ensures words == old(words) + buf[..] && pos == old(pos)
    {
      for j := 0 to buf.Length
        invariant words == old(words) + buf[..j] && pos == old(pos)
      {
        Write(buf[j]);
      }
    }

    method ReadAll(buf: array<int>)
      requires pos + buf.Length <= |words|
      modifies this`pos, buf
      ensures pos == old(pos) + buf.Length && buf[..] == words[old(pos)..pos]
    {
      for j := 0 to buf.Length
        invariant pos == old(pos) + j && buf[..j] == words[old(pos)..pos]
      {
        buf[j] := Read();
      }
    }
  }

  lemma RangeParts(s: Store, key: nat, i: nat, n: nat)
    requires BlocksOk(s)
    ensures Range(s, key, 0, i + n) == Range(s, key, 0, i) + Range(s, key, i, n)
  {
  }

  /** Fetches n words and writes them after those before them. */
  method DumpNext(c: ChunkStore, f: File, key: nat, i: nat, n: nat, ghost prefix: seq<int>)
    requires BlocksOk(c.store) && i < U32 && i + n <= U32 && f.words == prefix + Range(c.store, key, 0, i)
    modifies f
    ensures f.words == prefix + Range(c.store, key, 0, i + n) && f.pos == old(f.pos)
  {
    var buf := new int[n];
    c.GetChunk(key, i, n, buf);
    RangeParts(c.store, key, i, n);
    f.WriteAll(buf);
  }

  method DumpSharedMemory(c: ChunkStore, f: File, key: nat, size: nat, flag: nat)
    requires BlocksOk(c.store) && Steps(size)
    modifies f
    ensures f.words == old(f.words) + Record(Saved(key, flag, Range(c.store, key, 0, size))) && f.pos == old(f.pos)
  {
    f.Write(key);
    f.Write(size);
    f.Write(flag);
    var i := 0;
    while i < size
      invariant 0 <= i && i % FETCH == 0 && f.pos == old(f.pos)
      invariant f.words == old(f.words) + [key, size, flag] + Range(c.store, key, 0, if i < size then i else size)
      decreases size - i
    {
      var n := if FETCH < size - i then FETCH else size - i;
      DumpNext(c, f, key, i, n, old(f.words) + [key, size, flag]);
      i := Wrap32(i + FETCH);
    }
  }

  /** The words still to be read start with an object's record. */
  predicate Next(f: File, o: Saved, rest: seq<int>)
    reads f
  {
    f.pos <= |f.words| && f.words[f.pos..] == Record(o) + rest
  }

  /** Behind a record comes the rest. */
  lemma AfterRecord(words: seq<int>, start: nat, o: Saved, rest: seq<int>)
    requires start <= |words| && words[start..] == Record(o) + rest
    ensures start + 3 + |o.words| <= |words| && words[start + 3 + |o.words|..] == rest
  {
    assert words[start + 3 + |o.words|..] == words[start..][3 + |o.words|..];
  }

  lemma RecordPart(tail: seq<int>, o: Saved, rest: seq<int>, i: nat, n: nat)
    requires tail == Record(o) + rest && i + n <= |o.words|
    ensures |tail| >= 3 + i + n && tail[3 + i..3 + i + n] == o.words[i..i + n]
  {
  }

  /** Puts the words read back after those before them. */
  method PutNext(c: ChunkStore, key: nat, i: nat, buf: array<int>, ghost words: seq<int>, ghost start: Store)
    requires BlocksOk(c.store) && i < U32 && Fits(i, buf.Length) && i + buf.Length <= |words| && buf[..] == words[i..i + buf.Length]
    requires Wrote(start, c.store, key, 0, words[..i])
    modifies c
    ensures Wrote(start, c.store, key, 0, words[..i + buf.Length])
  {
    ghost var before := c.store;
    c.PutChunk(key, i, buf, buf.Length);
    assert buf[..buf.Length] == buf[..];
    WroteBoth(start, before, c.store, key, 0, words[..i], buf[..]);
    assert words[..i] + buf[..] == words[..i + buf.Length];
  }

  /** Reads n words of the record that starts at `start` and puts them after those before them. */
  method RestoreNext(c: ChunkStore, f: File, key: nat, i: nat, n: nat, ghost start: nat, ghost o: Saved, ghost rest: seq<int>, ghost from: Store)
    requires BlocksOk(c.store) && key == o.key && i < U32 && Fits(i, n) && i + n <= |o.words|
    requires start <= |f.words| && f.words[start..] == Record(o) + rest && f.pos == start + 3 + i
    requires Wrote(from, c.store, o.key, 0, o.words[..i])
    modifies c, f`pos
    ensures f.pos == start + 3 + i + n && Wrote(from, c.store, o.key, 0, o.words[..i + n])
  {
    var buf := new int[n];
    RecordPart(f.words[start..], o, rest, i, n);
    assert f.words[f.pos..f.pos + n] == f.words[start..][3 + i..3 + i + n];
    f.ReadAll(buf);
    assert buf[..] == o.words[i..i + n];
    PutNext(c, key, i, buf, o.words, from);
  }

  /** Words put back and then a new object's record: the object is there, and no other object noticed. */
  lemma RestoredHolds(s: Store, s1: Store, o: Saved)
    requires Wrote(s, s1, o.key, 0, o.words) && Fresh(s, o.key) && |o.words| <= U32
    ensures var s2 := s1[LongKey(o.key, INFO) := [o.flag, |o.words|]];
      && Fresh(s1, o.key) && BlocksOk(s2) && Holds(s2, o)
      && (forall p: Saved :: p.key != o.key && Holds(s, p) ==> Holds(s2, p))
      && (forall k :: k != o.key && Fresh(s, k) ==> Fresh(s2, k))
  {
    var s2 := s1[LongKey(o.key, INFO) := [o.flag, |o.words|]];
    assert LongKey(o.key, INFO).low == INFO;
    assert forall k, f {:trigger WordAt(s2, k, f)} :: WordAt(s2, k, f) == WordAt(s1, k, f);
    assert Range(s2, o.key, 0, |o.words|) == o.words;
    forall p: Saved | p.key != o.key && Holds(s, p) ensures Holds(s2, p) {
      assert Range(s2, p.key, 0, |p.words|) == Range(s, p.key, 0, |p.words|);
      assert LongKey(p.key, INFO) in s1;
    }
    forall k: nat | k != o.key && Fresh(s, k) ensures Fresh(s2, k) {
      assert LongKey(k, INFO).low == INFO;
    }
  }

  method RestoreSharedMemory(c: ChunkStore, f: File, ghost o: Saved, ghost rest: seq<int>) returns (key: nat)
    requires BlocksOk(c.store) && Steps(|o.words|) && Next(f, o, rest) && Fresh(c.store, o.key)
    modifies c, f`pos
    ensures f.pos <= |f.words| && f.words[f.pos..] == rest
    ensures BlocksOk(c.store) && key == o.key && Holds(c.store, o)
    ensures forall p: Saved :: p.key != o.key && Holds(old(c.store), p) ==> Holds(c.store, p)
    ensures forall k :: k != o.key && Fresh(old(c.store), k) ==> Fresh(c.store, k)
  {
    ghost var start := f.pos;
    assert f.words[start..][0] == o.key && f.words[start..][1] == |o.words| && f.words[start..][2] == o.flag;
    key := f.Read();
    var size := f.Read();
    var flag := f.Read();
    var i := 0;
    while i < size
      invariant 0 <= i && i % FETCH == 0 && f.pos == start + 3 + (if i < size then i else size)
      invariant Wrote(old(c.store), c.store, key, 0, o.words[..if i < size then i else size])
      decreases size - i
    {
      var n := if FETCH < size - i then FETCH else size - i;
      RestoreNext(c, f, key, i, n, start, o, rest, old(c.store));
      i := Wrap32(i + FETCH);
    }
    assert o.words[..size] == o.words;
    AfterRecord(f.words, start, o, rest);
    RestoredHolds(old(c.store), c.store, o);
    var ok := c.NewObj(key, flag, size);
  }

  // ---- whole files ----

  /** The object as the store has it. */
  function SavedAt(s: Store, key: nat): Saved
    requires BlocksOk(s) && Listed(s, key)
  {
    var info := s[LongKey(key, INFO)];
    Saved(key, info[0], Range(s, key, 0, info[1]))
  }

  predicate Listed(s: Store, key: nat) {
    LongKey(key, INFO) in s && |s[LongKey(key, INFO)]| == 2 && 0 <= s[LongKey(key, INFO)][0]
    && 0 <= s[LongKey(key, INFO)][1] && Steps(s[LongKey(key, INFO)][1])
  }

  function SavedAll(s: Store, keys: seq<nat>): (list: seq<Saved>)
    requires BlocksOk(s) && forall k :: k in keys ==> Listed(s, k)
    ensures |list| == |keys| && forall n :: 0 <= n < |keys| ==> list[n] == SavedAt(s, keys[n])
  {
    if keys == [] then [] else [SavedAt(s, keys[0])] + SavedAll(s, keys[1..])
  }

  lemma {:induction false} RecordsAppend(list: seq<Saved>, o: Saved)
    ensures Records(list + [o]) == Records(list) + Record(o)
  {
    if list == [] {
      assert list + [o] == [o];
    } else {
      assert (list + [o])[1..] == list[1..] + [o];
      RecordsAppend(list[1..], o);
    }
  }

  lemma {:induction false} SavedAppend(s: Store, keys: seq<nat>, k: nat)
    requires BlocksOk(s) && (forall j :: j in keys ==> Listed(s, j)) && Listed(s, k)
    ensures SavedAll(s, keys + [k]) == SavedAll(s, keys) + [SavedAt(s, k)]
  {
    if keys == [] {
      assert keys + [k] == [k];
    } else {
      assert (keys + [k])[1..] == keys[1..] + [k];
      SavedAppend(s, keys[1..], k);
    }
  }

  /** The flag the master gives its global variables, object 0. */
  const GLOBALS_FLAG: nat := 0xffff_ffff

  function Heading(master: bool, globals: Saved, n: nat): seq<int> {
    (if master then Record(globals) else []) + [n]
  }

  method DumpObject(c: ChunkStore, f: File, keys: seq<nat>, n: nat, ghost head: seq<int>)
    requires BlocksOk(c.store) && n < |keys| && forall k :: k in keys ==> Listed(c.store, k)
    requires f.words == head + Records(SavedAll(c.store, keys[..n]))
    modifies f
    ensures f.words == head + Records(SavedAll(c.store, keys[..n + 1])) && f.pos == old(f.pos)
  {
    assert keys[n] in keys;
    var info := c.GetInfo(keys[n]);
    DumpSharedMemory(c, f, keys[n], info[1], info[0]);
    OneMoreRecord(c.store, keys, n);
  }

  lemma OneMoreRecord(s: Store, keys: seq<nat>, n: nat)
    requires BlocksOk(s) && n < |keys| && forall k :: k in keys ==> Listed(s, k)
    ensures Records(SavedAll(s, keys[..n + 1])) == Records(SavedAll(s, keys[..n])) + Record(SavedAt(s, keys[n]))
  {
    assert keys[..n] + [keys[n]] == keys[..n + 1];
    SavedAppend(s, keys[..n], keys[n]);
    RecordsAppend(SavedAll(s, keys[..n]), SavedAt(s, keys[n]));
  }

  /** DoCheckPoint's part of the file; ForEachObject visits `keys` in some order. */
  method DumpAll(c: ChunkStore, f: File, master: bool, globals: nat, keys: seq<nat>)
    requires BlocksOk(c.store) && Steps(globals) && forall k :: k in keys ==> Listed(c.store, k)
    modifies f
    ensures f.words == old(f.words) + Heading(master, Saved(0, GLOBALS_FLAG, Range(c.store, 0, 0, globals)), |keys|)
                       + Records(SavedAll(c.store, keys))
    ensures f.pos == old(f.pos)
  {
    DumpHeading(c, f, master, globals, |keys|);
    DumpList(c, f, keys);
  }

  method DumpHeading(c: ChunkStore, f: File, master: bool, globals: nat, count: nat)
    requires BlocksOk(c.store) && Steps(globals)
    modifies f
    ensures f.words == old(f.words) + Heading(master, Saved(0, GLOBALS_FLAG, Range(c.store, 0, 0, globals)), count) && f.pos == old(f.pos)
  {
    if master {
      DumpSharedMemory(c, f, 0, globals, GLOBALS_FLAG);
    }
    f.Write(count);
  }

  method DumpList(c: ChunkStore, f: File, keys: seq<nat>)
    requires BlocksOk(c.store) && forall k :: k in keys ==> Listed(c.store, k)
    modifies f
    ensures f.words == old(f.words) + Records(SavedAll(c.store, keys)) && f.pos == old(f.pos)
  {
    ghost var head := f.words;
    assert keys[..0] == [];
    for n := 0 to |keys|
      invariant f.words == head + Records(SavedAll(c.store, keys[..n])) && f.pos == old(f.pos)
    {
      DumpObject(c, f, keys, n, head);
    }
    assert keys[..|keys|] == keys;
  }

  predicate DistinctKeys(list: seq<Saved>) {
    forall m, n :: 0 <= m < n < |list| ==> list[m].key != list[n].key
  }

  predicate Restorable(s: Store, list: seq<Saved>) {
    DistinctKeys(list) && forall n {:trigger list[n]} :: 0 <= n < |list| ==> Fresh(s, list[n].key) && Steps(|list[n].words|)
  }

  /** DoRestart's loop over the objects. */
  method RestoreObjects(c: ChunkStore, f: File, count: nat, ghost list: seq<Saved>, ghost rest: seq<int>) returns (keys: seq<nat>)
    requires BlocksOk(c.store) && count == |list| && Restorable(c.store, list)
    requires f.pos <= |f.words| && f.words[f.pos..] == Records(list) + rest
    modifies c, f`pos
    ensures f.pos <= |f.words| && f.words[f.pos..] == rest && BlocksOk(c.store)
    ensures |keys| == |list| && forall n :: 0 <= n < |list| ==> keys[n] == list[n].key && Holds(c.store, list[n])
    ensures forall p: Saved :: Holds(old(c.store), p) && (forall n :: 0 <= n < |list| ==> list[n].key != p.key) ==> Holds(c.store, p)
    decreases count
  {
    if count == 0 {
      return [];
    }
    ghost var tail := list[1..];
    assert Record(list[0]) + (Records(tail) + rest) == Records(list) + rest;
    var key := RestoreSharedMemory(c, f, list[0], Records(tail) + rest);
    assert forall n :: 0 <= n < |tail| ==> tail[n] == list[n + 1];
    var others := RestoreObjects(c, f, count - 1, tail, rest);
    keys := [key] + others;
    assert forall n :: 0 < n < |list| ==> list[n] == tail[n - 1];
  }

  predicate NoGlobals(list: seq<Saved>) {
    forall n {:trigger list[n]} :: 0 <= n < |list| ==> list[n].key != 0
  }

  /** The count and the objects; what was restored before stays. */
  method RestoreList(c: ChunkStore, f: File, ghost list: seq<Saved>, ghost rest: seq<int>, ghost before: Saved) returns (keys: seq<nat>)
    requires BlocksOk(c.store) && Restorable(c.store, list)
    requires NoGlobals(list) && before.key == 0
    requires f.pos <= |f.words| && f.words[f.pos..] == [|list|] + Records(list) + rest
    modifies c, f`pos
    ensures f.pos <= |f.words| && f.words[f.pos..] == rest && BlocksOk(c.store)
    ensures |keys| == |list| && forall n :: 0 <= n < |list| ==> keys[n] == list[n].key && Holds(c.store, list[n])
    ensures Holds(old(c.store), before) ==> Holds(c.store, before)
  {
    assert f.words[f.pos..][0] == |list| && f.words[f.pos..][1..] == Records(list) + rest;
    var count := f.Read();
    keys := RestoreObjects(c, f, count, list, rest);
  }

  /** The master's global variables, object 0. */
  method RestoreGlobals(c: ChunkStore, f: File, ghost globals: Saved, ghost list: seq<Saved>, ghost rest: seq<int>)
    requires BlocksOk(c.store) && globals.key == 0 && Restorable(c.store, [globals] + list)
    requires f.pos <= |f.words| && f.words[f.pos..] == Record(globals) + rest
    modifies c, f`pos
    ensures f.pos <= |f.words| && f.words[f.pos..] == rest && BlocksOk(c.store)
    ensures Holds(c.store, globals) && Restorable(c.store, list)
  {
    ghost var all := [globals] + list;
    assert all[0] == globals && forall n :: 0 <= n < |list| ==> all[n + 1] == list[n];
    var modulekey := RestoreSharedMemory(c, f, globals, rest);
    assert modulekey == 0;
  }

  /** DoRestart: the master restores the globals first. */
  method RestoreAll(c: ChunkStore, f: File, master: bool, ghost globals: Saved, ghost list: seq<Saved>, ghost rest: seq<int>)
    returns (keys: seq<nat>)
    requires BlocksOk(c.store) && globals.key == 0 && NoGlobals(list) && Restorable(c.store, if master then [globals] + list else list)
    requires f.pos <= |f.words| && f.words[f.pos..] == Heading(master, globals, |list|) + Records(list) + rest
    modifies c, f`pos
    ensures f.pos <= |f.words| && f.words[f.pos..] == rest && BlocksOk(c.store)
    ensures |keys| == |list| && forall n :: 0 <= n < |list| ==> keys[n] == list[n].key && Holds(c.store, list[n])
    ensures master ==> Holds(c.store, globals)
  {
    ghost var objects := [|list|] + Records(list) + rest;
    HeadingParts(master, globals, list, rest);
    if master {
      RestoreGlobals(c, f, globals, list, objects);
      keys := RestoreList(c, f, list, rest, globals);
    } else {
      keys := RestoreList(c, f, list, rest, globals);
    }
  }

  lemma HeadingParts(master: bool, globals: Saved, list: seq<Saved>, rest: seq<int>)
    ensures Heading(master, globals, |list|) + Records(list) + rest ==
      (if master then Record(globals) else []) + ([|list|] + Records(list) + rest)
  {
    Regroup(if master then Record(globals) else [], [|list|], Records(list), rest);
  }

  lemma Regroup(a: seq<int>, b: seq<int>, c: seq<int>, d: seq<int>)
    ensures (a + b) + c + d == a + (b + c + d)
  {
  }

  lemma SavedRestorable(s: Store, keys: seq<nat>)
    requires BlocksOk(s) && (forall k :: k in keys ==> Listed(s, k)) && forall m, n :: 0 <= m < n < |keys| ==> keys[m] != keys[n]
    ensures Restorable(map[], SavedAll(s, keys)) && forall n :: 0 <= n < |keys| ==> SavedAll(s, keys)[n].key == keys[n]
  {
    var list := SavedAll(s, keys);
    forall n | 0 <= n < |list| ensures Steps(|list[n].words|) {
      assert keys[n] in keys && list[n] == SavedAt(s, keys[n]);
    }
  }

  lemma AllRestorable(s: Store, master: bool, globals: nat, keys: seq<nat>)
    requires BlocksOk(s) && Steps(globals) && (forall k :: k in keys ==> Listed(s, k)) && 0 !in keys
    requires forall m, n :: 0 <= m < n < |keys| ==> keys[m] != keys[n]
    ensures NoGlobals(SavedAll(s, keys))
    ensures var g := Saved(0, GLOBALS_FLAG, Range(s, 0, 0, globals));
      Restorable(map[], if master then [g] + SavedAll(s, keys) else SavedAll(s, keys))
  {
    SavedRestorable(s, keys);
    var list := SavedAll(s, keys);
    forall n | 0 <= n < |list| ensures list[n].key != 0 {
      assert list[n].key == keys[n] && keys[n] in keys;
    }
    WithGlobals(map[], Saved(0, GLOBALS_FLAG, Range(s, 0, 0, globals)), list);
  }

  lemma WithGlobals(s: Store, g: Saved, list: seq<Saved>)
    requires Restorable(s, list) && NoGlobals(list) && g.key == 0 && Fresh(s, 0) && Steps(|g.words|)
    ensures Restorable(s, [g] + list)
  {
    var all := [g] + list;
    assert forall n :: 0 < n < |all| ==> all[n] == list[n - 1];
  }

  /**
  A node's shared memory survives a checkpoint: dumping the globals (on the master) and any list of
  objects, and restoring the file into an empty store, gives every object back and reads exactly the
  words that were written.
  */
  method DumpAndRestore(c: ChunkStore, master: bool, globals: nat, keys: seq<nat>, payload: seq<int>)
    returns (restored: ChunkStore, back: seq<nat>, f: File)
    requires BlocksOk(c.store) && Steps(globals) && (forall k :: k in keys ==> Listed(c.store, k)) && 0 !in keys
    requires forall m, n :: 0 <= m < n < |keys| ==> keys[m] != keys[n]
    ensures back == keys && fresh(restored) && BlocksOk(restored.store)
    ensures forall n :: 0 <= n < |keys| ==> Holds(restored.store, SavedAt(c.store, keys[n]))
    ensures master ==> Holds(restored.store, Saved(0, GLOBALS_FLAG, Range(c.store, 0, 0, globals)))
    ensures f.pos <= |f.words| && f.words[f.pos..] == payload
  {
    ghost var g := Saved(0, GLOBALS_FLAG, Range(c.store, 0, 0, globals));
    ghost var list := SavedAll(c.store, keys);
    AllRestorable(c.store, master, globals, keys);
    f := DumpFresh(c, master, globals, keys, payload);
    restored, back := RestoreFresh(f, master, g, list, payload);
    forall n | 0 <= n < |keys| ensures back[n] == keys[n] && Holds(restored.store, SavedAt(c.store, keys[n])) {
      assert keys[n] in keys && list[n] == SavedAt(c.store, keys[n]);
    }
    assert back == keys;
  }

  method DumpFresh(c: ChunkStore, master: bool, globals: nat, keys: seq<nat>, payload: seq<int>) returns (f: File)
    requires BlocksOk(c.store) && Steps(globals) && (forall k :: k in keys ==> Listed(c.store, k))
    ensures fresh(f) && f.pos == 0
    ensures f.words == Heading(master, Saved(0, GLOBALS_FLAG, Range(c.store, 0, 0, globals)), |keys|) + Records(SavedAll(c.store, keys)) + payload
  {
    f := new File();
    DumpAll(c, f, master, globals, keys);
    f.words := f.words + payload;
  }

  method RestoreFresh(f: File, master: bool, ghost g: Saved, ghost list: seq<Saved>, ghost payload: seq<int>)
    returns (restored: ChunkStore, back: seq<nat>)
    requires g.key == 0 && NoGlobals(list) && Restorable(map[], if master then [g] + list else list)
    requires f.pos == 0 && f.words == Heading(master, g, |list|) + Records(list) + payload
    modifies f`pos
    ensures fresh(restored) && BlocksOk(restored.store) && f.pos <= |f.words| && f.words[f.pos..] == payload
    ensures |back| == |list| && forall n :: 0 <= n < |list| ==> back[n] == list[n].key && Holds(restored.store, list[n])
    ensures master ==> Holds(restored.store, g)
  {
    restored := new ChunkStore();
    assert f.words[0..] == f.words;
    back := RestoreAll(restored, f, master, g, list, payload);
  }
}
