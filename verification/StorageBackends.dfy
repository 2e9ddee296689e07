/**
The two memcached backends are interchangeable: as long as accesses stay inside objects, both give the
answers of module Objects to every sequence of operations.
*/
module StorageBackends {
  import opened Objects
  import opened Words
  import Chunk = ChunkStorage
  import Word = WordStorage

  /** Both backends' arithmetic is right for the access. */
  predicate Supported(op: Op) {
    match op
    case Put(_, f, data) => Chunk.Fits(f, |data|)
    case Get(_, _, len) => Word.BatchesFit(len)
    case _ => true
  }

  /** The operations stay inside objects, whatever happened before. */
  predicate Legal(objects: map<nat, Object>, ops: seq<Op>)
    decreases |ops|
  {
    ops == [] || (InBounds(objects, ops[0]) && Supported(ops[0]) && Legal(After(objects, ops[0]), ops[1..]))
  }

  function Answers(objects: map<nat, Object>, ops: seq<Op>): seq<Result>
    requires Legal(objects, ops)
    decreases |ops|
  {
    if ops == [] then [] else [Answer(objects, ops[0])] + Answers(After(objects, ops[0]), ops[1..])
  }

  // ---- the block-keyed backend ----

  /** Blocks lie inside their objects, and together they hold the objects' words. */
  ghost predicate ChunkHolds(s: Store, objects: map<nat, Object>) {
    && Recorded(s, objects) && Chunk.BlocksOk(s)
    && (forall k {:trigger k in s} :: k in s && k.low != INFO ==>
          k.obj in objects && k.low < U32 / BLOCK && k.low * BLOCK < |objects[k.obj].words|)
    && (forall obj, f {:trigger Chunk.WordAt(s, obj, f)} :: obj in objects && 0 <= f < |objects[obj].words| ==>
          Chunk.WordAt(s, obj, f) == objects[obj].words[f])
  }

  lemma ChunkNew(s: Store, objects: map<nat, Object>, obj: nat, flag: nat, size: nat)
    requires ChunkHolds(s, objects) && obj !in objects && size < U32
    ensures ChunkHolds(s[LongKey(obj, INFO) := [flag, size]], After(objects, New(obj, flag, size)))
  {
    var (s', objects') := (s[LongKey(obj, INFO) := [flag, size]], After(objects, New(obj, flag, size)));
    forall o, f | o in objects' && 0 <= f < |objects'[o].words| ensures Chunk.WordAt(s', o, f) == objects'[o].words[f] {
      assert LongKey(o, f / BLOCK) in s' <==> LongKey(o, f / BLOCK) in s;
      if o != obj {
        assert Chunk.WordAt(s, o, f) == objects[o].words[f];
      }
    }
  }

  lemma ChunkPut(s: Store, s': Store, objects: map<nat, Object>, obj: nat, f: nat, data: seq<int>)
    requires ChunkHolds(s, objects) && InBounds(objects, Put(obj, f, data)) && Chunk.Wrote(s, s', obj, f, data)
    ensures ChunkHolds(s', After(objects, Put(obj, f, data)))
  {
    var objects' := After(objects, Put(obj, f, data));
    forall o, x | o in objects' && 0 <= x < |objects'[o].words| ensures Chunk.WordAt(s', o, x) == objects'[o].words[x] {
      assert Chunk.WordAt(s, o, x) == objects[o].words[x];
    }
    forall o: nat ensures LongKey(o, INFO) in s' <==> LongKey(o, INFO) in s {
      assert LongKey(o, INFO).low == INFO;
    }
    forall k | k in s' ensures k.low != INFO ==> k.obj in objects' && k.low < U32 / BLOCK && k.low * BLOCK < |objects'[k.obj].words| {
      assert k in s ==> k.low != INFO ==> k.low < U32 / BLOCK;
    }
  }

  ghost predicate Deleted(s: Store, s': Store, obj: nat, cnt: nat) {
    forall k {:trigger k in s'} ::
      (k in s' <==> k in s && !(k.obj == obj && (k.low < cnt || k.low == INFO))) && (k in s' ==> s'[k] == s[k])
  }

  lemma ChunkDelete(s: Store, s': Store, objects: map<nat, Object>, obj: nat)
    requires ChunkHolds(s, objects) && obj in objects && Deleted(s, s', obj, CeilDiv(|objects[obj].words|, BLOCK))
    ensures ChunkHolds(s', After(objects, Delete(obj)))
  {
    var objects' := After(objects, Delete(obj));
    CeilDivBounds(|objects[obj].words|, BLOCK);
    forall o, x | o in objects' && 0 <= x < |objects'[o].words| ensures Chunk.WordAt(s', o, x) == objects'[o].words[x] {
      assert LongKey(o, x / BLOCK) in s' <==> LongKey(o, x / BLOCK) in s;
      assert Chunk.WordAt(s, o, x) == objects[o].words[x];
    }
    forall k: LongKey | k in s' ensures k.obj != obj {
      assert k in s;
    }
  }

  method ChunkExecute(c: Chunk.ChunkStore, op: Op, ghost objects: map<nat, Object>) returns (r: Result)
    requires ChunkHolds(c.store, objects) && InBounds(objects, op) && Supported(op)
    modifies c
    ensures ChunkHolds(c.store, After(objects, op)) && r == Answer(objects, op)
  {
    match op
    case New(obj, flag, size) =>
      var ok := c.NewObj(obj, flag, size);
      assert ok <==> obj !in objects;
      if obj !in objects {
        ChunkNew(old(c.store), objects, obj, flag, size);
      }
      r := if ok then Success else Failure;
    case Info(obj) =>
      var info := c.GetInfo(obj);
      r := Described(info, objects, obj, c.store);
    case Put(obj, f, data) =>
      var buf := new int[|data|](i requires 0 <= i < |data| => data[i]);
      assert buf[..] == data && buf[..|data|] == data;
      c.PutChunk(obj, f, buf, |data|);
      ChunkPut(old(c.store), c.store, objects, obj, f, data);
      r := Success;
    case Get(obj, f, len) =>
      var buf := new int[len];
      c.GetChunk(obj, f, len, buf);
      assert buf[..] == objects[obj].words[f..f + len] by {
        forall i | 0 <= i < len ensures Chunk.Range(c.store, obj, f, len)[i] == objects[obj].words[f..f + len][i] {
          assert Chunk.WordAt(c.store, obj, f + i) == objects[obj].words[f + i];
        }
      }
      r := Fetched(buf[..]);
    case Delete(obj) =>
      assert objects[obj].flag >= 0;
      c.Del(obj);
      ChunkDelete(old(c.store), c.store, objects, obj);
      r := Success;
  }

  /** What getinfo's record says. */
  method Described(info: seq<int>, ghost objects: map<nat, Object>, obj: nat, ghost s: Store) returns (r: Result)
    requires Recorded(s, objects) && info == if LongKey(obj, INFO) in s then s[LongKey(obj, INFO)] else []
    ensures r == Answer(objects, Info(obj))
  {
    assert LongKey(obj, INFO) in s <==> obj in objects;
    if obj in objects {
      assert s[LongKey(obj, INFO)] == [objects[obj].flag, |objects[obj].words|];
    }
    r := if |info| == 2 && info[0] >= 0 && info[1] >= 0 then InfoIs(info[0], info[1]) else Failure;
  }

  /** A sequence of operations on the block-keyed backend gives the answers of module Objects. */
  method ChunkRun(c: Chunk.ChunkStore, ops: seq<Op>, ghost objects: map<nat, Object>) returns (results: seq<Result>)
    requires ChunkHolds(c.store, objects) && Legal(objects, ops)
    modifies c
    ensures results == Answers(objects, ops)
    decreases |ops|
  {
    if ops == [] {
      return [];
    }
    var first := ChunkExecute(c, ops[0], objects);
    var rest := ChunkRun(c, ops[1..], After(objects, ops[0]));
    results := [first] + rest;
  }

  // ---- the word-keyed backend ----

  ghost predicate WordHolds(s: Store, objects: map<nat, Object>) {
    && Recorded(s, objects) && Word.WordsOk(s)
    && (forall k {:trigger k in s} :: k in s && k.low != INFO ==> k.obj in objects && k.low < |objects[k.obj].words|)
    && (forall obj, f {:trigger Word.WordAt(s, obj, f)} :: obj in objects && 0 <= f < |objects[obj].words| ==>
          Word.WordAt(s, obj, f) == objects[obj].words[f])
  }

  lemma WordNew(s: Store, objects: map<nat, Object>, obj: nat, flag: nat, size: nat)
    requires WordHolds(s, objects) && obj !in objects && size < U32
    ensures WordHolds(s[LongKey(obj, INFO) := [flag, size]], After(objects, New(obj, flag, size)))
  {
    var (s', objects') := (s[LongKey(obj, INFO) := [flag, size]], After(objects, New(obj, flag, size)));
    forall o, f | o in objects' && 0 <= f < |objects'[o].words| ensures Word.WordsOk(s') && Word.WordAt(s', o, f) == objects'[o].words[f] {
      assert LongKey(o, f) in s' <==> LongKey(o, f) in s;
      if o != obj {
        assert Word.WordAt(s, o, f) == objects[o].words[f];
      }
    }
  }

  lemma WordPut(s: Store, s': Store, objects: map<nat, Object>, obj: nat, f: nat, data: seq<int>)
    requires WordHolds(s, objects) && InBounds(objects, Put(obj, f, data)) && Word.Wrote(s, s', obj, f, data)
    ensures WordHolds(s', After(objects, Put(obj, f, data)))
  {
    var objects' := After(objects, Put(obj, f, data));
    Word.WroteWords(s, s', obj, f, data, obj, f);
    forall o, x | o in objects' && 0 <= x < |objects'[o].words| ensures Word.WordAt(s', o, x) == objects'[o].words[x] {
      Word.WroteWords(s, s', obj, f, data, o, x);
      assert Word.WordAt(s, o, x) == objects[o].words[x];
    }
    assert !exists k: LongKey :: k.low == INFO && Word.Touches(k, obj, f, |data|);
    forall o: nat ensures LongKey(o, INFO) in s' <==> LongKey(o, INFO) in s {
      assert LongKey(o, INFO).low == INFO;
    }
  }

  lemma WordDelete(s: Store, s': Store, objects: map<nat, Object>, obj: nat)
    requires WordHolds(s, objects) && obj in objects && Deleted(s, s', obj, |objects[obj].words|)
    ensures WordHolds(s', After(objects, Delete(obj)))
  {
    var objects' := After(objects, Delete(obj));
    forall k: LongKey | k in s' ensures s'[k] != [] && k.obj != obj {
      assert k in s && s[k] != [];
    }
    forall o, x | o in objects' && 0 <= x < |objects'[o].words| ensures Word.WordAt(s', o, x) == objects'[o].words[x] {
      assert LongKey(o, x) in s' <==> LongKey(o, x) in s;
      assert Word.WordAt(s, o, x) == objects[o].words[x];
    }
  }

  method WordExecute(c: Word.WordStore, op: Op, ghost objects: map<nat, Object>) returns (r: Result)
    requires WordHolds(c.store, objects) && InBounds(objects, op) && Supported(op)
    modifies c
    ensures WordHolds(c.store, After(objects, op)) && r == Answer(objects, op)
  {
    match op
    case New(obj, flag, size) =>
      var ok := c.NewObj(obj, flag, size);
      assert ok <==> obj !in objects;
      if obj !in objects {
        WordNew(old(c.store), objects, obj, flag, size);
      }
      r := if ok then Success else Failure;
    case Info(obj) =>
      var info := c.GetInfo(obj);
      r := Described(info, objects, obj, c.store);
    case Put(obj, f, data) =>
      var buf := new int[|data|](i requires 0 <= i < |data| => data[i]);
      assert buf[..] == data && buf[..|data|] == data;
      c.PutChunk(obj, f, buf, |data|);
      WordPut(old(c.store), c.store, objects, obj, f, data);
      r := Success;
    case Get(obj, f, len) =>
      var buf := new int[len];
      c.GetChunk(obj, f, len, buf);
      assert buf[..] == objects[obj].words[f..f + len] by {
        forall i | 0 <= i < len ensures Word.Range(c.store, obj, f, len)[i] == objects[obj].words[f..f + len][i] {
          assert Word.WordAt(c.store, obj, f + i) == objects[obj].words[f + i];
        }
      }
      r := Fetched(buf[..]);
    case Delete(obj) =>
      assert objects[obj].flag >= 0;
      c.Del(obj);
      WordDelete(old(c.store), c.store, objects, obj);
      r := Success;
  }

  /** A sequence of operations on the word-keyed backend gives the same answers. */
  method WordRun(c: Word.WordStore, ops: seq<Op>, ghost objects: map<nat, Object>) returns (results: seq<Result>)
    requires WordHolds(c.store, objects) && Legal(objects, ops)
    modifies c
    ensures results == Answers(objects, ops)
    decreases |ops|
  {
    if ops == [] {
      return [];
    }
    var first := WordExecute(c, ops[0], objects);
    var rest := WordRun(c, ops[1..], After(objects, ops[0]));
    results := [first] + rest;
  }

  /** Started empty, the two backends cannot be told apart by operations inside objects. */
  method Indistinguishable(ops: seq<Op>) returns (fromBlocks: seq<Result>, fromWords: seq<Result>)
    requires Legal(map[], ops)
    ensures fromBlocks == fromWords == Answers(map[], ops)
  {
    var blocks := new Chunk.ChunkStore();
    var words := new Word.WordStore();
    fromBlocks := ChunkRun(blocks, ops, map[]);
    fromWords := WordRun(words, ops, map[]);
  }
}
