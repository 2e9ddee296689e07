/**
Map-reduce, on one node: cutting a user's input into batches of at most one buffer, decoding a batch,
and handing what DoMap emitted to DoReduce.
*/
module MapReduceBatches {
  import opened Serializer

  /** BD_DATA_PROCESS_SIZE / sizeof(uint32_t) */
  const BUFLEN: nat := 4096

  type Pair = (Value, Value)

  function PairSize(x: Pair): (n: nat)
    ensures n >= 2
  {
    Size(x.0) + Size(x.1)
  }

  /** The words pairs s up to t take. */
  function Span(pairs: seq<Pair>, s: nat, t: nat): nat
    requires s <= t <= |pairs|
  {
    if s == t then 0 else Span(pairs, s, t - 1) + PairSize(pairs[t - 1])
  }

  predicate PairAt(b: seq<nat>, p: nat, x: Pair) {
    Encodes(b, p, x.0) && Encodes(b, p + Size(x.0), x.1)
  }

  /** The buffer holds pairs s up to t one after the other; the ones before u may be spoiled. */
  predicate Batched(b: seq<nat>, pairs: seq<Pair>, s: nat, u: nat, t: nat)
    requires s <= u <= t <= |pairs|
  {
    forall j {:trigger InPlace(b, pairs, s, j)} :: u <= j < t ==> InPlace(b, pairs, s, j)
  }

  predicate InPlace(b: seq<nat>, pairs: seq<Pair>, s: nat, j: nat)
    requires s <= j < |pairs|
  {
    PairAt(b, Span(pairs, s, j), pairs[j])
  }

  predicate ProperPair(x: Pair) {
    Proper(x.0) && Proper(x.1)
  }

  predicate TypedPair(x: Pair, key: Type, value: Type) {
    HasType(x.0, key) && HasType(x.1, value) && NulFree(x.0) && NulFree(x.1)
  }

  lemma {:induction false} WordsGrow(pairs: seq<Pair>, s: nat, j: nat, t: nat)
    requires s <= j < t <= |pairs|
    ensures Span(pairs, s, j) + PairSize(pairs[j]) <= Span(pairs, s, t)
    decreases t
  {
    if j < t - 1 {
      WordsGrow(pairs, s, j, t - 1);
    }
  }

  lemma PairApart(b: seq<nat>, b': seq<nat>, p: nat, n: nat, q: nat, x: Pair)
    requires PairAt(b, q, x) && Within(b, b', p, n) && (q + PairSize(x) <= p || p + n <= q)
    ensures PairAt(b', q, x)
  {
    EncodesApart(b, b', p, n, q, x.0, Size(x.0));
    EncodesApart(b, b', p, n, q + Size(x.0), x.1, Size(x.1));
  }

  /** Writing pair t after the others, or reading pair u before the rest, leaves the others in place. */
  lemma BatchedApart(b: seq<nat>, b': seq<nat>, pairs: seq<Pair>, s: nat, u: nat, t: nat, k: nat)
    requires s <= u <= t <= |pairs| && s <= k < |pairs| && (k >= t || k < u) && Batched(b, pairs, s, u, t)
    requires Within(b, b', Span(pairs, s, k), PairSize(pairs[k]))
    ensures Batched(b', pairs, s, u, t)
  {
    forall j | u <= j < t ensures InPlace(b', pairs, s, j) {
      assert InPlace(b, pairs, s, j);
      if j < k {
        WordsGrow(pairs, s, j, k);
      } else {
        WordsGrow(pairs, s, k, j);
      }
      PairApart(b, b', Span(pairs, s, k), PairSize(pairs[k]), Span(pairs, s, j), pairs[j]);
    }
  }

  method SerializePair(x: Pair, buf: array<nat>, p: nat) returns (n: nat)
    requires ProperPair(x) && 4 * (p + PairSize(x)) <= buf.Length
    modifies buf
    ensures n == PairSize(x) && PairAt(buf[..], p, x) && Within(old(buf[..]), buf[..], p, n)
  {
    var n0 := Serialize(x.0, buf, p);
    ghost var b := buf[..];
    var n1 := Serialize(x.1, buf, p + n0);
    EncodesApart(b, buf[..], p + n0, n1, p, x.0, n0);
    WithinBoth(old(buf[..]), b, buf[..], p, n0 + n1, p + n0, n1);
    n := n0 + n1;
  }

  predicate AllProper(pairs: seq<Pair>) {
    forall j {:trigger ProperPair(pairs[j])} :: 0 <= j < |pairs| ==> ProperPair(pairs[j])
  }

  /** The first idx words of the buffer are the batch of pairs s up to t. */
  predicate Prepared(b: seq<nat>, pairs: seq<Pair>, s: nat, t: nat, idx: nat) {
    s <= t <= |pairs| && idx == Span(pairs, s, t) <= BUFLEN && Batched(b, pairs, s, s, t)
  }

  /** Puts pair t behind the pairs s up to t. */
  method AppendPair(pairs: seq<Pair>, ghost s: nat, t: nat, buf: array<nat>, idx: nat)
    requires s <= t < |pairs| && ProperPair(pairs[t]) && idx + PairSize(pairs[t]) <= BUFLEN && buf.Length == 4 * BUFLEN
    requires Prepared(buf[..], pairs, s, t, idx)
    modifies buf
    ensures Prepared(buf[..], pairs, s, t + 1, idx + PairSize(pairs[t]))
  {
    ghost var b := buf[..];
    var n := SerializePair(pairs[t], buf, idx);
    BatchedApart(b, buf[..], pairs, s, s, t, t);
    OneMorePair(buf[..], pairs, s, t);
  }

  lemma OneMorePair(b: seq<nat>, pairs: seq<Pair>, s: nat, t: nat)
    requires s <= t < |pairs| && Batched(b, pairs, s, s, t) && PairAt(b, Span(pairs, s, t), pairs[t])
    ensures Batched(b, pairs, s, s, t + 1) && Span(pairs, s, t + 1) == Span(pairs, s, t) + PairSize(pairs[t])
  {
    forall j | s <= j < t + 1 ensures InPlace(b, pairs, s, j) {
    }
  }

  /** One Map call's input and how much of it has been put into batches. */
  class MapInput {
    const pairs: seq<Pair>
    const nodes: nat
    var itr: nat

    constructor (input: seq<Pair>, n: nat)
      requires n > 0
      ensures pairs == input && nodes == n && itr == 0
    {
      pairs := input;
      nodes := n;
      itr := 0;
    }

    predicate HasMore()
      reads this
    {
      itr < |pairs|
    }

    /** PrepareBuf: as many pairs as fit and as one batch may have. It makes progress exactly if the next pair fits at all. */
    method PrepareBuf(buf: array<nat>) returns (idx: nat)
      requires buf.Length == 4 * BUFLEN && nodes > 0 && itr <= |pairs| && AllProper(pairs)
      modifies this`itr, buf
      ensures old(itr) <= itr <= |pairs| && Prepared(buf[..], pairs, old(itr), itr, idx)
      ensures itr - old(itr) <= |pairs| / nodes + 1
      ensures old(HasMore()) ==> (itr > old(itr) <==> PairSize(pairs[old(itr)]) <= BUFLEN)
    {
      ghost var s := itr;
      var elements, limit := 0, |pairs| / nodes + 1;
      idx := 0;
      while idx < BUFLEN && itr < |pairs|
        invariant s <= itr <= |pairs| && Prepared(buf[..], pairs, s, itr, idx)
        invariant elements == itr - s < limit
        invariant itr == s ==> idx == 0
        invariant itr > s ==> PairSize(pairs[s]) <= BUFLEN
        decreases |pairs| - itr
      {
        assert ProperPair(pairs[itr]);
        var size := Size(pairs[itr].0) + Size(pairs[itr].1);
        if idx + size > BUFLEN {
          break;
        }
        AppendPair(pairs, s, itr, buf, idx);
        idx := idx + size;
        itr := itr + 1;
        elements := elements + 1;
        if elements >= limit {
          break;
        }
      }
    }
  }

  // ---- the send loop ----

  /** Pairs `from` up to `upto` went to `node` in one message. */
  datatype Batch = Batch(node: nat, from: nat, upto: nat)

  /** The batches follow each other from the first pair up to pair `upto`. */
  predicate Tiles(log: seq<Batch>, upto: nat)
    decreases |log|
  {
    if log == [] then upto == 0
    else
      var last := log[|log| - 1];
      last.upto == upto && last.from <= last.upto && Tiles(log[..|log| - 1], last.from)
  }

  function Content(pairs: seq<Pair>, log: seq<Batch>): seq<Pair>
    decreases |log|
  {
    if log == [] then []
    else
      var last := log[|log| - 1];
      Content(pairs, log[..|log| - 1]) + if last.from <= last.upto <= |pairs| then pairs[last.from..last.upto] else []
  }

  /** Together the batches are the input, every pair once and in order. */
  lemma {:induction false} BatchesAreInput(pairs: seq<Pair>, log: seq<Batch>, upto: nat)
    requires Tiles(log, upto) && upto <= |pairs|
    ensures Content(pairs, log) == pairs[..upto]
    decreases |log|
  {
    if log != [] {
      var last := log[|log| - 1];
      BatchesAreInput(pairs, log[..|log| - 1], last.from);
      assert pairs[..last.from] + pairs[last.from..last.upto] == pairs[..last.upto];
    }
  }

  /** select: blocks until some connection to another node can take a message, and says which can. */
  method Select(nodes: nat, self: nat) returns (writable: set<nat>)
    requires nodes >= 2 && self < nodes
    ensures writable != {} && forall i :: i in writable ==> i < nodes && i != self
  {
    writable := {if self == 0 then 1 else 0};
    assert (if self == 0 then 1 else 0) in writable;
  }

  /** One message: the next batch goes to node i. */
  method SendBatch(input: MapInput, buf: array<nat>, i: nat, log0: seq<Batch>) returns (log: seq<Batch>)
    requires buf.Length == 4 * BUFLEN && input.nodes > 0 && input.itr <= |input.pairs| && AllProper(input.pairs) && AllFit(input.pairs)
    requires i < input.nodes && Tiles(log0, input.itr)
    modifies input`itr, buf
    ensures old(input.itr) <= input.itr <= |input.pairs| && Tiles(log, input.itr)
    ensures old(input.itr) < |input.pairs| ==> old(input.itr) < input.itr
    ensures log == log0 + [Batch(i, old(input.itr), input.itr)]
  {
    var from := input.itr;
    assert from < |input.pairs| ==> PairFits(input.pairs[from]);
    var words := input.PrepareBuf(buf);
    log := log0 + [Batch(i, from, input.itr)];
    assert log[..|log| - 1] == log0;
  }

  predicate PairFits(x: Pair) {
    PairSize(x) <= BUFLEN
  }

  predicate AllFit(pairs: seq<Pair>) {
    forall j {:trigger PairFits(pairs[j])} :: 0 <= j < |pairs| ==> PairFits(pairs[j])
  }

  predicate ToNodes(log: seq<Batch>, nodes: nat) {
    forall n :: 0 <= n < |log| ==> log[n].node < nodes
  }

  /** _Map's loop: batches go to the sender itself when it is its turn, else to whoever can take one. */
  method MapLoop(input: MapInput, buf: array<nat>, self: nat) returns (log: seq<Batch>)
    requires buf.Length == 4 * BUFLEN && self < input.nodes && input.itr == 0 && AllProper(input.pairs) && AllFit(input.pairs)
    modifies input`itr, buf
    ensures Tiles(log, |input.pairs|) && ToNodes(log, input.nodes) && input.itr == |input.pairs|
    ensures Content(input.pairs, log) == input.pairs
  {
    var turns := 0;
    log := [];
    while input.HasMore()
      invariant input.itr <= |input.pairs| && Tiles(log, input.itr) && ToNodes(log, input.nodes)
      decreases |input.pairs| - input.itr
    {
      if turns % input.nodes == self {
        log := SendBatch(input, buf, self, log);
        turns := turns + 1;
        continue;
      }
      NotAlone(turns, input.nodes, self);
      var writable := Select(input.nodes, self);
      ghost var start := input.itr;
      for i := 0 to input.nodes
        invariant start <= input.itr <= |input.pairs| && Tiles(log, input.itr) && ToNodes(log, input.nodes)
        invariant (exists j :: j in writable && j < i) ==> start < input.itr
      {
        if i != self && i in writable {
          turns := turns + 1;
          log := SendBatch(input, buf, i, log);
        }
      }
      assert exists j :: j in writable && j < input.nodes;
    }
    BatchesAreInput(input.pairs, log, |input.pairs|);
    assert input.pairs[..|input.pairs|] == input.pairs;
  }

  lemma NotAlone(turns: nat, nodes: nat, self: nat)
    requires self < nodes && turns % nodes != self
    ensures nodes >= 2
  {
  }

  // ---- the receiving node ----

  /** DoMap: what a pair emits into the local map, in order. */
  type MapFunc = (Value, Value) -> seq<Pair>

  function Emitted(f: MapFunc, pairs: seq<Pair>): seq<Pair> {
    if pairs == [] then [] else Emitted(f, pairs[..|pairs| - 1]) + f(pairs[|pairs| - 1].0, pairs[|pairs| - 1].1)
  }

  lemma {:induction false} EmittedAppend(f: MapFunc, first: seq<Pair>, second: seq<Pair>)
    ensures Emitted(f, first + second) == Emitted(f, first) + Emitted(f, second)
    decreases |second|
  {
    if second == [] {
      assert first + second == first;
    } else {
      assert (first + second)[..|first + second| - 1] == first + second[..|second| - 1];
      EmittedAppend(f, first, second[..|second| - 1]);
    }
  }

  /** The local map holds exactly these key/value pairs, each as often as it was emitted. */
  ghost predicate Collects(outmap: map<Value, seq<Value>>, pairs: multiset<Pair>) {
    forall k, v {:trigger pairs[(k, v)]} :: pairs[(k, v)] == if k in outmap then multiset(outmap[k])[v] else 0
  }

  /** One call of DoReduce per key. */
  datatype ReduceCall = ReduceCall(key: Value, values: seq<Value>)

  function PairsOf(c: ReduceCall): multiset<Pair>
    decreases |c.values|
  {
    if c.values == [] then multiset{}
    else PairsOf(ReduceCall(c.key, c.values[..|c.values| - 1])) + multiset{(c.key, c.values[|c.values| - 1])}
  }

  function Reduced(calls: seq<ReduceCall>): multiset<Pair> {
    if calls == [] then multiset{} else Reduced(calls[..|calls| - 1]) + PairsOf(calls[|calls| - 1])
  }

  lemma {:induction false} PairsOfCount(c: ReduceCall, k: Value, v: Value)
    ensures PairsOf(c)[(k, v)] == if k == c.key then multiset(c.values)[v] else 0
    decreases |c.values|
  {
    if c.values != [] {
      var m := |c.values| - 1;
      PairsOfCount(ReduceCall(c.key, c.values[..m]), k, v);
      assert c.values == c.values[..m] + [c.values[m]];
    }
  }

  class ReduceNode {
    var outmap: map<Value, seq<Value>>
    ghost var collected: multiset<Pair>

    ghost predicate Valid()
      reads this
    {
      Collects(outmap, collected)
    }

    constructor ()
      ensures Valid() && collected == multiset{}
    {
      outmap := map[];
      collected := multiset{};
    }

    /** Appends one emitted value to its key's list. */
    method Emit(x: Pair)
      requires Valid()
      modifies this
      ensures Valid() && collected == old(collected) + multiset{x}
    {
      var values := if x.0 in outmap then outmap[x.0] else [];
      outmap := outmap[x.0 := values + [x.1]];
      collected := collected + multiset{x};
      assert multiset(values + [x.1]) == multiset(values) + multiset{x.1};
    }

    method DoMap(f: MapFunc, key: Value, value: Value)
      requires Valid()
      modifies this
      ensures Valid() && collected == old(collected) + multiset(f(key, value))
    {
      var out := f(key, value);
      for i := 0 to |out|
        invariant Valid() && collected == old(collected) + multiset(out[..i])
      {
        assert out[..i + 1] == out[..i] + [out[i]];
        Emit(out[i]);
      }
      assert out[..|out|] == out;
    }

    /** BaseDoReduce: DoReduce for every key, then the map is cleared. What DoReduce gets is what was collected. */
    method BaseDoReduce() returns (calls: seq<ReduceCall>)
      requires Valid()
      modifies this
      ensures Valid() && collected == multiset{} && outmap == map[]
      ensures Reduced(calls) == old(collected)
      ensures forall m, n :: 0 <= m < n < |calls| ==> calls[m].key != calls[n].key
    {
      calls := [];
      var left := outmap.Keys;
      while left != {}
        invariant left <= outmap.Keys && outmap == old(outmap)
        invariant forall n :: 0 <= n < |calls| ==> calls[n].key in outmap && calls[n].key !in left
        invariant forall m, n :: 0 <= m < n < |calls| ==> calls[m].key != calls[n].key
        invariant forall k, v {:trigger Reduced(calls)[(k, v)]} ::
          Reduced(calls)[(k, v)] == if k in outmap && k !in left then multiset(outmap[k])[v] else 0
        decreases |left|
      {
        var k :| k in left;
        var c := ReduceCall(k, outmap[k]);
        forall k', v ensures PairsOf(c)[(k', v)] == if k' == k then multiset(outmap[k])[v] else 0 {
          PairsOfCount(c, k', v);
        }
        assert (calls + [c])[..|calls|] == calls;
        calls := calls + [c];
        left := left - {k};
      }
      forall x: Pair ensures Reduced(calls)[x] == collected[x] {
        assert x == (x.0, x.1);
      }
      assert Reduced(calls) == collected;
      outmap := map[];
      collected := multiset{};
    }
  }

  /** DecodeKeyValue: one pair from position p. */
  method DecodePair(key: Type, value: Type, buf: array<nat>, p: nat, ghost x: Pair) returns (k: Value, v: Value, n: nat)
    requires TypedPair(x, key, value) && PairAt(buf[..], p, x)
    modifies buf
    ensures k == x.0 && v == x.1 && n == PairSize(x) && Within(old(buf[..]), buf[..], p, n)
  {
    ghost var b := buf[..];
    var n0, n1, ok;
    k, n0, ok := Deserialize(key, buf, p, x.0);
    ghost var b1 := buf[..];
    EncodesApart(b, b1, p, Size(x.0), p + n0, x.1, Size(x.1));
    v, n1, ok := Deserialize(value, buf, p + n0, x.1);
    WithinBoth(b, b, b1, p, n0 + n1, p, n0);
    WithinBoth(b, b1, buf[..], p, n0 + n1, p + n0, n1);
    n := n0 + n1;
  }

  predicate AllTyped(pairs: seq<Pair>, key: Type, value: Type) {
    forall j {:trigger TypedPair(pairs[j], key, value)} :: 0 <= j < |pairs| ==> TypedPair(pairs[j], key, value)
  }

  /** The node collected what pairs s up to j emit, on top of what it had. */
  predicate Mapped(collected: multiset<Pair>, before: multiset<Pair>, f: MapFunc, pairs: seq<Pair>, s: nat, j: nat)
    requires s <= j <= |pairs|
  {
    collected == before + multiset(Emitted(f, pairs[s..j]))
  }

  /** Pairs s up to j are decoded; the next one lies at word i. */
  predicate DecodedTo(b: seq<nat>, pairs: seq<Pair>, s: nat, j: nat, t: nat, i: nat) {
    s <= j <= t <= |pairs| && i == Span(pairs, s, j) && Batched(b, pairs, s, j, t)
  }

  lemma MappedNext(before: multiset<Pair>, c: multiset<Pair>, c': multiset<Pair>, f: MapFunc, pairs: seq<Pair>, s: nat, j: nat)
    requires s <= j < |pairs| && Mapped(c, before, f, pairs, s, j) && c' == c + multiset(f(pairs[j].0, pairs[j].1))
    ensures Mapped(c', before, f, pairs, s, j + 1)
  {
    EmittedNext(f, pairs, s, j);
  }

  /** Decodes and maps pair j of the batch, which lies at word i. */
  method MapNext(node: ReduceNode, f: MapFunc, key: Type, value: Type, buf: array<nat>, i: nat,
      ghost before: multiset<Pair>, ghost pairs: seq<Pair>, ghost s: nat, ghost j: nat, ghost t: nat)
    returns (n: nat)
    requires node.Valid() && DecodedTo(buf[..], pairs, s, j, t, i) && j < t && TypedPair(pairs[j], key, value)
    requires Mapped(node.collected, before, f, pairs, s, j)
    modifies node, buf
    ensures DecodedTo(buf[..], pairs, s, j + 1, t, i + n)
    ensures node.Valid() && Mapped(node.collected, before, f, pairs, s, j + 1)
  {
    assert InPlace(buf[..], pairs, s, j);
    ghost var b := buf[..];
    var k, v;
    k, v, n := DecodePair(key, value, buf, i, pairs[j]);
    BatchedApart(b, buf[..], pairs, s, j + 1, t, j);
    ghost var c := node.collected;
    node.DoMap(f, k, v);
    MappedNext(before, c, node.collected, f, pairs, s, j);
  }

  lemma MoreWords(pairs: seq<Pair>, s: nat, j: nat, t: nat)
    requires s <= j <= t <= |pairs|
    ensures Span(pairs, s, j) <= Span(pairs, s, t) && (j < t <==> Span(pairs, s, j) < Span(pairs, s, t))
  {
    if j < t {
      WordsGrow(pairs, s, j, t);
    }
  }

  /** BaseDoAccumulateDense: decodes the batch of pairs s up to t and maps each pair once, in order. */
  method MapBatch(node: ReduceNode, f: MapFunc, key: Type, value: Type, buf: array<nat>, words: nat, ghost pairs: seq<Pair>, ghost s: nat, ghost t: nat)
    requires node.Valid() && Prepared(buf[..], pairs, s, t, words) && AllTyped(pairs, key, value)
    modifies node, buf
    ensures node.Valid() && node.collected == old(node.collected) + multiset(Emitted(f, pairs[s..t]))
  {
    var i := 0;
    ghost var j: nat := s;
    ghost var before := node.collected;
    MoreWords(pairs, s, j, t);
    while i < words
      invariant DecodedTo(buf[..], pairs, s, j, t, i) && (j < t <==> i < words)
      invariant node.Valid() && Mapped(node.collected, before, f, pairs, s, j)
      decreases words - i
    {
      assert TypedPair(pairs[j], key, value);
      var n := MapNext(node, f, key, value, buf, i, before, pairs, s, j, t);
      MoreWords(pairs, s, j, j + 1);
      i := i + n;
      j := j + 1;
      MoreWords(pairs, s, j, t);
    }
    assert Mapped(node.collected, before, f, pairs, s, t);
  }

  lemma EmittedNext(f: MapFunc, pairs: seq<Pair>, s: nat, j: nat)
    requires s <= j < |pairs|
    ensures Emitted(f, pairs[s..j + 1]) == Emitted(f, pairs[s..j]) + f(pairs[j].0, pairs[j].1)
  {
    assert pairs[s..j + 1][..j - s] == pairs[s..j];
  }
}
