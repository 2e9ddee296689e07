/**
The serializers map-reduce uses for its input: integers, strings and vectors of either, nested at will,
laid out in a buffer of 32-bit words.

The buffer is modelled as bytes, because strings are copied, and terminated, byte by byte.
*/
module Serializer {
  import opened Words

  datatype Type = TInt | TString | TVector(element: Type)

  /** An int is given by its 32-bit pattern, a string by its bytes. */
  datatype Value = Int(w: nat) | String(chars: seq<nat>) | Vector(items: seq<Value>)

  predicate HasType(v: Value, t: Type)
    decreases v
  {
    match v
    case Int(_) => t == TInt
    case String(_) => t == TString
    case Vector(items) => t.TVector? && forall k :: 0 <= k < |items| ==> HasType(items[k], t.element)
  }

  /** The value fits its C++ type. */
  predicate Proper(v: Value)
    decreases v
  {
    match v
    case Int(w) => w < U32
    case String(chars) => |chars| + 1 < U32 && forall k :: 0 <= k < |chars| ==> chars[k] < 256
    case Vector(items) => |items| < U32 && forall k :: 0 <= k < |items| ==> Proper(items[k])
  }

  predicate NulFree(v: Value)
    decreases v
  {
    match v
    case Int(_) => true
    case String(chars) => 0 !in chars
    case Vector(items) => forall k :: 0 <= k < |items| ==> NulFree(items[k])
  }

  /** cell_divide: words needed for so many bytes. */
  function CellDivide(bytes: nat): nat {
    CeilDiv(bytes, 4)
  }

  /** GetSize, in words. */
  function Size(v: Value): (n: nat)
    ensures n >= 1
    decreases v, if v.Vector? then |v.items| + 1 else 0
  {
    match v
    case Int(_) => CellDivide(4)
    case String(chars) => CellDivide(|chars| + 1) + 1
    case Vector(items) => Before(v, |items|) + 1
  }

  /** The words the first k items of a vector take. */
  function Before(v: Value, k: nat): nat
    requires v.Vector? && k <= |v.items|
    decreases v, k
  {
    if k == 0 then 0 else Before(v, k - 1) + Size(v.items[k - 1])
  }

  // ---- words in bytes ----

  /** The word at word position p, little-endian. */
  function WordAt(b: seq<nat>, p: nat): nat
    requires 4 * p + 4 <= |b|
  {
    b[4 * p] + 0x100 * b[4 * p + 1] + 0x1_0000 * b[4 * p + 2] + 0x100_0000 * b[4 * p + 3]
  }

  /** The bytes at p encode v. */
  predicate Encodes(b: seq<nat>, p: nat, v: Value)
    decreases v, 1
  {
    && 4 * (p + Size(v)) <= |b|
    && match v
       case Int(w) => WordAt(b, p) == w
       case String(chars) => WordAt(b, p) == |chars| && StringAt(b, p, chars)
       case Vector(items) =>
         WordAt(b, p) == |items| && forall k {:trigger ItemAt(b, p, v, k)} :: 0 <= k < |items| ==> ItemAt(b, p, v, k)
  }

  /** Item k of the vector v at p is where it belongs. */
  predicate ItemAt(b: seq<nat>, p: nat, v: Value, k: nat)
    requires v.Vector? && k < |v.items|
    decreases v, 0
  {
    Encodes(b, p + 1 + Before(v, k), v.items[k])
  }

  predicate StringAt(b: seq<nat>, p: nat, chars: seq<nat>) {
    4 * p + 4 + |chars| <= |b| && b[4 * p + 4..4 * p + 4 + |chars|] == chars
  }

  /** Two buffers agree on the n words from p on. */
  predicate Agree(b: seq<nat>, b': seq<nat>, p: nat, n: nat) {
    |b| == |b'| && 4 * (p + n) <= |b| && forall i {:trigger b[i]} {:trigger b'[i]} :: 4 * p <= i < 4 * (p + n) ==> b'[i] == b[i]
  }

  lemma {:induction false} BeforeGrows(v: Value, j: nat, k: nat)
    requires v.Vector? && j < k <= |v.items|
    ensures Before(v, j) + Size(v.items[j]) <= Before(v, k)
    decreases k
  {
    if j < k - 1 {
      BeforeGrows(v, j, k - 1);
    }
  }

  lemma AgreeWord(b: seq<nat>, b': seq<nat>, p: nat, n: nat, q: nat)
    requires Agree(b, b', p, n) && p <= q < p + n
    ensures WordAt(b', q) == WordAt(b, q)
  {
  }

  lemma StringLocal(b: seq<nat>, b': seq<nat>, p: nat, chars: seq<nat>)
    requires StringAt(b, p, chars) && Agree(b, b', p, Size(String(chars)))
    ensures StringAt(b', p, chars)
  {
    CeilDivBounds(|chars| + 1, 4);
  }

  /** An encoding is a matter of its own words only. */
  lemma {:induction false} EncodesLocal(b: seq<nat>, b': seq<nat>, p: nat, v: Value)
    requires Encodes(b, p, v) && Agree(b, b', p, Size(v))
    ensures Encodes(b', p, v)
    decreases v
  {
    AgreeWord(b, b', p, Size(v), p);
    match v
    case Int(_) =>
    case String(chars) => StringLocal(b, b', p, chars);
    case Vector(items) =>
      forall k | 0 <= k < |items| ensures ItemAt(b', p, v, k) {
        assert ItemAt(b, p, v, k);
        ItemAgrees(b, b', p, v, k);
        EncodesLocal(b, b', p + 1 + Before(v, k), items[k]);
      }
  }

  lemma ItemAgrees(b: seq<nat>, b': seq<nat>, p: nat, v: Value, k: nat)
    requires v.Vector? && k < |v.items| && Agree(b, b', p, Size(v))
    ensures Agree(b, b', p + 1 + Before(v, k), Size(v.items[k]))
  {
    BeforeGrows(v, k, |v.items|);
  }

  // ---- serialising ----

  /** Only the n words from p on differ. */
  predicate Within(b: seq<nat>, b': seq<nat>, p: nat, n: nat) {
    |b'| == |b| && forall i {:trigger b'[i]} :: 0 <= i < |b| && !(4 * p <= i < 4 * (p + n)) ==> b'[i] == b[i]
  }

  method PutWord(buf: array<nat>, p: nat, w: nat)
    requires w < U32 && 4 * p + 4 <= buf.Length
    modifies buf
    ensures WordAt(buf[..], p) == w && Within(old(buf[..]), buf[..], p, 1)
  {
    var w1 := w / 0x100;
    var w2 := w1 / 0x100;
    var w3 := w2 / 0x100;
    buf[4 * p], buf[4 * p + 1], buf[4 * p + 2], buf[4 * p + 3] := w % 0x100, w1 % 0x100, w2 % 0x100, w3;
  }

  method GetWord(buf: array<nat>, p: nat) returns (w: nat)
    requires 4 * p + 4 <= buf.Length
    ensures w == WordAt(buf[..], p)
  {
    w := buf[4 * p] + 0x100 * buf[4 * p + 1] + 0x1_0000 * buf[4 * p + 2] + 0x100_0000 * buf[4 * p + 3];
  }

  method SerializeString(chars: seq<nat>, buf: array<nat>, p: nat)
    requires Proper(String(chars)) && 4 * (p + Size(String(chars))) <= buf.Length
    modifies buf
    ensures Encodes(buf[..], p, String(chars)) && Within(old(buf[..]), buf[..], p, Size(String(chars)))
  {
    CeilDivBounds(|chars| + 1, 4);
    PutWord(buf, p, |chars|);
    ghost var b := buf[..];
    for j := 0 to |chars|
      invariant forall i {:trigger buf[i]} :: 0 <= i < buf.Length ==>
        buf[i] == if 4 * p + 4 <= i < 4 * p + 4 + j then chars[i - (4 * p + 4)] else b[i]
    {
      buf[4 * p + 4 + j] := chars[j];
    }
    AgreeWord(b, buf[..], p, 1, p);
  }

  /** Changing words elsewhere leaves an encoding in place. */
  lemma EncodesApart(b: seq<nat>, b': seq<nat>, p: nat, n: nat, q: nat, x: Value, m: nat)
    requires m == Size(x) && Encodes(b, q, x) && Within(b, b', p, n) && (q + m <= p || p + n <= q)
    ensures Encodes(b', q, x)
  {
    assert Agree(b, b', q, m);
    EncodesLocal(b, b', q, x);
  }

  lemma ItemsApart(v: Value, j: nat, k: nat)
    requires v.Vector? && j < |v.items| && k < |v.items| && j != k
    ensures Before(v, j) + Size(v.items[j]) <= Before(v, k) || Before(v, k) + Size(v.items[k]) <= Before(v, j)
  {
    if j < k {
      BeforeGrows(v, j, k);
    } else {
      BeforeGrows(v, k, j);
    }
  }

  /** Items already written stay while item k is. */
  lemma ItemStays(b: seq<nat>, b': seq<nat>, p: nat, v: Value, j: nat, k: nat, at: nat, n: nat)
    requires v.Vector? && j < |v.items| && k < |v.items| && j != k && ItemAt(b, p, v, j)
    requires at == p + 1 + Before(v, k) && n == Size(v.items[k]) && Within(b, b', at, n)
    ensures ItemAt(b', p, v, j)
  {
    ItemsApart(v, j, k);
    EncodesApart(b, b', at, n, p + 1 + Before(v, j), v.items[j], Size(v.items[j]));
  }

  method Serialize(v: Value, buf: array<nat>, p: nat) returns (n: nat)
    requires Proper(v) && 4 * (p + Size(v)) <= buf.Length
    modifies buf
    ensures n == Size(v) && Encodes(buf[..], p, v) && Within(old(buf[..]), buf[..], p, n)
    decreases v, 1
  {
    n := Size(v);
    match v
    case Int(w) => PutWord(buf, p, w);
    case String(chars) => SerializeString(chars, buf, p);
    case Vector(_) => SerializeItems(v, buf, p);
  }

  /** The first k items of the vector v at p, and its length, are in place. */
  predicate Partly(b: seq<nat>, p: nat, v: Value, k: nat)
    requires v.Vector? && k <= |v.items|
  {
    && 4 * p + 4 <= |b| && WordAt(b, p) == |v.items|
    && forall j {:trigger ItemAt(b, p, v, j)} :: 0 <= j < k ==> ItemAt(b, p, v, j)
  }

  lemma WordStays(b: seq<nat>, b': seq<nat>, p: nat, at: nat, n: nat)
    requires 4 * p + 4 <= |b| && p < at && Within(b, b', at, n)
    ensures |b'| == |b| && WordAt(b', p) == WordAt(b, p)
  {
  }

  lemma ItemsStay(b: seq<nat>, b': seq<nat>, p: nat, v: Value, k: nat, at: nat, n: nat)
    requires v.Vector? && k < |v.items|
    requires forall j {:trigger ItemAt(b, p, v, j)} :: 0 <= j < k ==> ItemAt(b, p, v, j)
    requires at == p + 1 + Before(v, k) && n == Size(v.items[k]) && Within(b, b', at, n)
    ensures forall j {:trigger ItemAt(b', p, v, j)} :: 0 <= j < k ==> ItemAt(b', p, v, j)
  {
    forall j | 0 <= j < k ensures ItemAt(b', p, v, j) {
      ItemStays(b, b', p, v, j, k, at, n);
    }
  }

  lemma OneMoreItem(b: seq<nat>, b': seq<nat>, p: nat, v: Value, k: nat, at: nat, n: nat)
    requires v.Vector? && k < |v.items| && Partly(b, p, v, k)
    requires at == p + 1 + Before(v, k) && n == Size(v.items[k]) && Within(b, b', at, n) && ItemAt(b', p, v, k)
    ensures Partly(b', p, v, k + 1)
  {
    WordStays(b, b', p, at, n);
    ItemsStay(b, b', p, v, k, at, n);
  }

  lemma WithinBoth(b0: seq<nat>, b: seq<nat>, b': seq<nat>, p: nat, n: nat, q: nat, m: nat)
    requires Within(b0, b, p, n) && Within(b, b', q, m) && p <= q && q + m <= p + n
    ensures Within(b0, b', p, n)
  {
  }

  method SerializeItems(v: Value, buf: array<nat>, p: nat)
    requires v.Vector? && Proper(v) && 4 * (p + Size(v)) <= buf.Length
    modifies buf
    ensures Encodes(buf[..], p, v) && Within(old(buf[..]), buf[..], p, Size(v))
    decreases v, 0
  {
    PutWord(buf, p, |v.items|);
    var cur := p + 1;
    for k := 0 to |v.items|
      invariant cur == p + 1 + Before(v, k)
      invariant Partly(buf[..], p, v, k) && Within(old(buf[..]), buf[..], p, Size(v))
    {
      ghost var b := buf[..];
      BeforeGrows(v, k, |v.items|);
      var n := Serialize(v.items[k], buf, cur);
      OneMoreItem(b, buf[..], p, v, k, cur, n);
      WithinBoth(old(buf[..]), b, buf[..], p, Size(v), cur, n);
      cur := cur + n;
    }
  }

  // ---- deserialising ----

  /** Terminates the string in the buffer and reads up to the first NUL; `ok` is the assertion that follows. */
  method DeserializeString(buf: array<nat>, p: nat, ghost chars: seq<nat>) returns (out: seq<nat>, n: nat, ok: bool)
    requires Encodes(buf[..], p, String(chars))
    modifies buf
    ensures (ok <==> 0 !in chars) && (ok ==> out == chars) && n == Size(String(chars))
    ensures Within(old(buf[..]), buf[..], p, Size(String(chars)))
  {
    CeilDivBounds(|chars| + 1, 4);
    var sz := GetWord(buf, p);
    var start := 4 * p + 4;
    assert forall i :: 0 <= i < sz ==> buf[start + i] == buf[..][start..start + sz][i] == chars[i];
    buf[start + sz] := 0;
    assert forall i :: 0 <= i < sz ==> buf[start + i] == chars[i];
    var j := 0;
    while buf[start + j] != 0
      invariant 0 <= j <= sz && 0 !in chars[..j]
      decreases sz - j
    {
      assert chars[..j + 1] == chars[..j] + [chars[j]];
      j := j + 1;
    }
    out := buf[start..start + j];
    ok := j == sz;
    n := CellDivide(sz + 1) + 1;
    assert out == chars[..j];
    if ok {
      assert chars[..j] == chars;
    } else {
      assert chars[j] == 0;
    }
  }

  /** The items from k on are still to be read. */
  predicate Remaining(b: seq<nat>, p: nat, v: Value, k: nat)
    requires v.Vector? && k <= |v.items|
  {
    && 4 * (p + Size(v)) <= |b|
    && forall j {:trigger ItemAt(b, p, v, j)} :: k <= j < |v.items| ==> ItemAt(b, p, v, j)
  }

  lemma OneItemLess(b: seq<nat>, b': seq<nat>, p: nat, v: Value, k: nat, at: nat, n: nat)
    requires v.Vector? && k < |v.items| && Remaining(b, p, v, k)
    requires at == p + 1 + Before(v, k) && n == Size(v.items[k]) && Within(b, b', at, n)
    ensures Remaining(b', p, v, k + 1)
  {
    forall j | k + 1 <= j < |v.items| ensures ItemAt(b', p, v, j) {
      ItemStays(b, b', p, v, j, k, at, n);
    }
  }

  /** The first k items have no NUL. */
  predicate CleanUpto(v: Value, k: nat)
    requires v.Vector? && k <= |v.items|
  {
    forall j {:trigger v.items[j]} :: 0 <= j < k ==> NulFree(v.items[j])
  }

  /** Item k of the vector at p, which lies at word `at`. */
  method DeserializeNext(element: Type, buf: array<nat>, p: nat, at: nat, ghost v: Value, ghost k: nat) returns (item: Value, n: nat, ok: bool)
    requires v.Vector? && k < |v.items| && HasType(v.items[k], element) && at == p + 1 + Before(v, k)
    requires Remaining(buf[..], p, v, k)
    modifies buf
    ensures (ok <==> NulFree(v.items[k])) && (ok ==> item == v.items[k] && n == Size(item))
    ensures Remaining(buf[..], p, v, k + 1) && Within(old(buf[..]), buf[..], p, Size(v))
    decreases v, 0, 0
  {
    ghost var b := buf[..];
    assert ItemAt(b, p, v, k);
    BeforeGrows(v, k, |v.items|);
    item, n, ok := Deserialize(element, buf, at, v.items[k]);
    OneItemLess(b, buf[..], p, v, k, at, Size(v.items[k]));
    WithinBoth(b, b, buf[..], p, Size(v), at, Size(v.items[k]));
  }

  method DeserializeItems(element: Type, buf: array<nat>, p: nat, ghost v: Value) returns (items: seq<Value>, cnt: nat, ok: bool)
    requires v.Vector? && HasType(v, TVector(element)) && Encodes(buf[..], p, v)
    modifies buf
    ensures (ok <==> NulFree(v)) && (ok ==> items == v.items && cnt == Size(v))
    ensures Within(old(buf[..]), buf[..], p, Size(v))
    decreases v, 0, 1
  {
    var sz := GetWord(buf, p);
    items, cnt, ok := [], 1, true;
    var i := 0;
    while i < sz && ok
      invariant 0 <= i <= sz == |v.items|
      invariant Remaining(buf[..], p, v, i)
      invariant ok ==> cnt == 1 + Before(v, i) && items == v.items[..i] && CleanUpto(v, i)
      invariant !ok ==> !CleanUpto(v, sz)
      invariant Within(old(buf[..]), buf[..], p, Size(v))
      decreases sz - i
    {
      ghost var b := buf[..];
      var item, n;
      item, n, ok := DeserializeNext(element, buf, p, p + cnt, v, i);
      WithinBoth(old(buf[..]), b, buf[..], p, Size(v), p, Size(v));
      if ok {
        items := items + [item];
        cnt := cnt + n;
      }
      i := i + 1;
    }
    CleanMeans(v);
  }

  lemma CleanMeans(v: Value)
    requires v.Vector?
    ensures NulFree(v) <==> CleanUpto(v, |v.items|)
  {
  }

  /**
  Reads a value of type t. `ok` is false if the string assertion fails, which ends the program. The
  terminators it writes stay inside the value's own words.
  */
  method Deserialize(t: Type, buf: array<nat>, p: nat, ghost v: Value) returns (out: Value, n: nat, ok: bool)
    requires HasType(v, t) && Encodes(buf[..], p, v)
    modifies buf
    ensures (ok <==> NulFree(v)) && (ok ==> out == v && n == Size(v))
    ensures Within(old(buf[..]), buf[..], p, Size(v))
    decreases v, 1
  {
    match t
    case TInt =>
      var w := GetWord(buf, p);
      out, n, ok := Int(w), CellDivide(4), true;
    case TString =>
      var chars;
      chars, n, ok := DeserializeString(buf, p, v.chars);
      out := String(chars);
    case TVector(element) =>
      var items;
      items, n, ok := DeserializeItems(element, buf, p, v);
      out := Vector(items);
  }

  /** Round trip at any position; it succeeds exactly for values whose strings have no NUL in them. */
  method RoundTrip(t: Type, v: Value, buf: array<nat>, p: nat) returns (out: Value, n: nat, ok: bool)
    requires HasType(v, t) && Proper(v) && 4 * (p + Size(v)) <= buf.Length
    modifies buf
    ensures (ok <==> NulFree(v)) && (ok ==> out == v && n == Size(v))
    ensures Within(old(buf[..]), buf[..], p, Size(v))
  {
    var written := Serialize(v, buf, p);
    out, n, ok := Deserialize(t, buf, p, v);
  }
}
