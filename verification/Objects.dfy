/**
What the storage backends promise their callers: a set of objects, each a fixed number of words that
start out zero. Both backends keep it in memcached, each in its own way.
*/
module Objects {
  import opened Words

  /** A memcached key: two 32-bit halves (MAKE64). */
  datatype LongKey = LongKey(obj: nat, low: nat)

  /** memcached: a value is a few 32-bit words. */
  type Store = map<LongKey, seq<int>>

  /** Where an object's flag and size are kept. */
  const INFO: nat := 0xffff_ffff

  datatype Object = Object(flag: nat, words: seq<int>)

  datatype Op =
    | New(obj: nat, flag: nat, size: nat)
    | Info(obj: nat)
    | Put(obj: nat, f: nat, data: seq<int>)
    | Get(obj: nat, f: nat, len: nat)
    | Delete(obj: nat)

  datatype Result =
    Success | Failure | InfoIs(flag: nat, size: nat) | Fetched(words: seq<int>)

  function Zeros(n: nat): (r: seq<int>)
    ensures |r| == n
  {
    seq(n, _ => 0)
  }

  /** The words of an object after a write inside it. */
  function Patched(words: seq<int>, f: nat, data: seq<int>): (r: seq<int>)
    requires f + |data| <= |words|
    ensures |r| == |words|
  {
    words[..f] + data + words[f + |data|..]
  }

  /** Reads and writes stay inside a live object; only live objects are deleted. */
  predicate InBounds(objects: map<nat, Object>, op: Op) {
    match op
    case New(_, _, size) => size < U32
    case Info(_) => true
    case Put(obj, f, data) => obj in objects && f + |data| <= |objects[obj].words|
    case Get(obj, f, len) => obj in objects && f + len <= |objects[obj].words|
    case Delete(obj) => obj in objects
  }

  function After(objects: map<nat, Object>, op: Op): map<nat, Object>
    requires InBounds(objects, op)
  {
    match op
    case New(obj, flag, size) => if obj in objects then objects else objects[obj := Object(flag, Zeros(size))]
    case Put(obj, f, data) => objects[obj := objects[obj].(words := Patched(objects[obj].words, f, data))]
    case Delete(obj) => objects - {obj}
    case _ => objects
  }

  function Answer(objects: map<nat, Object>, op: Op): Result
    requires InBounds(objects, op)
  {
    match op
    case New(obj, _, _) => if obj in objects then Failure else Success
    case Info(obj) => if obj in objects then InfoIs(objects[obj].flag, |objects[obj].words|) else Failure
    case Get(obj, f, len) => Fetched(objects[obj].words[f..f + len])
    case _ => Success
  }

  /** What both backends have in common: one info record per live object, and nothing else of dead ones. */
  ghost predicate Recorded(s: Store, objects: map<nat, Object>) {
    && (forall obj {:trigger LongKey(obj, INFO)} :: LongKey(obj, INFO) in s <==> obj in objects)
    && (forall obj {:trigger objects[obj]} :: obj in objects ==>
          s[LongKey(obj, INFO)] == [objects[obj].flag, |objects[obj].words|] && |objects[obj].words| < U32)
    && (forall k {:trigger k in s} :: k in s ==> k.obj in objects)
  }
}
