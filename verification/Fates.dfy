/**
What becomes of an element of the shared array when a node flushes it. A flush goes through putchunk of
the cache, which may store an element, leave it as it was, or store only the first of its two words.
*/
module Fates {

  /** How an element of two words lies in memory. */
  datatype Codec = Codec(encode: real -> (int, int), decode: (int, int) -> real)

  /** Different words are different values. */
  ghost predicate CodecOk(codec: Codec) {
    forall p: int, q: int {:trigger codec.decode(p, q)} :: codec.encode(codec.decode(p, q)) == (p, q)
  }

  /** The element with the first word of `sum` and the second word of `before`. */
  function HalfNew(codec: Codec, before: real, sum: real): real {
    codec.decode(codec.encode(sum).0, codec.encode(before).1)
  }

  datatype Fate = Stored | Missed | Torn(codec: Codec)

  ghost predicate FateOk(fate: Fate) {
    fate.Torn? ==> CodecOk(fate.codec)
  }

  /** The element after the flush: `before` is what it was, `sum` what the node flushes. */
  function AfterFlush(fate: Fate, before: real, sum: real): real {
    match fate
    case Stored => sum
    case Missed => before
    case Torn(codec) => HalfNew(codec, before, sum)
  }

  /** The flush of the element does no harm: it was stored, or comes to have its value all the same. */
  predicate Harmless(fate: Fate, before: real, sum: real) {
    || fate.Stored?
    || (fate.Missed? && before == sum)
    || (fate.Torn? && HalfNew(fate.codec, before, sum) == sum)
  }

  /** An element that is not stored is wrong for some sum, whatever it was before. */
  lemma NotStoredHarms(fate: Fate, before: real) returns (sum: real)
    requires !fate.Stored? && FateOk(fate)
    ensures !Harmless(fate, before, sum)
  {
    match fate
    case Missed => sum := before + 1.0;
    case Torn(codec) =>
      var (p, q) := codec.encode(before);
      sum := codec.decode(p, q + 1);
      assert codec.encode(codec.decode(p, q)) == (p, q);
  }
}
