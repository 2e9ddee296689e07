/** Machine words of the shared memory: 32-bit wrap-around and the cache block size. */
module Words {

  /** Number of values of a `uint32_t`. */
  const U32: int := 0x1_0000_0000

  /** DSM_CACHE_BLOCK_SIZE: words in one cache or storage block. */
  const BLOCK: int := 32

  /** The value a `uint32_t` expression has when its exact value is `x`. */
  function Wrap32(x: int): nat {
    x % U32
  }

  lemma WrapSmall(x: int)
    requires 0 <= x < U32
    ensures Wrap32(x) == x
  {
  }

  /** Clears the offset inside a block (`k & DSM_CACHE_HIGH_MASK`). */
  function BlockStart(k: nat): nat {
    k - k % BLOCK
  }

  /** The `if (a % b == 0) a / b else a / b + 1` idiom of the source. */
  function CeilDiv(a: nat, b: nat): nat
    requires b > 0
  {
    if a % b == 0 then a / b else a / b + 1
  }

  lemma CeilDivBounds(a: nat, b: nat)
    requires b > 0
    ensures b * CeilDiv(a, b) < a + b
    ensures a <= b * CeilDiv(a, b)
  {
    assert a == b * (a / b) + a % b;
    assert b * (a / b + 1) == b * (a / b) + b;
  }

  lemma BlockStartBounds(k: nat)
    ensures BlockStart(k) % BLOCK == 0 && BlockStart(k) <= k < BlockStart(k) + BLOCK
  {
    assert k == BLOCK * (k / BLOCK) + k % BLOCK;
    assert BLOCK * (k / BLOCK) % BLOCK == 0;
  }

  /** From one block boundary to a later one it is at least a block. */
  lemma NextBoundary(i: nat, end: nat)
    requires i % BLOCK == 0 && end % BLOCK == 0 && i < end
    ensures i + BLOCK <= end && (i + BLOCK) % BLOCK == 0
  {
    assert i == BLOCK * (i / BLOCK) && end == BLOCK * (end / BLOCK);
    assert (i + BLOCK) == BLOCK * (i / BLOCK + 1);
  }
}
