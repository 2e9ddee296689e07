/** The directory's sharer masks: sets of cache numbers as the bits of a machine word. */
module Masks {

  function Bit(m: nat, i: nat): bool {
    if i == 0 then m % 2 == 1 else Bit(m / 2, i - 1)
  }

  /** `m | (1 << i)` */
  function SetBit(m: nat, i: nat): nat {
    if i == 0 then m / 2 * 2 + 1 else SetBit(m / 2, i - 1) * 2 + m % 2
  }

  /** `m & ~(1 << i)` */
  function ClearBit(m: nat, i: nat): nat {
    if i == 0 then m / 2 * 2 else ClearBit(m / 2, i - 1) * 2 + m % 2
  }

  function Pow2(n: nat): nat {
    if n == 0 then 1 else 2 * Pow2(n - 1)
  }

  /** Only bits below n are set. */
  ghost predicate Narrow(m: nat, n: nat) {
    forall j: nat {:trigger Bit(m, j)} :: n <= j ==> !Bit(m, j)
  }

  function Sharers(m: nat, n: nat): set<nat> {
    set j | 0 <= j < n && Bit(m, j)
  }

  lemma {:induction false} SetBitSets(m: nat, i: nat, j: nat)
    ensures Bit(SetBit(m, i), j) <==> j == i || Bit(m, j)
    decreases i
  {
    var r := SetBit(m, i);
    if i > 0 {
      assert r / 2 == SetBit(m / 2, i - 1) && r % 2 == m % 2;
      if j > 0 {
        SetBitSets(m / 2, i - 1, j - 1);
      }
    }
  }

  lemma {:induction false} ClearBitClears(m: nat, i: nat, j: nat)
    ensures Bit(ClearBit(m, i), j) <==> j != i && Bit(m, j)
    decreases i
  {
    var r := ClearBit(m, i);
    if i > 0 {
      assert r / 2 == ClearBit(m / 2, i - 1) && r % 2 == m % 2;
      if j > 0 {
        ClearBitClears(m / 2, i - 1, j - 1);
      }
    }
  }

  lemma {:induction false} NoBits(j: nat)
    ensures !Bit(0, j)
  {
    if j > 0 {
      NoBits(j - 1);
    }
  }

  /** A mask that is not zero has a bit. */
  lemma {:induction false} SomeBit(m: nat) returns (j: nat)
    requires m != 0
    ensures Bit(m, j)
  {
    if m % 2 == 1 {
      j := 0;
    } else {
      j := SomeBit(m / 2);
      j := j + 1;
    }
  }

  /** The mask is zero exactly when nobody shares. */
  lemma ZeroMeansNobody(m: nat, n: nat)
    requires Narrow(m, n)
    ensures m == 0 <==> Sharers(m, n) == {}
  {
    if m == 0 {
      forall j: nat ensures !Bit(0, j) {
        NoBits(j);
      }
    } else {
      var j := SomeBit(m);
      assert j in Sharers(m, n);
    }
  }

  /** Setting or clearing a bit adds or removes one cache and keeps the mask narrow. */
  lemma MaskUpdates(m: nat, i: nat, n: nat)
    requires Narrow(m, n) && i < n
    ensures Narrow(SetBit(m, i), n) && Sharers(SetBit(m, i), n) == Sharers(m, n) + {i}
    ensures Narrow(ClearBit(m, i), n) && Sharers(ClearBit(m, i), n) == Sharers(m, n) - {i}
  {
    forall j: nat
      ensures Bit(SetBit(m, i), j) <==> j == i || Bit(m, j)
      ensures Bit(ClearBit(m, i), j) <==> j != i && Bit(m, j)
    {
      SetBitSets(m, i, j);
      ClearBitClears(m, i, j);
    }
  }

  lemma NarrowZero(n: nat)
    ensures Narrow(0, n) && Sharers(0, n) == {}
  {
    forall j: nat ensures !Bit(0, j) {
      NoBits(j);
    }
  }

  /** A word of n bits holds any mask of n caches. */
  lemma {:induction false} NarrowFits(m: nat, n: nat)
    requires Narrow(m, n)
    ensures m < Pow2(n)
  {
    if n == 0 {
      if m != 0 {
        var j := SomeBit(m);
        assert false;
      }
    } else {
      forall j: nat | n - 1 <= j ensures !Bit(m / 2, j) {
        assert !Bit(m, j + 1);
      }
      NarrowFits(m / 2, n - 1);
    }
  }
}
