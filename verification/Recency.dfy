/**
Least recently used replacement as a list of keys, oldest use first: what the replacement policy
means, independently of clocks and slots.
*/
module Recency {

  predicate Distinct(order: seq<nat>) {
    forall p, q :: 0 <= p < q < |order| ==> order[p] != order[q]
  }

  function Keys(order: seq<nat>): set<nat> {
    set k | k in order
  }

  function Without(order: seq<nat>, k: nat): seq<nat> {
    if order == [] then [] else if order[0] == k then order[1..] else [order[0]] + Without(order[1..], k)
  }

  /** One use of key k in a cache of `size` blocks. */
  function Touched(size: nat, order: seq<nat>, k: nat): seq<nat> {
    if k in order then Without(order, k) + [k]
    else if |order| == size > 0 then order[1..] + [k]
    else order + [k]
  }

  /** The resident keys after a sequence of uses, starting empty. */
  function After(size: nat, uses: seq<nat>): seq<nat> {
    if uses == [] then [] else Touched(size, After(size, uses[..|uses| - 1]), uses[|uses| - 1])
  }

  /** The last time k was used. */
  function LastUse(uses: seq<nat>, k: nat): nat
    requires k in uses
  {
    if uses[|uses| - 1] == k then |uses| - 1 else LastUse(uses[..|uses| - 1], k)
  }

  /** The other keys used since k was. */
  function Since(uses: seq<nat>, k: nat): set<nat>
    requires k in uses
  {
    if uses[|uses| - 1] == k then {} else Since(uses[..|uses| - 1], k) + {uses[|uses| - 1]}
  }

  // ---- lists without repetition ----

  lemma {:induction false} WithoutAt(order: seq<nat>, k: nat, q: nat)
    requires Distinct(order) && q < |order| && order[q] == k
    ensures Without(order, k) == order[..q] + order[q + 1..]
  {
    if q > 0 {
      var rest := order[1..];
      assert forall a, b :: 0 <= a < b < |rest| ==> rest[a] == order[a + 1] && rest[b] == order[b + 1];
      WithoutAt(rest, k, q - 1);
      assert [order[0]] + rest[..q - 1] == order[..q];
      assert rest[q..] == order[q + 1..];
    }
  }

  lemma {:induction false} WithoutKeys(order: seq<nat>, k: nat)
    requires Distinct(order) && k in order
    ensures |Without(order, k)| == |order| - 1 && Distinct(Without(order, k))
    ensures forall j :: j in Without(order, k) <==> j in order && j != k
  {
    var rest := order[1..];
    assert order == [order[0]] + rest;
    assert Distinct(rest) by {
      assert forall a, b :: 0 <= a < b < |rest| ==> rest[a] == order[a + 1] && rest[b] == order[b + 1];
    }
    assert order[0] !in rest by {
      assert forall a :: 0 <= a < |rest| ==> rest[a] == order[a + 1];
    }
    if order[0] != k {
      WithoutKeys(rest, k);
    }
  }

  lemma {:induction false} KeysSize(order: seq<nat>)
    requires Distinct(order)
    ensures |Keys(order)| == |order|
  {
    if order != [] {
      var rest := order[1..];
      assert forall a, b :: 0 <= a < b < |rest| ==> rest[a] == order[a + 1] && rest[b] == order[b + 1];
      KeysSize(rest);
      assert order[0] !in Keys(rest);
      assert Keys(order) == Keys(rest) + {order[0]};
    }
  }

  lemma AppendDistinct(order: seq<nat>, k: nat)
    requires Distinct(order) && k !in order
    ensures Distinct(order + [k])
  {
  }

  lemma TailDistinct(order: seq<nat>, k: nat)
    requires Distinct(order) && order != [] && k !in order
    ensures Distinct(order[1..]) && k !in order[1..]
  {
    assert order == [order[0]] + order[1..];
    assert forall a, b :: 0 <= a < b < |order[1..]| ==> order[1..][a] == order[a + 1] && order[1..][b] == order[b + 1];
  }

  lemma TouchedDistinct(size: nat, order: seq<nat>, k: nat)
    requires Distinct(order) && |order| <= size && size > 0
    ensures Distinct(Touched(size, order, k)) && |Touched(size, order, k)| <= size
    ensures |Touched(size, order, k)| == if k in order || |order| == size then |order| else |order| + 1
  {
    if k in order {
      WithoutKeys(order, k);
      AppendDistinct(Without(order, k), k);
    } else if |order| == size {
      TailDistinct(order, k);
      AppendDistinct(order[1..], k);
    } else {
      AppendDistinct(order, k);
    }
  }

  // ---- the order is the order of last uses ----

  /** The keys behind position p in the list are those used since the key at p was. */
  predicate Placed(uses: seq<nat>, order: seq<nat>, p: nat)
    requires p < |order|
  {
    order[p] in uses && Since(uses, order[p]) == Keys(order[p + 1..])
  }

  /** Key k is resident, or was never used, or has seen `size` others since. */
  predicate Kept(size: nat, uses: seq<nat>, order: seq<nat>, k: nat) {
    k in order || k !in uses || |Since(uses, k)| >= size
  }

  ghost predicate Faithful(size: nat, uses: seq<nat>, order: seq<nat>) {
    && Distinct(order) && |order| <= size
    && (forall p {:trigger Placed(uses, order, p)} :: 0 <= p < |order| ==> Placed(uses, order, p))
    && (forall k {:trigger Kept(size, uses, order, k)} :: Kept(size, uses, order, k))
  }

  lemma OneMoreUse(uses: seq<nat>, u: nat, k: nat)
    requires k in uses || k == u
    ensures k in uses + [u]
    ensures Since(uses + [u], k) == if k == u then {} else Since(uses, k) + {u}
    ensures LastUse(uses + [u], k) == if k == u then |uses| else LastUse(uses, k)
  {
    assert (uses + [u])[..|uses|] == uses;
  }

  lemma StillKept(size: nat, uses: seq<nat>, order: seq<nat>, order': seq<nat>, u: nat, k: nat)
    requires Kept(size, uses, order, k) && u in order' && (k in order ==> k in order')
    ensures Kept(size, uses + [u], order', k)
  {
    if k in uses && k != u && k !in order' {
      OneMoreUse(uses, u, k);
      if u in Since(uses, k) {
        assert Since(uses, k) + {u} == Since(uses, k);
      }
    }
  }

  /** A key keeps its place when u is appended and a key behind or before it leaves. */
  lemma StillPlaced(uses: seq<nat>, order: seq<nat>, p: nat, order': seq<nat>, p': nat, u: nat)
    requires p < |order| && p' < |order'| && Placed(uses, order, p) && order'[p'] == order[p] != u
    requires Keys(order'[p' + 1..]) == Keys(order[p + 1..]) + {u}
    ensures Placed(uses + [u], order', p')
  {
    OneMoreUse(uses, u, order[p]);
  }

  lemma LastPlaced(uses: seq<nat>, order: seq<nat>, u: nat)
    ensures Placed(uses + [u], order + [u], |order|)
  {
    OneMoreUse(uses, u, u);
    assert (order + [u])[|order| + 1..] == [];
  }

  /** The tail behind position p, after moving the key at q to the end. */
  lemma MovedTail(order: seq<nat>, q: nat, p: nat)
    requires Distinct(order) && q < |order| && p < |order| - 1
    ensures var order' := order[..q] + order[q + 1..] + [order[q]];
      var p0 := if p < q then p else p + 1;
      order'[p] == order[p0] != order[q] && Keys(order'[p + 1..]) == Keys(order[p0 + 1..]) + {order[q]}
  {
    var u := order[q];
    var order' := order[..q] + order[q + 1..] + [u];
    if p < q {
      assert order'[p + 1..] == order[p + 1..q] + order[q + 1..] + [u];
      assert order[p + 1..] == order[p + 1..q] + [u] + order[q + 1..];
    } else {
      assert order'[p + 1..] == order[p + 2..] + [u];
    }
  }

  lemma TouchResident(size: nat, uses: seq<nat>, order: seq<nat>, u: nat)
    requires Faithful(size, uses, order) && u in order && size > 0
    ensures Faithful(size, uses + [u], Touched(size, order, u))
  {
    TouchedDistinct(size, order, u);
    var q :| 0 <= q < |order| && order[q] == u;
    WithoutAt(order, u, q);
    var order' := Touched(size, order, u);
    forall p | 0 <= p < |order'| ensures Placed(uses + [u], order', p) {
      if p == |order'| - 1 {
        LastPlaced(uses, order'[..p], u);
        assert order'[..p] + [u] == order';
      } else {
        MovedTail(order, q, p);
        StillPlaced(uses, order, if p < q then p else p + 1, order', p, u);
      }
    }
    forall k ensures Kept(size, uses + [u], order', k) {
      assert Kept(size, uses, order, k);
      if k in order && k != u {
        var p :| 0 <= p < |order| && order[p] == k;
        assert k == order'[if p < q then p else p - 1];
      }
      assert order'[|order'| - 1] == u;
      StillKept(size, uses, order, order', u, k);
    }
  }

  lemma TouchNew(size: nat, uses: seq<nat>, order: seq<nat>, u: nat)
    requires Faithful(size, uses, order) && u !in order && size > 0
    ensures Faithful(size, uses + [u], Touched(size, order, u))
  {
    TouchedDistinct(size, order, u);
    var order' := Touched(size, order, u);
    var d := if |order| == size then 1 else 0;
    assert order' == order[d..] + [u];
    forall p | 0 <= p < |order'| ensures Placed(uses + [u], order', p) {
      if p == |order'| - 1 {
        LastPlaced(uses, order[d..], u);
      } else {
        assert order'[p + 1..] == order[p + d + 1..] + [u];
        assert Keys(order'[p + 1..]) == Keys(order[p + d + 1..]) + {u};
        StillPlaced(uses, order, p + d, order', p, u);
      }
    }
    forall k ensures Kept(size, uses + [u], order', k) {
      assert Kept(size, uses, order, k);
      if d == 1 && k == order[0] {
        EvictedKept(size, uses, order, u);
      } else {
        if k in order {
          var p :| 0 <= p < |order| && order[p] == k;
          assert k == order'[p - d];
        }
        assert order'[|order'| - 1] == u;
        StillKept(size, uses, order, order', u, k);
      }
    }
  }

  /** The key that falls out has seen `size` others since its last use. */
  lemma EvictedKept(size: nat, uses: seq<nat>, order: seq<nat>, u: nat)
    requires Faithful(size, uses, order) && u !in order && |order| == size > 0
    ensures Kept(size, uses + [u], order[1..] + [u], order[0])
  {
    assert Placed(uses, order, 0);
    OneMoreUse(uses, u, order[0]);
    assert u !in Keys(order[1..]);
    KeysSize(order[1..]);
  }

  lemma {:induction false} AfterFaithful(size: nat, uses: seq<nat>)
    requires size > 0
    ensures Faithful(size, uses, After(size, uses))
    decreases |uses|
  {
    if uses != [] {
      var before, u := uses[..|uses| - 1], uses[|uses| - 1];
      AfterFaithful(size, before);
      assert before + [u] == uses;
      if u in After(size, before) {
        TouchResident(size, before, After(size, before), u);
      } else {
        TouchNew(size, before, After(size, before), u);
      }
    }
  }

  // ---- what it means ----

  /** A key is resident exactly when fewer than `size` other keys were used since its last use. */
  lemma ResidentIffRecent(size: nat, uses: seq<nat>, k: nat)
    requires size > 0
    ensures k in After(size, uses) <==> k in uses && |Since(uses, k)| < size
  {
    AfterFaithful(size, uses);
    var order := After(size, uses);
    if k in order {
      var p :| 0 <= p < |order| && order[p] == k;
      assert Placed(uses, order, p);
      KeysSize(order[p + 1..]);
    } else {
      assert Kept(size, uses, order, k);
    }
  }

  lemma {:induction false} SinceIsLater(uses: seq<nat>, k: nat, other: nat)
    requires k in uses && other in Since(uses, k)
    ensures other in uses && LastUse(uses, k) < LastUse(uses, other)
    decreases |uses|
  {
    var before, u := uses[..|uses| - 1], uses[|uses| - 1];
    assert before + [u] == uses;
    OneMoreUse(before, u, k);
    if other in Since(before, k) {
      SinceIsLater(before, k, other);
      LastUseBound(before, other);
      OneMoreUse(before, u, other);
    } else {
      LastUseBound(before, k);
      OneMoreUse(before, u, u);
    }
  }

  lemma {:induction false} LastUseBound(uses: seq<nat>, k: nat)
    requires k in uses
    ensures LastUse(uses, k) < |uses| && uses[LastUse(uses, k)] == k
    decreases |uses|
  {
    if uses[|uses| - 1] != k {
      LastUseBound(uses[..|uses| - 1], k);
    }
  }

  /** The first key of the list, the one an eviction takes, is the one whose last use is oldest. */
  lemma VictimIsOldest(size: nat, uses: seq<nat>, k: nat)
    requires size > 0 && After(size, uses) != [] && k in After(size, uses) && k != After(size, uses)[0]
    ensures After(size, uses)[0] in uses && k in uses && LastUse(uses, After(size, uses)[0]) < LastUse(uses, k)
  {
    AfterFaithful(size, uses);
    var order := After(size, uses);
    var p :| 0 <= p < |order| && order[p] == k;
    assert Placed(uses, order, 0) && order[1..][p - 1] == k;
    SinceIsLater(uses, order[0], k);
  }
}
