/** Counting how many entries of a sequence of flags are set. */
module Counting {

  function Count(b: seq<bool>): (n: nat)
    ensures n <= |b|
  {
    if b == [] then 0 else Count(b[..|b| - 1]) + (if b[|b| - 1] then 1 else 0)
  }

  lemma {:induction false} CountSet(b: seq<bool>, i: nat)
    requires i < |b| && !b[i]
    ensures Count(b[i := true]) == Count(b) + 1
  {
    var m := |b| - 1;
    if i == m {
      assert b[i := true][..m] == b[..m];
    } else {
      CountSet(b[..m], i);
      assert b[i := true][..m] == b[..m][i := true];
    }
  }

  lemma {:induction false} CountFull(b: seq<bool>)
    ensures Count(b) == |b| <==> forall i :: 0 <= i < |b| ==> b[i]
  {
    if b != [] {
      var m := |b| - 1;
      CountFull(b[..m]);
      assert forall i :: 0 <= i < m ==> b[..m][i] == b[i];
    }
  }

  lemma {:induction false} CountNone(b: seq<bool>)
    requires forall i :: 0 <= i < |b| ==> !b[i]
    ensures Count(b) == 0
  {
    if b != [] {
      CountNone(b[..|b| - 1]);
    }
  }
}
