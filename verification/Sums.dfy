/** Sums of sequences of exact reals. */
module Sums {

  function Sum(s: seq<real>): real {
    if s == [] then 0.0 else Sum(s[..|s| - 1]) + s[|s| - 1]
  }

  lemma {:induction false} SumUpdate(s: seq<real>, i: nat, v: real)
    requires i < |s|
    ensures Sum(s[i := v]) == Sum(s) - s[i] + v
  {
    var m := |s| - 1;
    if i == m {
      assert s[i := v][..m] == s[..m];
    } else {
      SumUpdate(s[..m], i, v);
      assert s[i := v][..m] == s[..m][i := v];
    }
  }

  lemma {:induction false} SumZero(s: seq<real>)
    requires forall i :: 0 <= i < |s| ==> s[i] == 0.0
    ensures Sum(s) == 0.0
  {
    if s != [] {
      SumZero(s[..|s| - 1]);
    }
  }

  function Abs(v: real): real {
    if v >= 0.0 then v else -v
  }

  /** Entry i of the two sequences differs by at most slack[i]. */
  predicate Nearby(a: seq<real>, b: seq<real>, slack: seq<real>) {
    |a| == |b| == |slack| && forall i :: 0 <= i < |a| ==> Abs(a[i] - b[i]) <= slack[i]
  }

  /** If each entry is off by at most its slack, the sums differ by at most the total slack. */
  lemma {:induction false} SumsClose(a: seq<real>, b: seq<real>, slack: seq<real>)
    requires Nearby(a, b, slack)
    ensures Abs(Sum(a) - Sum(b)) <= Sum(slack)
  {
    if a != [] {
      var m := |a| - 1;
      SumsClose(a[..m], b[..m], slack[..m]);
      assert Abs(a[m] - b[m]) <= slack[m];
    }
  }

  /** How many flags are not set. */
  function CountOff(b: seq<bool>): nat {
    if b == [] then 0 else CountOff(b[..|b| - 1]) + (if b[|b| - 1] then 0 else 1)
  }

  /** t, n times. */
  function Times(t: real, n: nat): real {
    if n == 0 then 0.0 else Times(t, n - 1) + t
  }

  /** A slack of t for each unset flag. */
  predicate SlackAt(b: seq<bool>, slack: seq<real>, t: real) {
    |b| == |slack| && forall i :: 0 <= i < |b| ==> slack[i] == if b[i] then 0.0 else t
  }

  lemma {:induction false} SlackTotal(b: seq<bool>, slack: seq<real>, t: real)
    requires SlackAt(b, slack, t)
    ensures Sum(slack) == Times(t, CountOff(b))
  {
    if b != [] {
      SlackTotal(b[..|b| - 1], slack[..|b| - 1], t);
    }
  }

  /** If a and b agree where the flag is set and differ by at most t elsewhere, so do their sums, once per unset flag. */
  lemma SumsCloseOff(a: seq<real>, b: seq<real>, at: seq<bool>, slack: seq<real>, t: real)
    requires Nearby(a, b, slack) && SlackAt(at, slack, t)
    ensures Abs(Sum(a) - Sum(b)) <= Times(t, CountOff(at))
  {
    SumsClose(a, b, slack);
    SlackTotal(at, slack, t);
  }
}
