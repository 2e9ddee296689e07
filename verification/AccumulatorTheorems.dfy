/**
What whole runs of the accumulator guarantee: what the shared array holds when a call returns, how far a
threshold can move it, and that the receivers' bound asserts hold.
*/
module AccumulatorTheorems {
  import opened Accumulator
  import opened Chunks
  import opened Counting
  import opened Fates
  import opened Sums
  import Rounds

  /** `steps` leads from s to s2. A run is a path from the initial state; every prefix of a run is one, too. */
  ghost predicate Path(c: Config, s: State, steps: seq<Step>, s2: State)
    decreases |steps|
  {
    if steps == [] then s2 == s
    else Moves(c, s, steps[0]) && Path(c, Apply(c, s, steps[0]), steps[1..], s2)
  }

  ghost predicate Moves(c: Config, s: State, step: Step) {
    Shape(c, s) && Enabled(c, s, step) && Ready(c, s, step)
  }

  ghost predicate Run(c: Config, arr: seq<real>, steps: seq<Step>, s: State) {
    Ok(c) && |arr| == c.len && Path(c, Init(c, arr), steps, s)
  }

  lemma {:induction false} PathInv(c: Config, s: State, steps: seq<Step>, s2: State)
    requires Inv(c, s) && Path(c, s, steps, s2)
    ensures Inv(c, s2)
    decreases |steps|
  {
    if steps != [] {
      StepInv(c, s, steps[0]);
      PathInv(c, Apply(c, s, steps[0]), steps[1..], s2);
    }
  }

  lemma RunInv(c: Config, arr: seq<real>, steps: seq<Step>, s: State)
    requires Run(c, arr, steps, s)
    ensures Inv(c, s)
  {
    InitInv(c, arr);
    PathInv(c, Init(c, arr), steps, s);
  }

  /** Element e of the vectors the users passed to their call number r. */
  ghost function Inputs(c: Config, r: nat, e: nat): seq<real>
    requires Ok(c) && e < c.len
  {
    seq(|c.home|, u requires 0 <= u < |c.home| => c.input(u, r)[e])
  }

  /** Which users run on the node that owns element e. */
  function AtOwner(c: Config, e: nat): seq<bool>
    requires e < |c.owner|
  {
    seq(|c.home|, u requires 0 <= u < |c.home| => c.home[u] == c.owner[e])
  }

  /** The situation the guarantee is about: u has returned from call r and w has not called again. */
  ghost predicate Settled(c: Config, s: State, u: nat, w: nat, r: nat) {
    Shape(c, s) && u < |c.home| && w < |c.home| && s.net.users[u].returned == r + 1 && s.net.users[w].calls <= r + 1
  }

  lemma SettledArray(c: Config, s: State, u: nat, w: nat, r: nat, e: nat)
    requires Inv(c, s) && Settled(c, s, u, w, r) && e < c.len
    ensures s.arr[e] == AfterFlush(c.fate(r, e), s.before[e], Sum(Effs(c, s, r, e)))
    ensures s.net.nodes[c.owner[e]].flushes == r + 1 && forall v :: 0 <= v < |c.home| ==> r < s.net.users[v].calls
  {
    assert Rounds.UserOk(s.net.users[u], s.net.rounds) && Rounds.UserOk(s.net.users[w], s.net.rounds);
    var n := c.owner[e];
    assert InSegment(c, n, e) && Rounds.NodeOk(s.net, n) && ArrOk(c, s, n);
    assert s.net.rounds == r + 1;
    assert !Rounds.Arrived(s.net, w, n);
    forall v | 0 <= v < |c.home| ensures r < s.net.users[v].calls {
      assert Rounds.UserOk(s.net.users[v], s.net.rounds);
    }
  }

  /** Without a threshold the vectors are sent as they are. */
  lemma EffsAreInputs(c: Config, s: State, r: nat, e: nat)
    requires Inv(c, s) && e < c.len && c.threshold <= 0.0
    requires forall v :: 0 <= v < |c.home| ==> r < s.net.users[v].calls
    ensures Effs(c, s, r, e) == Inputs(c, r, e)
  {
    forall v | 0 <= v < |c.home| ensures Effs(c, s, r, e)[v] == Inputs(c, r, e)[v] {
      assert UserInv(c, s.senders[v], s.net.users[v], v);
      assert Near(c, v, r, e, s.senders[v].eff[r][e]);
      KeptIsClose(c.input(v, r)[e], c.threshold);
    }
  }

  /**
  What the array holds. In every run, whatever the interleaving, the chunking and the mix of dense and
  sparse chunks: once a user has returned from its round-r call, and until every user has called again,
  each element of the shared array is what its owner's flush makes of the sum of all the round-r vectors.
  */
  lemma ArrayAfterRound(c: Config, arr: seq<real>, steps: seq<Step>, s: State, u: nat, w: nat, r: nat, e: nat)
    requires Run(c, arr, steps, s) && c.threshold <= 0.0
    requires Settled(c, s, u, w, r) && e < c.len
    ensures s.arr[e] == AfterFlush(c.fate(r, e), s.before[e], Sum(Inputs(c, r, e)))
  {
    RunInv(c, arr, steps, s);
    SettledArray(c, s, u, w, r, e);
    EffsAreInputs(c, s, r, e);
  }

  ghost predicate HoldsSum(c: Config, s: State, r: nat)
    requires Shape(c, s)
  {
    forall e: nat {:trigger s.arr[e]} :: e < c.len ==> s.arr[e] == Sum(Inputs(c, r, e))
  }

  /** No element that the flushes of round r failed to store needed storing. */
  ghost predicate NoneHarmed(c: Config, s: State, r: nat)
    requires Shape(c, s)
  {
    forall e: nat {:trigger c.fate(r, e)} :: e < c.len ==> Harmless(c.fate(r, e), s.before[e], Sum(Inputs(c, r, e)))
  }

  /**
  The accumulator computes the sum: if the flushes of the round store every element, the shared array is the
  elementwise sum of all the round-r vectors. For the vectors at hand an element that was not stored does no
  harm if it comes to have this value all the same.
  */
  lemma OutputIsSum(c: Config, arr: seq<real>, steps: seq<Step>, s: State, u: nat, w: nat, r: nat)
    requires Run(c, arr, steps, s) && c.threshold <= 0.0
    requires Settled(c, s, u, w, r)
    ensures (forall e: nat {:trigger c.fate(r, e)} :: e < c.len ==> c.fate(r, e).Stored?) ==> HoldsSum(c, s, r)
    ensures HoldsSum(c, s, r) <==> NoneHarmed(c, s, r)
  {
    forall e: nat | e < c.len
      ensures s.arr[e] == Sum(Inputs(c, r, e)) <==> Harmless(c.fate(r, e), s.before[e], Sum(Inputs(c, r, e)))
    {
      ArrayAfterRound(c, arr, steps, s, u, w, r, e);
    }
  }

  /** `v` is within the threshold, once per user away from the owner, of the true sum at element e. */
  ghost predicate Close(c: Config, v: real, r: nat, e: nat)
    requires Ok(c) && e < c.len
  {
    Abs(v - Sum(Inputs(c, r, e))) <= Times(c.threshold, CountOff(AtOwner(c, e)))
  }

  /**
  With a positive threshold, the value flushed for each component is off by at most the threshold for every
  user that does not run on the component's own node, whichever mode is chosen for each chunk. A component
  that is stored has this value; the others are what the flush makes of it.
  */
  lemma OutputIsClose(c: Config, arr: seq<real>, steps: seq<Step>, s: State, u: nat, w: nat, r: nat, e: nat)
    requires Run(c, arr, steps, s) && c.threshold > 0.0
    requires Settled(c, s, u, w, r) && e < c.len
    ensures c.fate(r, e).Stored? ==> Close(c, s.arr[e], r, e)
    ensures exists sum: real {:trigger Close(c, sum, r, e)} :: Close(c, sum, r, e) && s.arr[e] == AfterFlush(c.fate(r, e), s.before[e], sum)
  {
    RunInv(c, arr, steps, s);
    SettledArray(c, s, u, w, r, e);
    EffsAreClose(c, s, r, e);
  }

  /** What user v's effective vector may be off by at element e. */
  function Slack(c: Config, e: nat): seq<real>
    requires e < |c.owner|
  {
    seq(|c.home|, v requires 0 <= v < |c.home| => if AtOwner(c, e)[v] then 0.0 else c.threshold)
  }

  lemma EffIsClose(c: Config, s: State, r: nat, e: nat, v: nat)
    requires Inv(c, s) && e < c.len && c.threshold > 0.0 && v < |c.home| && r < s.net.users[v].calls
    ensures Abs(Effs(c, s, r, e)[v] - Inputs(c, r, e)[v]) <= Slack(c, e)[v]
  {
    assert UserInv(c, s.senders[v], s.net.users[v], v);
    assert Near(c, v, r, e, s.senders[v].eff[r][e]);
    KeptIsClose(c.input(v, r)[e], c.threshold);
  }

  lemma EffsAreNear(c: Config, s: State, r: nat, e: nat)
    requires Inv(c, s) && e < c.len && c.threshold > 0.0
    requires forall v :: 0 <= v < |c.home| ==> r < s.net.users[v].calls
    ensures Nearby(Effs(c, s, r, e), Inputs(c, r, e), Slack(c, e))
  {
    forall v | 0 <= v < |c.home| ensures Abs(Effs(c, s, r, e)[v] - Inputs(c, r, e)[v]) <= Slack(c, e)[v] {
      EffIsClose(c, s, r, e, v);
    }
  }

  lemma SlackIs(c: Config, e: nat)
    requires e < |c.owner|
    ensures SlackAt(AtOwner(c, e), Slack(c, e), c.threshold)
  {
  }

  lemma NearIsClose(c: Config, values: seq<real>, r: nat, e: nat)
    requires Ok(c) && e < c.len && Nearby(values, Inputs(c, r, e), Slack(c, e))
    ensures Close(c, Sum(values), r, e)
  {
    SlackIs(c, e);
    SumsCloseOff(values, Inputs(c, r, e), AtOwner(c, e), Slack(c, e), c.threshold);
  }

  lemma EffsAreClose(c: Config, s: State, r: nat, e: nat)
    requires Inv(c, s) && e < c.len && c.threshold > 0.0
    requires forall v :: 0 <= v < |c.home| ==> r < s.net.users[v].calls
    ensures Close(c, Sum(Effs(c, s, r, e)), r, e)
  {
    EffsAreNear(c, s, r, e);
    NearIsClose(c, Effs(c, s, r, e), r, e);
  }

  /** In every run, the bound asserts of the receiving node hold for the message it takes next. */
  lemma AssertsNeverFire(c: Config, arr: seq<real>, steps: seq<Step>, s: State, u: nat, n: nat)
    requires Run(c, arr, steps, s) && Shape(c, s) && Enabled(c, s, Deliver(u, n))
    ensures var p := s.net.users[u].chan[n][0].payload;
            p.payload == Dense([]) || InBounds(p.payload, Elem(p.off, c.dsm), Lo(c, n), |s.bufs[n]|)
  {
    RunInv(c, arr, steps, s);
    assert MessagesOk(c, s.net.users[u], n);
  }
}
