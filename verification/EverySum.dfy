/**
When the accumulator is right whatever vectors it is given. All runs and rounds end with the sum for all
vectors if and only if every flush stores every element; and where the flushes go through caches, if and only
if no block of a segment comes to a write miss at its own home that carries more than one word.
*/
module EverySum {
  import opened Accumulator
  import opened AccumulatorLayout
  import opened AccumulatorTheorems
  import CacheChunks
  import opened Chunks
  import opened Fates
  import opened FlushedSegment
  import opened FlushPlans
  import opened Progress
  import opened RoundValues
  import opened SendLoop
  import opened Sums

  // ---- the same configuration with other vectors ----

  function With(c: Config, input: (nat, nat) -> seq<real>): Config {
    c.(input := input)
  }

  ghost predicate RightLengths(c: Config, input: (nat, nat) -> seq<real>) {
    forall u: nat, r: nat {:trigger input(u, r)} :: |input(u, r)| == c.len
  }

  lemma SameSegments(c: Config, input: (nat, nat) -> seq<real>, n: nat, e: nat)
    requires |c.start| == |c.end| == c.nodes && n < c.nodes
    ensures InSegment(With(c, input), n, e) == InSegment(c, n, e)
    ensures SegmentOk(With(c, input), n) == SegmentOk(c, n) && Empty(With(c, input), n) == Empty(c, n)
  {
  }

  lemma WithOk(c: Config, input: (nat, nat) -> seq<real>)
    requires Ok(c) && RightLengths(c, input)
    ensures Ok(With(c, input))
  {
    var d := With(c, input);
    forall n | 0 <= n < d.nodes ensures SegmentOk(d, n) {
      SameSegments(c, input, n, 0);
    }
    forall e | 0 <= e < d.len ensures d.owner[e] < d.nodes && InSegment(d, d.owner[e], e) {
      SameSegments(c, input, c.owner[e], e);
    }
    forall n: nat, e: nat | n < d.nodes && InSegment(d, n, e) ensures e < d.len && d.owner[e] == n {
      SameSegments(c, input, n, e);
    }
  }

  lemma WithGuarded(c: Config, input: (nat, nat) -> seq<real>)
    requires AllGuarded(c) && RightLengths(c, input)
    ensures AllGuarded(With(c, input))
  {
    WithOk(c, input);
    forall u | 0 <= u < |c.home| ensures Guard(With(c, input), u) {
      assert Guard(c, u);
      forall k | 0 <= k < c.nodes ensures Empty(With(c, input), k) == Empty(c, k) {
        SameSegments(c, input, k, 0);
      }
    }
  }

  ghost predicate SumFor(c: Config, arr: seq<real>, input: (nat, nat) -> seq<real>) {
    RightLengths(c, input) ==> AlwaysSum(With(c, input), arr)
  }

  /** Whatever vectors the users pass, every run leaves their sum after every round. */
  ghost predicate SumsAll(c: Config, arr: seq<real>) {
    forall input: (nat, nat) -> seq<real> {:trigger SumFor(c, arr, input)} :: SumFor(c, arr, input)
  }

  // ---- storing everything is enough ----

  ghost predicate AllStored(c: Config) {
    forall r: nat, e: nat {:trigger c.fate(r, e)} :: e < c.len ==> c.fate(r, e).Stored?
  }

  lemma StoredSums(c: Config, arr: seq<real>)
    requires Ok(c) && |arr| == c.len && c.threshold <= 0.0 && AllStored(c)
    ensures SumsAll(c, arr)
  {
    forall input: (nat, nat) -> seq<real> ensures SumFor(c, arr, input) {
      var d := With(c, input);
      forall steps, s, u, w, r | Run(d, arr, steps, s) && Settled(d, s, u, w, r) ensures HoldsSum(d, s, r) {
        OutputIsSum(d, arr, steps, s, u, w, r);
      }
    }
  }

  // ---- and necessary ----

  /** All zeros, but for the value v at element e of what user 0 passes to its call number r. */
  function SpikeAt(len: nat, r: nat, e: nat, v: real, u: nat, q: nat): (x: seq<real>)
    requires e < len
    ensures |x| == len && x[e] == if u == 0 && q == r then v else 0.0
  {
    if u == 0 && q == r then Accumulator.Zeros(len)[e := v] else Accumulator.Zeros(len)
  }

  function Spike(len: nat, r: nat, e: nat, v: real): (nat, nat) -> seq<real>
    requires e < len
  {
    (u: nat, q: nat) => SpikeAt(len, r, e, v, u, q)
  }

  lemma SpikeSum(c: Config, r: nat, e: nat, v: real)
    requires Ok(c) && e < c.len && RightLengths(c, Spike(c.len, r, e, v)) && Ok(With(c, Spike(c.len, r, e, v)))
    ensures Sum(Inputs(With(c, Spike(c.len, r, e, v)), r, e)) == v
  {
    var zeros := Accumulator.Zeros(|c.home|);
    var inputs := Inputs(With(c, Spike(c.len, r, e, v)), r, e);
    forall u | 0 <= u < |c.home| ensures inputs[u] == zeros[0 := v][u] {
      assert inputs[u] == SpikeAt(c.len, r, e, v, u, r)[e];
    }
    assert inputs == zeros[0 := v];
    SumZero(zeros);
    SumUpdate(zeros, 0, v);
  }

  /** Before the round of the spike its height does not matter. */
  lemma {:induction false} ValueBefore(c: Config, arr: seq<real>, r: nat, e: nat, v: real, v': real, q: nat)
    requires e < c.len == |arr| && q <= r
    requires Ok(With(c, Spike(c.len, r, e, v))) && Ok(With(c, Spike(c.len, r, e, v')))
    ensures Value(With(c, Spike(c.len, r, e, v)), arr, q, e) == Value(With(c, Spike(c.len, r, e, v')), arr, q, e)
  {
    if q > 0 {
      ValueBefore(c, arr, r, e, v, v', q - 1);
      assert Inputs(With(c, Spike(c.len, r, e, v)), q - 1, e) == Inputs(With(c, Spike(c.len, r, e, v')), q - 1, e);
    }
  }

  lemma SpikeOk(c: Config, r: nat, e: nat, v: real)
    requires AllGuarded(c) && e < c.len
    ensures RightLengths(c, Spike(c.len, r, e, v)) && AllGuarded(With(c, Spike(c.len, r, e, v)))
  {
    var input := Spike(c.len, r, e, v);
    forall u: nat, q: nat ensures |input(u, q)| == c.len {
      assert input(u, q) == SpikeAt(c.len, r, e, v, u, q);
    }
    WithGuarded(c, input);
  }

  /** An element that some flush does not store: a vector for which a run ends with a wrong sum. */
  lemma NotStoredShows(c: Config, arr: seq<real>, r: nat, e: nat) returns (input: (nat, nat) -> seq<real>)
    requires AllGuarded(c) && |arr| == c.len && c.threshold <= 0.0 && e < c.len
    requires !c.fate(r, e).Stored? && FateOk(c.fate(r, e))
    ensures RightLengths(c, input) && !AlwaysSum(With(c, input), arr)
  {
    SpikeOk(c, r, e, 0.0);
    var before := Value(With(c, Spike(c.len, r, e, 0.0)), arr, r, e);
    var v := NotStoredHarms(c.fate(r, e), before);
    input := Spike(c.len, r, e, v);
    SpikeOk(c, r, e, v);
    ValueBefore(c, arr, r, e, 0.0, v, r);
    SpikeSum(c, r, e, v);
    var steps, s := LossShows(With(c, input), arr, r, e);
  }

  /**
  The exact condition. With the guard and without a threshold, from any start array: every run leaves the sum
  after every round, for all vectors, if and only if every flush stores every element.
  */
  lemma EverySumIffStored(c: Config, arr: seq<real>)
    requires AllGuarded(c) && |arr| == c.len && c.threshold <= 0.0
    requires forall r: nat, e: nat {:trigger c.fate(r, e)} :: e < c.len ==> FateOk(c.fate(r, e))
    ensures SumsAll(c, arr) <==> AllStored(c)
  {
    if AllStored(c) {
      StoredSums(c, arr);
    } else {
      var r: nat, e: nat :| e < c.len && !c.fate(r, e).Stored?;
      var input := NotStoredShows(c, arr, r, e);
      assert !SumFor(c, arr, input);
    }
  }

  // ---- through caches ----

  lemma StoredIs(nodes: nat, dsm: Dsm, len: nat, threshold: real, home: seq<nat>, input: (nat, nat) -> seq<real>, plan: Plan)
    requires Sensible(nodes, dsm, len, home, input) && PlanOk(plan)
    ensures AllStored(PlannedConfig(nodes, dsm, len, threshold, home, input, plan)) <==> PiecesKept(nodes, dsm, len, plan)
  {
    var c := PlannedConfig(nodes, dsm, len, threshold, home, input, plan);
    StoredIffKept(nodes, dsm, len, plan);
    assert forall r: nat, e: nat :: c.fate(r, e).Stored? == StoredAt(nodes, dsm, len, plan, r, e);
  }

  /** Every user's own segment starts inside the vector. */
  ghost predicate AllInside(nodes: nat, dsm: Dsm, len: nat, home: seq<nat>)
    requires nodes > 0
  {
    len == 0 || forall u {:trigger home[u]} :: 0 <= u < |home| ==> StartsInside(nodes, dsm, len, home[u])
  }

  lemma PlannedGuarded(nodes: nat, dsm: Dsm, len: nat, threshold: real, home: seq<nat>, input: (nat, nat) -> seq<real>, plan: Plan)
    requires Sensible(nodes, dsm, len, home, input) && AllInside(nodes, dsm, len, home)
    ensures AllGuarded(PlannedConfig(nodes, dsm, len, threshold, home, input, plan))
  {
    var fate := FatesOf(nodes, dsm, len, plan);
    LayoutOk(nodes, dsm, len, threshold, home, input, fate);
    forall u | 0 <= u < |home| ensures Guard(PlannedConfig(nodes, dsm, len, threshold, home, input, plan), u) {
      GuardIsOwnStart(nodes, dsm, len, threshold, home, input, fate, u);
    }
  }

  /**
  The exact condition in terms of the caches. The users' vectors are summed right, whatever they are, in all
  runs and rounds, if and only if in every flush every block of the segment is homed elsewhere, or resident
  when its turn comes, or holds a single word of the segment.
  */
  lemma EverySumIffKept(nodes: nat, dsm: Dsm, len: nat, threshold: real, home: seq<nat>, input: (nat, nat) -> seq<real>,
                        plan: Plan, arr: seq<real>)
    requires Sensible(nodes, dsm, len, home, input) && AllInside(nodes, dsm, len, home) && PlanOk(plan)
    requires |arr| == len && threshold <= 0.0
    ensures SumsAll(PlannedConfig(nodes, dsm, len, threshold, home, input, plan), arr) <==> PiecesKept(nodes, dsm, len, plan)
  {
    PlannedGuarded(nodes, dsm, len, threshold, home, input, plan);
    StoredIs(nodes, dsm, len, threshold, home, input, plan);
    forall r: nat, e: nat | e < len ensures FateOk(FatesOf(nodes, dsm, len, plan)(r, e)) {
      FlushPlans.FatesOk(nodes, dsm, len, plan, r, e);
    }
    EverySumIffStored(PlannedConfig(nodes, dsm, len, threshold, home, input, plan), arr);
  }

  /** Without a directory cache the sums are right, wherever the users run. */
  lemma NoCacheSums(nodes: nat, dsm: Dsm, len: nat, threshold: real, home: seq<nat>, input: (nat, nat) -> seq<real>, arr: seq<real>)
    requires Sensible(nodes, dsm, len, home, input) && |arr| == len && threshold <= 0.0
    ensures SumsAll(PlannedConfig(nodes, dsm, len, threshold, home, input, (r: nat, n: nat) => Direct), arr)
  {
    var plan := (r: nat, n: nat) => Direct;
    LayoutOk(nodes, dsm, len, threshold, home, input, FatesOf(nodes, dsm, len, plan));
    assert PiecesKept(nodes, dsm, len, plan);
    StoredIs(nodes, dsm, len, threshold, home, input, plan);
    StoredSums(PlannedConfig(nodes, dsm, len, threshold, home, input, plan), arr);
  }

  // ---- an input that fails ----

  /** One node with an empty directory cache, flushing to the array with key `okey`. */
  function ColdPlan(okey: nat, codec: Codec): Plan {
    (r: nat, n: nat) => Cached(CacheChunks.Site(0, 1, 1, []), okey, codec)
  }

  /** One user on it, whose vector is two ones. */
  ghost function ColdConfig(okey: nat, codec: Codec): Config
    ensures Sensible(1, 1, 2, [0], (u: nat, r: nat) => [1.0, 1.0])
  {
    PlannedConfig(1, 1, 2, 0.0, [0], (u: nat, r: nat) => [1.0, 1.0], ColdPlan(okey, codec))
  }

  /** The second word is in a block homed at the node and not resident: WriteMiss passes the first word only. */
  lemma ColdFate(okey: nat, codec: Codec)
    requires CodecOk(codec)
    ensures ColdConfig(okey, codec).fate(0, 1) == Missed
  {
    FatesAre(1, 1, 2, ColdPlan(okey, codec), 0, 1);
    OwnersSegment(1, 1, 2, 1);
    SameOffset(okey, 0);
    SameOffset(okey, 1);
  }

  /** The first round on this node ends with zero where the sum is one. */
  lemma ColdSumIsWrong(okey: nat, codec: Codec) returns (steps: seq<Step>, s: State)
    requires CodecOk(codec)
    ensures Run(ColdConfig(okey, codec), [0.0, 0.0], steps, s) && Settled(ColdConfig(okey, codec), s, 0, 0, 0)
    ensures s.arr[1] == 0.0 && Sum(Inputs(ColdConfig(okey, codec), 0, 1)) == 1.0
  {
    var c := ColdConfig(okey, codec);
    PlannedGuarded(1, 1, 2, 0.0, [0], c.input, ColdPlan(okey, codec));
    ColdFate(okey, codec);
    assert Inputs(c, 0, 1) == [1.0];
    steps, s := LossShows(c, [0.0, 0.0], 0, 1);
    ArrayIsValue(c, [0.0, 0.0], steps, s, 0, 0, 0, 1);
  }
}
