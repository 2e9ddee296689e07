/** Where the directory cache does less than its callers may expect: a write miss at the block's own home stores one word only. */
module CacheLimits {
  import opened BlockProtocol
  import opened Options
  import opened Words

  /** The state after taking the steps in order, if each is possible. */
  function After(s: State, steps: seq<Step>, home: nat): Option<State>
    decreases |steps|
  {
    if steps == [] then Some(s)
    else if Enabled(s, steps[0]) then After(Apply(s, steps[0], home), steps[1..], home)
    else None
  }

  lemma AfterStep(s: State, step: Step, rest: seq<Step>, home: nat)
    requires Enabled(s, step)
    ensures After(s, [step] + rest, home) == After(Apply(s, step, home), rest, home)
  {
    assert ([step] + rest)[1..] == rest;
  }

  // ---- write misses at the home ----

  function PutMissSteps(i: nat): seq<Step> {
    [SendMiss(i), Serve(i), Serve(i), RecvMiss(i)]
  }

  /** A put that missed on node i, with nothing else going on at that node. */
  predicate PutMissed(s: State, i: nat, p: Patch) {
    i < |s.nodes| && s.nodes[i].client == Missing(Put(p)) && s.nodes[i].queue == [] && s.nodes[i].inbox == [] && s.nodes[i].stage == Fresh
    && |s.mem| == BLOCK && p.off + |p.data| <= BLOCK && p.data != []
  }

  lemma PutMissRun(s: State, i: nat, p: Patch, home: nat) returns (s': State)
    requires PutMissed(s, i, p)
    ensures After(s, PutMissSteps(i), home) == Some(s')
    ensures s'.mem == Patched(s.mem, MissPatch(p, i == home)) && i < |s'.nodes| && s'.nodes[i].copy == Some(s'.mem)
  {
    var s1 := Apply(s, SendMiss(i), home);
    var s2 := Apply(s1, Serve(i), home);
    var s3 := Apply(s2, Serve(i), home);
    s' := Apply(s3, RecvMiss(i), home);
    AfterStep(s3, RecvMiss(i), [], home);
    AfterStep(s2, Serve(i), [RecvMiss(i)], home);
    AfterStep(s1, Serve(i), [Serve(i), RecvMiss(i)], home);
    AfterStep(s, SendMiss(i), [Serve(i), Serve(i), RecvMiss(i)], home);
    assert PutMissSteps(i) == [SendMiss(i)] + [Serve(i), Serve(i), RecvMiss(i)];
  }

  /**
  A write miss stores its whole patch exactly when it is not local, or the words after the first
  already had their values; in particular a one-word put is always stored.
  */
  lemma MissStoresPatch(s: State, i: nat, p: Patch, home: nat) returns (s': State)
    requires PutMissed(s, i, p)
    ensures After(s, PutMissSteps(i), home) == Some(s')
    ensures s'.mem == Patched(s.mem, p) <==> i != home || forall k :: 1 <= k < |p.data| ==> s.mem[p.off + k] == p.data[k]
  {
    s' := PutMissRun(s, i, p, home);
    if i == home {
      if s'.mem == Patched(s.mem, p) {
        forall k | 1 <= k < |p.data| ensures s.mem[p.off + k] == p.data[k] {
          assert Patched(s.mem, p)[p.off + k] == p.data[k];
        }
      } else {
        var j :| 0 <= j < BLOCK && s'.mem[j] != Patched(s.mem, p)[j];
        assert j == p.off + (j - p.off);
      }
    }
  }

  /** Two words put on a block homed at the node itself: the second is lost. */
  lemma LocalMissLosesWords() returns (s: State, s': State)
    ensures PutMissed(s, 0, Patch(0, [7, 8])) && After(s, PutMissSteps(0), 0) == Some(s')
    ensures |s'.mem| == BLOCK && s'.mem[0] == 7 && s'.mem[1] == 0
  {
    s := Init(1).(nodes := [Node(None, Missing(Put(Patch(0, [7, 8]))), [], Fresh, [], [])]);
    s' := PutMissRun(s, 0, Patch(0, [7, 8]), 0);
  }
}
