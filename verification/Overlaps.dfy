/**
Which operations on one block may overlap. A policy says which kinds of overlap, and of write misses at
the home itself, the clients of a block allow themselves. Reads always return the latest completed puts
exactly under the policy of module Coherence: no put overlaps anything, and such a miss carries one word.
*/
module Overlaps {
  import opened BlockProtocol
  import opened Coherence
  import opened Options
  import opened Words

  /** Whether a get and a put may overlap, two puts may, and a miss at the home may carry several words. */
  datatype Policy = Policy(getWithPut: bool, putWithPut: bool, longMiss: bool)

  predicate GetUnderWay(s: State) {
    exists j {:trigger s.nodes[j]} :: 0 <= j < |s.nodes| && Active(s.nodes[j]) && s.nodes[j].client.op.Get?
  }

  predicate Allows(policy: Policy, s: State, step: Step, home: nat)
    requires Enabled(s, step)
  {
    match step
    case Begin(_, op) =>
      && (op.Put? && GetUnderWay(s) ==> policy.getWithPut)
      && (!NoPut(s) ==> if op.Get? then policy.getWithPut else policy.putWithPut)
    case SendMiss(i) => s.nodes[i].client.op.Put? && i == home && |s.nodes[i].client.op.p.data| != 1 ==> policy.longMiss
    case _ => true
  }

  /** The steps lead from s to s2, and the policy allows them. */
  ghost predicate Obeys(policy: Policy, s: State, steps: seq<Step>, home: nat, s2: State)
    decreases |steps|
  {
    if steps == [] then s2 == s
    else Enabled(s, steps[0]) && Allows(policy, s, steps[0], home) && Obeys(policy, Apply(s, steps[0], home), steps[1..], home, s2)
  }

  /** In every run the policy allows, every read returns what the latest completed puts left. */
  ghost predicate Safe(policy: Policy) {
    forall nodes: nat, home: nat, steps: seq<Step>, s: State, step: Step {:trigger Obeys(policy, Init(nodes), steps, home, s), Enabled(s, step)} ::
      Obeys(policy, Init(nodes), steps, home, s) && Enabled(s, step) && ReadResult(s, step).Some? ==> ReadResult(s, step).value == s.latest
  }

  // ---- what is safe ----

  lemma AllowedIsGuarded(policy: Policy, s: State, step: Step, home: nat)
    requires Enabled(s, step) && Allows(policy, s, step, home) && policy == Policy(false, false, false)
    ensures Guarded(s, step, home)
  {
  }

  lemma {:induction false} ObeysCoherent(policy: Policy, s: State, steps: seq<Step>, home: nat, s2: State)
    requires Coherent(s, home) && Obeys(policy, s, steps, home, s2) && policy == Policy(false, false, false)
    ensures Coherent(s2, home)
    decreases |steps|
  {
    if steps != [] {
      AllowedIsGuarded(policy, s, steps[0], home);
      CoherentStep(s, steps[0], home);
      ObeysCoherent(policy, Apply(s, steps[0], home), steps[1..], home, s2);
    }
  }

  lemma StrictIsSafe()
    ensures Safe(Policy(false, false, false))
  {
    var strict := Policy(false, false, false);
    forall nodes: nat, home: nat, steps: seq<Step>, s: State, step: Step
      | Obeys(strict, Init(nodes), steps, home, s) && Enabled(s, step) && ReadResult(s, step).Some?
      ensures ReadResult(s, step).value == s.latest
    {
      InitCoherent(nodes, home);
      ObeysCoherent(strict, Init(nodes), steps, home, s);
      ReadReturnsLatest(s, step, home);
    }
  }

  // ---- what is not: two nodes, the block's home is node 0 ----

  datatype Run = Run(steps: seq<Step>, s: State)

  ghost predicate Reached(policy: Policy, r: Run) {
    Obeys(policy, Init(2), r.steps, 0, r.s)
  }

  lemma {:induction false} ObeysAppend(policy: Policy, s: State, steps: seq<Step>, home: nat, s2: State, step: Step)
    requires Obeys(policy, s, steps, home, s2) && Enabled(s2, step) && Allows(policy, s2, step, home)
    ensures Obeys(policy, s, steps + [step], home, Apply(s2, step, home))
    decreases |steps|
  {
    if steps == [] {
      assert steps + [step] == [step] && [step][1..] == [];
    } else {
      assert (steps + [step])[1..] == steps[1..] + [step];
      ObeysAppend(policy, Apply(s, steps[0], home), steps[1..], home, s2, step);
    }
  }

  lemma Go(policy: Policy, r: Run, step: Step) returns (r': Run)
    requires Reached(policy, r) && Enabled(r.s, step) && Allows(policy, r.s, step, 0)
    ensures Reached(policy, r') && r'.s == Apply(r.s, step, 0)
  {
    ObeysAppend(policy, Init(2), r.steps, 0, r.s, step);
    r' := Run(r.steps + [step], Apply(r.s, step, 0));
  }

  lemma AtStart(policy: Policy) returns (r: Run)
    ensures Reached(policy, r) && r.s == Init(2) && r.s.nodes == [Resting(None), Resting(None)]
  {
    r := Run([], Init(2));
    assert Init(2).nodes == [Resting(None), Resting(None)];
  }

  function Resting(copy: Option<seq<int>>): Node {
    Node(copy, Idle, [], Fresh, [], [])
  }

  function GetOne(): Op {
    Get(0, 1)
  }

  /** What a phase of a run leaves alone. */
  predicate Same(s: State, s': State) {
    s'.mem == s.mem && s'.latest == s.latest && |s'.nodes| == |s.nodes|
  }

  /** Node i misses a read; the home's answer is under way. */
  lemma AskForBlock(policy: Policy, r: Run, i: nat) returns (r': Run)
    requires Reached(policy, r) && i < |r.s.nodes| == 2 && r.s.nodes[i] == Resting(None) && NoPut(r.s)
    ensures Reached(policy, r') && Same(r.s, r'.s) && r'.s.mask == r.s.mask + {i}
    ensures r'.s.nodes == r.s.nodes[i := Node(None, AwaitMiss(GetOne()), [], Fresh, [Block(r.s.mem)], [])]
  {
    var r1 := Go(policy, r, Begin(i, GetOne()));
    var r2 := Go(policy, r1, Reserve(i));
    var r3 := Go(policy, r2, SendMiss(i));
    assert r3.s.nodes[i].queue == [ReadMiss];
    r' := Go(policy, r3, Serve(i));
    assert r'.s.nodes[i] == Node(None, AwaitMiss(GetOne()), [], Fresh, [Block(r.s.mem)], []);
  }

  lemma GetBlock(policy: Policy, r: Run, i: nat) returns (r': Run)
    requires Reached(policy, r) && i < |r.s.nodes| == 2 && r.s.nodes[i] == Resting(None) && NoPut(r.s)
    ensures Reached(policy, r') && Same(r.s, r'.s) && r'.s.mask == r.s.mask + {i}
    ensures r'.s.nodes == r.s.nodes[i := Resting(Some(r.s.mem))]
  {
    var r1 := AskForBlock(policy, r, i);
    r' := Go(policy, r1, RecvMiss(i));
    assert r'.s.nodes[i] == Resting(Some(r.s.mem));
  }

  /** Node 0, the home, misses a put: its request is there. */
  lemma AskToPut(policy: Policy, r: Run, p: Patch) returns (r': Run)
    requires Reached(policy, r) && |r.s.nodes| == 2 && r.s.nodes[0] == Resting(None) && OpOk(Put(p)) && NoPut(r.s)
    requires (GetUnderWay(r.s) ==> policy.getWithPut) && (|p.data| != 1 ==> policy.longMiss)
    ensures Reached(policy, r') && Same(r.s, r'.s) && r'.s.mask == r.s.mask
    ensures r'.s.nodes == r.s.nodes[0 := Node(None, AwaitMiss(Put(p)), [WriteMiss(MissPatch(p, true))], Fresh, [], [])]
  {
    var r1 := Go(policy, r, Begin(0, Put(p)));
    var r2 := Go(policy, r1, Reserve(0));
    assert r2.s.nodes[0] == Node(None, Missing(Put(p)), [], Fresh, [], []);
    r' := Go(policy, r2, SendMiss(0));
    assert r'.s.nodes[0].queue == [WriteMiss(MissPatch(p, true))];
  }

  /** The home stores the put, renews node 1 if it shares the block, and takes the block itself. */
  lemma PutMissed(policy: Policy, r: Run, p: Patch) returns (r': Run)
    requires Reached(policy, r) && |r.s.nodes| == 2 && r.s.nodes[0] == Resting(None) && OpOk(Put(p)) && NoPut(r.s)
    requires (GetUnderWay(r.s) ==> policy.getWithPut) && (|p.data| != 1 ==> policy.longMiss)
    ensures Reached(policy, r') && |r'.s.nodes| == 2 && r'.s.mask == r.s.mask + {0}
    ensures r'.s.mem == Patched(r.s.mem, MissPatch(p, true)) && r'.s.latest == Patched(r.s.latest, p)
    ensures r'.s.nodes[0] == Resting(Some(r'.s.mem))
    ensures r'.s.nodes[1] == if 1 in r.s.mask then r.s.nodes[1].(renews := [MissPatch(p, true)]) else r.s.nodes[1]
  {
    var r1 := AskToPut(policy, r, p);
    var r2 := Go(policy, r1, Serve(0));
    var r3 := Go(policy, r2, Serve(0));
    assert r3.s.nodes[0].inbox == [Block(r2.s.mem)] && r3.s.nodes[0].queue == [];
    r' := Go(policy, r3, RecvMiss(0));
    assert r'.s.nodes[0] == Resting(Some(r'.s.mem));
    assert r.s.nodes[1].renews == [];
  }

  /** A read of node i's own copy, when no put is under way. */
  lemma ReadCopy(policy: Policy, r: Run, i: nat)
    requires Reached(policy, r) && i < |r.s.nodes| && NoPut(r.s) && r.s.nodes[i].client == Idle && r.s.nodes[i].copy.Some?
    requires r.s.nodes[i].copy.value != r.s.latest
    ensures !Safe(policy)
  {
    var r1 := Go(policy, r, Begin(i, GetOne()));
    assert Obeys(policy, Init(2), r1.steps, 0, r1.s) && Enabled(r1.s, HitGet(i)) && ReadResult(r1.s, HitGet(i)).Some?;
  }

  function Zero(): seq<int> {
    seq(BLOCK, _ => 0)
  }

  /** The renew comes first, then the answer to the read. */
  lemma DropRenew(policy: Policy, r: Run, i: nat, words: seq<int>, p: Patch) returns (r': Run)
    requires Reached(policy, r) && i < |r.s.nodes| == 2 && r.s.nodes[i] == Node(None, AwaitMiss(GetOne()), [], Fresh, [Block(words)], [p])
    ensures Reached(policy, r') && Same(r.s, r'.s) && r'.s.mask == r.s.mask
    ensures r'.s.nodes == r.s.nodes[i := Resting(Some(words))]
  {
    var r1 := Go(policy, r, TakeRenew(i));
    assert r1.s.nodes[i] == Node(None, AwaitMiss(GetOne()), [], Fresh, [Block(words)], []);
    r' := Go(policy, r1, RecvMiss(i));
    assert r'.s.nodes[i] == Resting(Some(words));
  }

  /**
  A get that overlaps a put. Node 1 reads; its answer is under way when node 0, the home, writes 7. The
  renew reaches node 1 before the answer and is dropped, because node 1 has nothing to renew yet. In the
  end all is quiet, the directory is exact, and node 1 holds zero where the completed put left 7.
  */
  lemma OverlapLeavesStaleCopy(policy: Policy) returns (r: Run)
    requires policy.getWithPut
    ensures Reached(policy, r) && Quiet(r.s) && r.s.mask == {0, 1} && r.s.mem == r.s.latest == Patched(Zero(), Patch(0, [7]))
    ensures |r.s.nodes| == 2 && r.s.nodes[1].copy == Some(Zero())
  {
    var seven := Patch(0, [7]);
    var r0 := AtStart(policy);
    var r1 := AskForBlock(policy, r0, 1);
    assert MissPatch(seven, true) == seven;
    var r2 := PutMissed(policy, r1, seven);
    r := DropRenew(policy, r2, 1, Zero(), seven);
  }

  lemma GetWithPutUnsafe(policy: Policy)
    requires policy.getWithPut
    ensures !Safe(policy)
  {
    var r := OverlapLeavesStaleCopy(policy);
    assert Patched(Zero(), Patch(0, [7]))[0] == 7;
    ReadCopy(policy, r, 1);
  }

  /** Two words put on a block homed at the node itself: the second never reaches the backend. */
  lemma LongMissUnsafe(policy: Policy)
    requires policy.longMiss
    ensures !Safe(policy)
  {
    var p := Patch(0, [7, 8]);
    var r0 := AtStart(policy);
    var r := PutMissed(policy, r0, p);
    assert Patched(Zero(), p)[1] == 8 && Patched(Zero(), MissPatch(p, true))[1] == 0;
    ReadCopy(policy, r, 0);
  }

  // ---- two puts ----

  /** Node i has written its copy; its request is with the home. */
  function Writer(copy: seq<int>, p: Patch): Node {
    Node(Some(copy), AwaitWrite(Put(p)), [Write(p)], Fresh, [], [])
  }

  lemma WriteCopy(policy: Policy, r: Run, i: nat, copy: seq<int>, p: Patch) returns (r': Run)
    requires Reached(policy, r) && i < |r.s.nodes| == 2 && r.s.nodes[i] == Resting(Some(copy)) && OpOk(Put(p))
    requires !GetUnderWay(r.s) && (NoPut(r.s) || policy.putWithPut)
    ensures Reached(policy, r') && Same(r.s, r'.s) && r'.s.mask == r.s.mask
    ensures r'.s.nodes == r.s.nodes[i := Writer(Patched(copy, p), p)]
  {
    var r1 := Go(policy, r, Begin(i, Put(p)));
    r' := Go(policy, r1, HitPut(i));
    assert r'.s.nodes[i] == Writer(Patched(copy, p), p);
  }

  /** The home stores node i's put and fixes that node j is to be renewed. */
  lemma StoreAndFan(policy: Policy, r: Run, i: nat, j: nat, copy: seq<int>, p: Patch) returns (r': Run)
    requires Reached(policy, r) && i < |r.s.nodes| == 2 && r.s.nodes[i] == Writer(copy, p) && r.s.mask - {i} == {j}
    ensures Reached(policy, r') && r'.s.mem == Patched(r.s.mem, p) && r'.s.latest == r.s.latest && r'.s.mask == r.s.mask
    ensures r'.s.nodes == r.s.nodes[i := Writer(copy, p).(stage := Fanning({j}))]
  {
    var r1 := Go(policy, r, Serve(i));
    r' := Go(policy, r1, Serve(i));
  }

  /** The renew arrives and the writer gets its acknowledgement. */
  lemma RenewAndFinish(policy: Policy, r: Run, i: nat, j: nat, copy: seq<int>, p: Patch, other: seq<int>) returns (r': Run)
    requires Reached(policy, r) && i < |r.s.nodes| == 2 && j < 2 && i != j
    requires r.s.nodes[i] == Writer(copy, p).(stage := Fanning({j})) && r.s.nodes[j].copy == Some(other) && r.s.nodes[j].renews == []
    ensures Reached(policy, r') && r'.s.mem == r.s.mem && r'.s.latest == Patched(r.s.latest, p) && r'.s.mask == r.s.mask
    ensures |r'.s.nodes| == 2 && r'.s.nodes[i] == Resting(Some(copy))
    ensures r'.s.nodes[j] == r.s.nodes[j].(copy := Some(Patched(other, p)))
  {
    var r1 := Go(policy, r, FanOut(i, j));
    assert r1.s.nodes[i].stage == Fanning({}) && r1.s.nodes[j].renews == [p];
    var r2 := Go(policy, r1, TakeRenew(j));
    r' := Finish(policy, r2, i, copy, p);
  }

  lemma Finish(policy: Policy, r: Run, i: nat, copy: seq<int>, p: Patch) returns (r': Run)
    requires Reached(policy, r) && i < |r.s.nodes| == 2 && r.s.nodes[i] == Writer(copy, p).(stage := Fanning({}))
    ensures Reached(policy, r') && r'.s.mem == r.s.mem && r'.s.latest == Patched(r.s.latest, p) && r'.s.mask == r.s.mask
    ensures r'.s.nodes == r.s.nodes[i := Resting(Some(copy))]
  {
    var r1 := Go(policy, r, Serve(i));
    assert r1.s.nodes[i].queue == [] && r1.s.nodes[i].inbox == [Done];
    r' := Go(policy, r1, RecvWrite(i));
    assert r'.s.nodes[i] == Resting(Some(copy));
  }

  /** Both nodes write their own copies before either put reaches the home; the home serves node 0 first. */
  lemma BothWrite(policy: Policy) returns (r: Run)
    requires policy.putWithPut
    ensures Reached(policy, r) && |r.s.nodes| == 2 && r.s.mask == {0, 1}
    ensures r.s.mem == r.s.latest == Zero()
    ensures r.s.nodes[0] == Writer(Patched(Zero(), Patch(0, [7])), Patch(0, [7]))
    ensures r.s.nodes[1] == Writer(Patched(Zero(), Patch(0, [8])), Patch(0, [8]))
  {
    var r0 := AtStart(policy);
    var r1 := GetBlock(policy, r0, 0);
    var r2 := GetBlock(policy, r1, 1);
    var r3 := WriteCopy(policy, r2, 0, Zero(), Patch(0, [7]));
    r := WriteCopy(policy, r3, 1, Zero(), Patch(0, [8]));
  }

  lemma PutWithPutUnsafe(policy: Policy)
    requires policy.putWithPut
    ensures !Safe(policy)
  {
    var seven, eight := Patch(0, [7]), Patch(0, [8]);
    var r0 := BothWrite(policy);
    assert {0, 1} - {0} == {1} && {0, 1} - {1} == {0};
    var r1 := StoreAndFan(policy, r0, 0, 1, Patched(Zero(), seven), seven);
    var r2 := RenewAndFinish(policy, r1, 0, 1, Patched(Zero(), seven), seven, Patched(Zero(), eight));
    var mine := Patched(Patched(Zero(), eight), seven);
    var r3 := StoreAndFan(policy, r2, 1, 0, mine, eight);
    var r := RenewAndFinish(policy, r3, 1, 0, mine, eight, Patched(Zero(), seven));
    assert mine[0] == 7 && r.s.latest[0] == 8;
    ReadCopy(policy, r, 1);
  }

  // ---- the exact condition ----

  /**
  Every read of every run returns the latest completed puts, if and only if gets do not overlap puts,
  puts do not overlap puts, and misses at the home carry one word. Gets may always overlap gets.
  */
  lemma SafeIff(policy: Policy)
    ensures Safe(policy) <==> !policy.getWithPut && !policy.putWithPut && !policy.longMiss
  {
    if policy.getWithPut {
      GetWithPutUnsafe(policy);
    } else if policy.putWithPut {
      PutWithPutUnsafe(policy);
    } else if policy.longMiss {
      LongMissUnsafe(policy);
    } else {
      StrictIsSafe();
    }
  }
}
