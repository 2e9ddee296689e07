/**
The barrier of one node's threads: a countdown and a generation number under a mutex, with a wait loop
that survives spurious wake-ups. The generation is a 32-bit number and wraps around.
*/
module LocalBarrier {
  import opened Counting
  import opened Words

  datatype Barrier = Barrier(count: nat, generation: nat, reset: nat)

  /** What the last thread to arrive does, and what the others do. */
  function Arrived(b: Barrier): Barrier
    requires b.count > 0
  {
    if b.count == 1 then Barrier(b.reset, Wrap32(b.generation + 1), b.reset) else b.(count := b.count - 1)
  }

  /** LBarrier. Each method is one stretch of count_down_and_wait under the mutex. */
  class LBarrier {
    var count: nat
    var generation: nat
    const reset: nat

    ghost function State(): Barrier
      reads this
    {
      Barrier(count, generation, reset)
    }

    constructor (n: nat)
      requires n > 0
      ensures State() == Barrier(n, 0, n)
    {
      count := n;
      generation := 0;
      reset := n;
    }

    /** Up to the wait loop. `last` says that the caller need not wait. */
    method CountDown() returns (gen: nat, last: bool)
      requires count > 0
      modifies this
      ensures State() == Arrived(old(State())) && gen == old(generation) && (last <==> old(count) == 1)
    {
      gen := generation;
      count := count - 1;
      last := count == 0;
      if last {
        generation := Wrap32(generation + 1);
        count := reset;
      }
    }

    /**
    The loop's test, at the first look and after every wake-up, by thread t of a system whose barrier
    this is: it goes on waiting exactly as long as some thread has not arrived in its round.
    */
    method MustWait(gen: nat, ghost n: nat, ghost steps: seq<Step>, ghost s: System, ghost t: nat) returns (wait: bool)
      requires n > 0 && Path(Init(n), steps, s) && s.barrier == State()
      requires t < |s.threads| && Waiting(s.threads[t]) && gen == s.threads[t].gen
      ensures wait <==> !AllArrived(s, t)
    {
      WaitsForTheRest(n, steps, s, t);
      wait := gen == generation;
    }
  }

  // ---- any number of threads calling it again and again ----

  /** How often a thread has called and returned; while it waits, the generation it remembers. */
  datatype Thread = Thread(calls: nat, finished: nat, gen: nat)

  datatype System = System(barrier: Barrier, threads: seq<Thread>)

  /** Wake(t): thread t looks at the generation, woken or not, and leaves if it changed. */
  datatype Step = Call(t: nat) | Wake(t: nat)

  predicate Waiting(x: Thread) {
    x.calls != x.finished
  }

  function Init(n: nat): System {
    System(Barrier(n, 0, n), seq(n, _ => Thread(0, 0, 0)))
  }

  predicate Enabled(s: System, step: Step) {
    step.t < |s.threads| && s.barrier.count > 0 && (Waiting(s.threads[step.t]) <==> step.Wake?)
  }

  function Apply(s: System, step: Step): System
    requires Enabled(s, step)
  {
    var x := s.threads[step.t];
    match step
    case Call(t) =>
      var x' := if s.barrier.count == 1 then Thread(x.calls + 1, x.finished + 1, s.barrier.generation)
                else Thread(x.calls + 1, x.finished, s.barrier.generation);
      System(Arrived(s.barrier), s.threads[t := x'])
    case Wake(t) =>
      if x.gen == s.barrier.generation then s else s.(threads := s.threads[t := x.(finished := x.calls)])
  }

  // ---- invariant ----

  /** Thread x in a system whose threads have completed `round` rounds together. */
  predicate ThreadOk(x: Thread, round: nat) {
    && (x.finished == x.calls || x.finished + 1 == x.calls)
    && (x.calls == round || x.calls == round + 1)
    && (x.calls == round + 1 ==> Waiting(x) && x.gen == Wrap32(round))
    && (x.calls == round && Waiting(x) ==> round > 0 && x.gen == Wrap32(round - 1))
  }

  /** Which threads have arrived in the current round. */
  function Here(threads: seq<Thread>, round: nat): seq<bool> {
    seq(|threads|, t requires 0 <= t < |threads| => threads[t].calls == round + 1)
  }

  predicate Inv(s: System, round: nat) {
    && |s.threads| == s.barrier.reset > 0 && 1 <= s.barrier.count
    && s.barrier.generation == Wrap32(round)
    && s.barrier.count + Count(Here(s.threads, round)) == s.barrier.reset
    && forall t {:trigger s.threads[t]} :: 0 <= t < |s.threads| ==> ThreadOk(s.threads[t], round)
  }

  lemma InitInv(n: nat)
    requires n > 0
    ensures Inv(Init(n), 0)
  {
    CountNone(Here(Init(n).threads, 0));
  }

  /** The last arrival completes the round. */
  function NextRound(s: System, step: Step, round: nat): nat {
    if step.Call? && s.barrier.count == 1 then round + 1 else round
  }

  lemma Generations(round: nat)
    ensures Wrap32(round) != Wrap32(round + 1) && Wrap32(Wrap32(round) + 1) == Wrap32(round + 1)
  {
  }

  /** The last thread to arrive finds all others arrived. */
  lemma AllHere(s: System, t: nat, round: nat)
    requires Inv(s, round) && Enabled(s, Call(t)) && s.barrier.count == 1
    ensures forall u :: 0 <= u < |s.threads| && u != t ==> s.threads[u].calls == round + 1
  {
    var here := Here(s.threads, round);
    assert !here[t];
    CountSet(here, t);
    CountFull(here[t := true]);
    forall u | 0 <= u < |s.threads| && u != t ensures s.threads[u].calls == round + 1 {
      assert here[t := true][u] == here[u];
    }
  }

  lemma CallInv(s: System, t: nat, round: nat)
    requires Inv(s, round) && Enabled(s, Call(t))
    ensures Inv(Apply(s, Call(t)), NextRound(s, Call(t), round))
  {
    var s' := Apply(s, Call(t));
    Generations(round);
    assert ThreadOk(s.threads[t], round);
    var here := Here(s.threads, round);
    assert !here[t];
    if s.barrier.count == 1 {
      AllHere(s, t, round);
      CountNone(Here(s'.threads, round + 1));
    } else {
      CountSet(here, t);
      assert Here(s'.threads, round) == here[t := true];
    }
  }

  lemma WakeInv(s: System, t: nat, round: nat)
    requires Inv(s, round) && Enabled(s, Wake(t))
    ensures Inv(Apply(s, Wake(t)), round)
  {
    assert ThreadOk(s.threads[t], round);
    assert Here(Apply(s, Wake(t)).threads, round) == Here(s.threads, round);
  }

  // ---- runs ----

  ghost predicate Path(s: System, steps: seq<Step>, s2: System)
    decreases |steps|
  {
    if steps == [] then s2 == s else Enabled(s, steps[0]) && Path(Apply(s, steps[0]), steps[1..], s2)
  }

  lemma {:induction false} PathInv(s: System, round: nat, steps: seq<Step>, s2: System) returns (round2: nat)
    requires Inv(s, round) && Path(s, steps, s2)
    ensures Inv(s2, round2)
    decreases |steps|
  {
    if steps == [] {
      round2 := round;
    } else {
      match steps[0] {
        case Call(t) => CallInv(s, t, round);
        case Wake(t) => WakeInv(s, t, round);
      }
      round2 := PathInv(Apply(s, steps[0]), NextRound(s, steps[0], round), steps[1..], s2);
    }
  }

  /** Any scheduling, any spurious wake-ups: the threads stay within one round of each other, and the count within its bounds. */
  lemma RoundsStayClose(n: nat, steps: seq<Step>, s: System, t: nat, u: nat)
    requires n > 0 && Path(Init(n), steps, s) && t < |s.threads| && u < |s.threads|
    ensures s.threads[t].calls <= s.threads[u].calls + 1 && s.threads[t].finished <= s.threads[u].finished + 1
    ensures 1 <= s.barrier.count <= s.barrier.reset == n == |s.threads|
  {
    InitInv(n);
    var round := PathInv(Init(n), 0, steps, s);
    assert ThreadOk(s.threads[t], round) && ThreadOk(s.threads[u], round);
    ResetKept(Init(n), steps, s);
  }

  lemma {:induction false} ResetKept(s: System, steps: seq<Step>, s2: System)
    requires Path(s, steps, s2)
    ensures s2.barrier.reset == s.barrier.reset && |s2.threads| == |s.threads|
    decreases |steps|
  {
    if steps != [] {
      ResetKept(Apply(s, steps[0]), steps[1..], s2);
    }
  }

  /** A thread that returns from its call number r finds that every thread has called r times. */
  lemma NobodyLeavesEarly(n: nat, steps: seq<Step>, s: System, step: Step, u: nat)
    requires n > 0 && Path(Init(n), steps, s) && Enabled(s, step) && u < |s.threads|
    requires Apply(s, step).threads[step.t].finished > s.threads[step.t].finished
    ensures Apply(s, step).threads[u].calls >= Apply(s, step).threads[step.t].finished
  {
    InitInv(n);
    var round := PathInv(Init(n), 0, steps, s);
    assert ThreadOk(s.threads[step.t], round) && ThreadOk(s.threads[u], round);
    if step.Call? {
      AllHere(s, step.t, round);
    }
  }

  /** Every thread has called at least as often as thread t. */
  predicate AllArrived(s: System, t: nat)
    requires t < |s.threads|
  {
    forall u {:trigger s.threads[u]} :: 0 <= u < |s.threads| ==> s.threads[u].calls >= s.threads[t].calls
  }

  /** The generation a waiting thread remembers is outdated exactly when all threads have arrived in its round. */
  lemma WaitsForTheRest(n: nat, steps: seq<Step>, s: System, t: nat)
    requires n > 0 && Path(Init(n), steps, s) && t < |s.threads| && Waiting(s.threads[t])
    ensures s.threads[t].gen != s.barrier.generation <==> AllArrived(s, t)
  {
    InitInv(n);
    var round := PathInv(Init(n), 0, steps, s);
    assert ThreadOk(s.threads[t], round);
    if s.threads[t].calls == round {
      Generations(round - 1);
      assert forall u :: 0 <= u < |s.threads| ==> ThreadOk(s.threads[u], round);
    } else {
      var here := Here(s.threads, round);
      CountFull(here);
      var u :| 0 <= u < |here| && !here[u];
      assert ThreadOk(s.threads[u], round);
    }
  }

  /** Not everybody can be stuck in the wait loop: some thread is outside, or leaves when it looks. */
  lemma NoDeadlock(n: nat, steps: seq<Step>, s: System)
    requires n > 0 && Path(Init(n), steps, s)
    ensures exists t :: 0 <= t < |s.threads| && (!Waiting(s.threads[t]) || s.threads[t].gen != s.barrier.generation)
  {
    InitInv(n);
    var round := PathInv(Init(n), 0, steps, s);
    var here := Here(s.threads, round);
    CountFull(here);
    var t :| 0 <= t < |here| && !here[t];
    assert ThreadOk(s.threads[t], round);
    if Waiting(s.threads[t]) {
      Generations(round - 1);
    }
  }
}
