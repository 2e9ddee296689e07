/**
Checkpoints taken inside a barrier: every node writes its own file, the master last, then the master
points to the new files, and each node removes the file before the last. Nodes may crash at any step;
the whole cluster then restarts from the files `.master` names.

A stamp says in which barrier round a file was written: the life of the cluster (it goes up by one with
every restart) and the round within that life.
*/
module Checkpoint {
  import opened Options

  datatype Stamp = Stamp(life: nat, round: nat)

  /** What the `.master` file says, and when it was written. */
  datatype Pointer = Pointer(number: int, stamp: Stamp)

  /** Thread 0 is the master's one entering thread; every slave node has at least one. */
  datatype Config = Config(nodes: nat, home: seq<nat>)

  /** Where a thread is in DCheckpointBarrier::Enter. `own` says that it took the node's checkpoint lock. */
  datatype Pc =
    | Outside
    | Dump               // holds the lock, writes the checkpoint file next
    | Point              // master only: writes .master next
    | Rotate             // removes the old file and counts up next
    | Unlock             // master only
    | ToFirst(own: bool)
    | InFirst(own: bool)
    | FromFirst(own: bool)
    | ToSecond
    | InSecond

  datatype Thread = Thread(pc: Pc, rounds: nat)

  datatype Memory = Memory(cnt: int, locked: bool)

  /** How far the master is with remove_checkpoint_files. */
  datatype Closing = Open | LastGone | BothGone | Closed

  /** `files`, `pointer` survive crashes; the rest does not. `base` is where this life started counting. */
  datatype State = State(
    files: seq<map<int, Stamp>>,
    pointer: Option<Pointer>,
    nodes: seq<Memory>,
    threads: seq<Thread>,
    closing: Closing,
    life: nat,
    base: int,
    failed: bool)

  datatype Step =
    | TryLock(t: nat)
    | DumpFile(t: nat)
    | WritePointer
    | RotateFiles(t: nat)
    | MasterUnlock
    | EnterFirst(t: nat)
    | Resume(t: nat)
    | EnterSecond(t: nat)
    | Close
    | Crash

  predicate Ok(c: Config) {
    && c.nodes > 0 && |c.home| > 0 && c.home[0] == 0
    && (forall t :: 0 <= t < |c.home| ==> c.home[t] < c.nodes && (c.home[t] == 0 <==> t == 0))
    && (forall i {:trigger HasThread(c, i)} :: 0 <= i < c.nodes ==> HasThread(c, i))
  }

  predicate HasThread(c: Config, i: nat) {
    exists t :: 0 <= t < |c.home| && c.home[t] == i
  }

  predicate Shape(c: Config, s: State) {
    |s.files| == |s.nodes| == c.nodes && |s.threads| == |c.home|
  }

  // ---- steps ----

  function Start(c: Config, files: seq<map<int, Stamp>>, pointer: Option<Pointer>, life: nat): State {
    var cnt := if pointer.Some? then pointer.value.number + 1 else 0;
    State(files, pointer, seq(c.nodes, _ => Memory(cnt, false)), seq(|c.home|, _ => Thread(Outside, 0)), Open, life, cnt, false)
  }

  function Init(c: Config): State {
    Start(c, seq(c.nodes, _ => map[]), None, 0)
  }

  predicate Enabled(c: Config, s: State, step: Step) {
    && Ok(c) && Shape(c, s) && !s.failed
    && match step
       case TryLock(t) => t < |s.threads| && s.threads[t].pc == (if t == 0 then FromFirst(false) else Outside)
       case DumpFile(t) => t < |s.threads| && s.threads[t].pc == Dump
       case WritePointer => s.threads[0].pc == Point
       case RotateFiles(t) => t < |s.threads| && s.threads[t].pc == Rotate
       case MasterUnlock => s.threads[0].pc == Unlock
       case EnterFirst(t) =>
         t < |s.threads| && (if t == 0 then s.threads[t].pc == Outside && s.closing == Open else s.threads[t].pc.ToFirst?)
       case Resume(t) => 0 < t < |s.threads| && s.threads[t].pc.FromFirst?
       case EnterSecond(t) => t < |s.threads| && s.threads[t].pc == ToSecond
       case Close => s.threads[0].pc == Outside && s.closing != Closed
       case Crash => true
  }

  function SetPc(s: State, t: nat, pc: Pc): State
    requires t < |s.threads|
  {
    s.(threads := s.threads[t := s.threads[t].(pc := pc)])
  }

  function SetNode(s: State, i: nat, m: Memory): State
    requires i < |s.nodes|
  {
    s.(nodes := s.nodes[i := m])
  }

  predicate Waiting(pc: Pc) {
    pc.InFirst? || pc.InSecond?
  }

  /** DBarrier's contract: the last thread to arrive releases all. */
  function Arrive(s: State, t: nat, pc: Pc): State
    requires t < |s.threads|
  {
    var s' := SetPc(s, t, pc);
    if forall u :: 0 <= u < |s'.threads| ==> Waiting(s'.threads[u].pc) then
      s'.(threads := seq(|s'.threads|, u requires 0 <= u < |s'.threads| => Released(s'.threads[u])))
    else s'
  }

  function Released(x: Thread): Thread {
    if x.pc.InFirst? then x.(pc := FromFirst(x.pc.own)) else Thread(Outside, x.rounds + 1)
  }

  function Apply(c: Config, s: State, step: Step): State
    requires Enabled(c, s, step)
  {
    match step
    case TryLock(t) =>
      if s.nodes[c.home[t]].locked then SetPc(s, t, if t == 0 then ToSecond else ToFirst(false))
      else SetNode(SetPc(s, t, Dump), c.home[t], s.nodes[c.home[t]].(locked := true))
    case DumpFile(t) =>
      var i := c.home[t];
      SetPc(s.(files := s.files[i := s.files[i][s.nodes[i].cnt := Stamp(s.life, s.threads[t].rounds)]]), t, if t == 0 then Point else Rotate)
    case WritePointer => SetPc(s.(pointer := Some(Pointer(s.nodes[0].cnt, Stamp(s.life, s.threads[0].rounds)))), 0, Rotate)
    case RotateFiles(t) =>
      var i := c.home[t];
      var cnt := s.nodes[i].cnt;
      SetNode(SetPc(s.(files := s.files[i := s.files[i] - {cnt - 2}]), t, if t == 0 then Unlock else ToFirst(true)),
              i, s.nodes[i].(cnt := cnt + 1))
    case MasterUnlock => SetNode(SetPc(s, 0, ToSecond), 0, s.nodes[0].(locked := false))
    case EnterFirst(t) => Arrive(s, t, InFirst(t != 0 && s.threads[t].pc.own))
    case Resume(t) =>
      var i := c.home[t];
      SetNode(SetPc(s, t, ToSecond), i, if s.threads[t].pc.own then s.nodes[i].(locked := false) else s.nodes[i])
    case EnterSecond(t) => Arrive(s, t, InSecond)
    case Close =>
      (match s.closing
       case Open => s.(files := s.files[0 := s.files[0] - {s.nodes[0].cnt - 1}], closing := LastGone)
       case LastGone => s.(files := s.files[0 := s.files[0] - {s.nodes[0].cnt - 2}], closing := BothGone)
       case _ => s.(pointer := None, closing := Closed))
    case Crash => if Readable(s) then Start(c, s.files, s.pointer, s.life + 1) else s.(failed := true)
  }

  /** What DoRestart asserts: every node finds the file `.master` names. */
  predicate Readable(s: State) {
    s.pointer.Some? ==> forall i :: 0 <= i < |s.files| ==> s.pointer.value.number in s.files[i]
  }

  // ---- invariant ----

  /** All nodes' files with the pointer's number exist, and were written in the pointer's round. */
  predicate NodeConsistent(s: State, i: nat)
    requires i < |s.files|
  {
    s.pointer.Some? ==> s.pointer.value.number in s.files[i] && s.files[i][s.pointer.value.number] == s.pointer.value.stamp
  }

  ghost predicate Consistent(s: State) {
    forall i {:trigger NodeConsistent(s, i)} :: 0 <= i < |s.files| ==> NodeConsistent(s, i)
  }

  function Round(s: State): nat
    requires |s.threads| > 0
  {
    s.threads[0].rounds
  }

  /** Node i has the file of the current round. */
  predicate HasFile(s: State, i: nat)
    requires i < |s.files| && |s.threads| > 0
  {
    s.base + Round(s) in s.files[i] && s.files[i][s.base + Round(s)] == Stamp(s.life, Round(s))
  }

  /** The first half of a round: slaves take their checkpoints, the master waits. */
  predicate FirstHalf(s: State)
    requires |s.threads| > 0
  {
    s.threads[0].pc == Outside || s.threads[0].pc.InFirst?
  }

  predicate Owner(pc: Pc) {
    pc == Dump || pc == Rotate || pc == ToFirst(true) || pc == InFirst(true) || pc == FromFirst(true)
  }

  predicate SlaveOk(c: Config, s: State, t: nat)
    requires Shape(c, s) && 0 < t < |s.threads| && c.home[t] < c.nodes
  {
    var (pc, i) := (s.threads[t].pc, c.home[t]);
    && s.threads[t].rounds == Round(s)
    && (if FirstHalf(s) then
          && (pc == Outside || pc == Dump || pc == Rotate || pc.ToFirst? || pc.InFirst?)
          && (pc != Outside ==> s.nodes[i].locked)
          && (pc == Dump ==> s.nodes[i].cnt == s.base + Round(s))
          && (pc == Rotate ==> s.nodes[i].cnt == s.base + Round(s) && HasFile(s, i))
          && (pc == ToFirst(true) || pc == InFirst(true) ==> s.nodes[i].cnt == s.base + Round(s) + 1 && HasFile(s, i))
        else pc.FromFirst? || pc == ToSecond || pc == InSecond)
  }

  predicate OwnedBy(c: Config, s: State, t: nat, i: nat) {
    0 < t < |s.threads| == |c.home| && c.home[t] == i && Owner(s.threads[t].pc)
  }

  ghost predicate NodeOk(c: Config, s: State, i: nat)
    requires Shape(c, s) && 0 < i < c.nodes && |s.threads| > 0
  {
    && (s.nodes[i].locked ==> exists t {:trigger OwnedBy(c, s, t, i)} :: OwnedBy(c, s, t, i))
    && (if FirstHalf(s) then !s.nodes[i].locked ==> s.nodes[i].cnt == s.base + Round(s)
        else s.nodes[i].cnt == s.base + Round(s) + 1 && HasFile(s, i))
  }

  predicate OneOwner(c: Config, s: State)
    requires |c.home| == |s.threads|
  {
    forall t, u {:trigger c.home[t], c.home[u]} :: 0 < t < u < |c.home| && c.home[t] == c.home[u] ==>
      !(Owner(s.threads[t].pc) && Owner(s.threads[u].pc))
  }

  predicate MasterOk(c: Config, s: State)
    requires Shape(c, s) && c.nodes > 0 && |s.threads| > 0
  {
    var (pc, m) := (s.threads[0].pc, s.nodes[0]);
    && (pc == Outside || pc == InFirst(false) || pc == FromFirst(false) || pc == Dump || pc == Point || pc == Rotate || pc == Unlock
        || pc == ToSecond || pc == InSecond)
    && (m.locked <==> pc == Dump || pc == Point || pc == Rotate || pc == Unlock)
    && m.cnt == s.base + Round(s) + (if pc == Unlock || pc == ToSecond || pc == InSecond then 1 else 0)
    && (pc == Point || pc == Rotate || pc == Unlock || pc == ToSecond || pc == InSecond ==> HasFile(s, 0))
  }

  /** `.master` names the previous round until the master has written it. */
  predicate PointerOk(s: State)
    requires |s.threads| > 0
  {
    var pc := s.threads[0].pc;
    if pc == Rotate || pc == Unlock || pc == ToSecond || pc == InSecond then
      s.pointer == Some(Pointer(s.base + Round(s), Stamp(s.life, Round(s))))
    else
      && (s.pointer.Some? ==> s.pointer.value.number == s.base + Round(s) - 1)
      && (Round(s) > 0 && s.closing != Closed ==> s.pointer == Some(Pointer(s.base + Round(s) - 1, Stamp(s.life, (Round(s) - 1) as nat))))
  }

  /** The master is between removing its own file and removing the pointer to it. */
  predicate Dangling(s: State) {
    (s.closing == LastGone || s.closing == BothGone) && s.pointer.Some?
  }

  ghost predicate Inv(c: Config, s: State) {
    && Ok(c) && Shape(c, s) && !s.failed
    && MasterOk(c, s) && PointerOk(s) && OneOwner(c, s)
    && (forall t {:trigger SlaveOk(c, s, t)} :: 0 < t < |s.threads| ==> SlaveOk(c, s, t))
    && (forall i {:trigger NodeOk(c, s, i)} :: 0 < i < c.nodes ==> NodeOk(c, s, i))
    && (forall i {:trigger NodeConsistent(s, i)} :: 0 < i < c.nodes ==> NodeConsistent(s, i))
    && (if Dangling(s) then s.pointer.value.number !in s.files[0] else NodeConsistent(s, 0))
    && (s.closing != Open ==> s.threads[0].pc == Outside) && (s.closing == Closed ==> s.pointer == None)
  }

  // ---- steps keep the invariant ----

  lemma StartInv(c: Config, files: seq<map<int, Stamp>>, pointer: Option<Pointer>, life: nat)
    requires Ok(c) && |files| == c.nodes
    requires pointer.Some? ==> forall i :: 0 <= i < c.nodes ==>
      pointer.value.number in files[i] && files[i][pointer.value.number] == pointer.value.stamp
    ensures Inv(c, Start(c, files, pointer, life))
  {
  }

  lemma InitInv(c: Config)
    requires Ok(c)
    ensures Inv(c, Init(c))
  {
    StartInv(c, seq(c.nodes, _ => map[]), None, 0);
  }

  /** Recovery finds all its files, all of one round, exactly when the master is not half closed. */
  lemma RecoverableIffNotDangling(c: Config, s: State)
    requires Inv(c, s)
    ensures Consistent(s) <==> !Dangling(s)
    ensures Readable(s) <==> !Dangling(s)
  {
    if Dangling(s) {
      assert !NodeConsistent(s, 0);
    } else {
      forall i | 0 <= i < |s.files| ensures NodeConsistent(s, i) {
      }
      if s.pointer.Some? {
        forall i | 0 <= i < |s.files| ensures s.pointer.value.number in s.files[i] {
          assert NodeConsistent(s, i);
        }
      }
    }
  }

  /** Thread t of slave node i moves on; it may only touch the count and files if it owns the node's lock. */
  predicate SlaveMove(c: Config, s: State, s': State, t: nat) {
    && Ok(c) && Shape(c, s) && Shape(c, s') && 0 < t < |s.threads| && !s'.failed
    && s' == s.(threads := s.threads[t := s'.threads[t]], nodes := s.nodes[c.home[t] := s'.nodes[c.home[t]]],
                files := s.files[c.home[t] := s'.files[c.home[t]]])
    && s'.threads[t].rounds == s.threads[t].rounds
    && (Owner(s.threads[t].pc) || (s'.nodes[c.home[t]].cnt == s.nodes[c.home[t]].cnt && s'.files[c.home[t]] == s.files[c.home[t]]))
  }

  lemma OtherSlave(c: Config, s: State, s': State, t: nat, u: nat)
    requires Inv(c, s) && SlaveMove(c, s, s', t) && 0 < u < |s.threads| && u != t
    requires s.nodes[c.home[t]].locked && FirstHalf(s) ==> s'.nodes[c.home[t]].locked
    ensures SlaveOk(c, s', u)
  {
    assert SlaveOk(c, s, u);
    assert c.home[u] == c.home[t] && Owner(s.threads[t].pc) ==> !Owner(s.threads[u].pc);
  }

  lemma OtherNode(c: Config, s: State, s': State, t: nat, j: nat)
    requires Inv(c, s) && SlaveMove(c, s, s', t) && 0 < j < c.nodes && j != c.home[t]
    ensures NodeOk(c, s', j) && NodeConsistent(s', j)
  {
    assert NodeOk(c, s, j) && NodeConsistent(s, j);
    if s.nodes[j].locked {
      var u :| OwnedBy(c, s, u, j);
      assert OwnedBy(c, s', u, j);
    }
  }

  lemma SlaveMoveInv(c: Config, s: State, s': State, t: nat)
    requires Inv(c, s) && SlaveMove(c, s, s', t)
    requires s.nodes[c.home[t]].locked && FirstHalf(s) ==> s'.nodes[c.home[t]].locked
    requires SlaveOk(c, s', t) && NodeOk(c, s', c.home[t]) && NodeConsistent(s', c.home[t]) && OneOwner(c, s')
    ensures Inv(c, s')
  {
    forall u | 0 < u < |s.threads| ensures SlaveOk(c, s', u) {
      if u != t {
        OtherSlave(c, s, s', t, u);
      }
    }
    forall j | 0 < j < c.nodes ensures NodeOk(c, s', j) && NodeConsistent(s', j) {
      if j != c.home[t] {
        OtherNode(c, s, s', t, j);
      }
    }
  }

  /** A node whose lock is free has no owner; one whose owner moves on keeps it. */
  lemma NewOwner(c: Config, s: State, s': State, t: nat)
    requires Inv(c, s) && SlaveMove(c, s, s', t)
    requires Owner(s'.threads[t].pc) ==> Owner(s.threads[t].pc) || (FirstHalf(s) && !s.nodes[c.home[t]].locked)
    ensures OneOwner(c, s')
  {
    forall u, w | 0 < u < w < |c.home| && c.home[u] == c.home[w] ensures !(Owner(s'.threads[u].pc) && Owner(s'.threads[w].pc)) {
      assert SlaveOk(c, s, u) && SlaveOk(c, s, w);
    }
  }

  lemma StillOwned(c: Config, s: State, s': State, t: nat)
    requires Inv(c, s) && SlaveMove(c, s, s', t) && s'.nodes[c.home[t]].locked
    requires Owner(s'.threads[t].pc) || (s.nodes[c.home[t]].locked && !Owner(s.threads[t].pc))
    ensures exists u {:trigger OwnedBy(c, s', u, c.home[t])} :: OwnedBy(c, s', u, c.home[t])
  {
    if Owner(s'.threads[t].pc) {
      assert OwnedBy(c, s', t, c.home[t]);
    } else {
      assert NodeOk(c, s, c.home[t]);
      var u :| OwnedBy(c, s, u, c.home[t]);
      assert OwnedBy(c, s', u, c.home[t]);
    }
  }

  lemma TryLockSlave(c: Config, s: State, t: nat)
    requires Inv(c, s) && Enabled(c, s, TryLock(t)) && t > 0
    ensures Inv(c, Apply(c, s, TryLock(t)))
  {
    var (s', i) := (Apply(c, s, TryLock(t)), c.home[t]);
    assert SlaveOk(c, s, t) && NodeOk(c, s, i) && NodeConsistent(s, i);
    NewOwner(c, s, s', t);
    StillOwned(c, s, s', t);
    SlaveMoveInv(c, s, s', t);
  }

  lemma SlaveFilesMove(c: Config, s: State, step: Step)
    requires Inv(c, s) && Enabled(c, s, step) && (step.DumpFile? || step.RotateFiles?) && step.t > 0
    ensures var (s', t) := (Apply(c, s, step), step.t);
      && SlaveMove(c, s, s', t) && s'.nodes[c.home[t]].locked && s.nodes[c.home[t]].locked
      && Owner(s.threads[t].pc) && Owner(s'.threads[t].pc)
  {
    assert SlaveOk(c, s, step.t) && NodeOk(c, s, c.home[step.t]);
  }

  lemma SlaveFilesOk(c: Config, s: State, step: Step)
    requires Inv(c, s) && Enabled(c, s, step) && (step.DumpFile? || step.RotateFiles?) && step.t > 0
    requires exists u {:trigger OwnedBy(c, Apply(c, s, step), u, c.home[step.t])} :: OwnedBy(c, Apply(c, s, step), u, c.home[step.t])
    ensures var (s', t) := (Apply(c, s, step), step.t);
      SlaveOk(c, s', t) && NodeOk(c, s', c.home[t]) && NodeConsistent(s', c.home[t])
  {
    var i := c.home[step.t];
    assert SlaveOk(c, s, step.t) && NodeOk(c, s, i) && NodeConsistent(s, i);
  }

  /** Writing this round's file and removing the one before the last leaves the pointed one alone. */
  lemma SlaveFiles(c: Config, s: State, step: Step)
    requires Inv(c, s) && Enabled(c, s, step) && (step.DumpFile? || step.RotateFiles?) && step.t > 0
    ensures Inv(c, Apply(c, s, step))
  {
    var (s', t) := (Apply(c, s, step), step.t);
    SlaveFilesMove(c, s, step);
    NewOwner(c, s, s', t);
    StillOwned(c, s, s', t);
    SlaveFilesOk(c, s, step);
    SlaveMoveInv(c, s, s', t);
  }

  lemma ResumeInv(c: Config, s: State, t: nat)
    requires Inv(c, s) && Enabled(c, s, Resume(t))
    ensures Inv(c, Apply(c, s, Resume(t)))
  {
    var s' := Apply(c, s, Resume(t));
    ResumeOk(c, s, t);
    NewOwner(c, s, s', t);
    SlaveMoveInv(c, s, s', t);
  }

  lemma ResumeOk(c: Config, s: State, t: nat)
    requires Inv(c, s) && Enabled(c, s, Resume(t))
    ensures var s' := Apply(c, s, Resume(t));
      && SlaveMove(c, s, s', t) && !FirstHalf(s) && !Owner(s'.threads[t].pc)
      && SlaveOk(c, s', t) && NodeOk(c, s', c.home[t]) && NodeConsistent(s', c.home[t])
  {
    var (s', i) := (Apply(c, s, Resume(t)), c.home[t]);
    assert SlaveOk(c, s, t) && NodeOk(c, s, i) && NodeConsistent(s, i);
    if s'.nodes[i].locked {
      StillOwned(c, s, s', t);
    }
  }

  lemma TryLockMaster(c: Config, s: State)
    requires Inv(c, s) && Enabled(c, s, TryLock(0))
    ensures Inv(c, Apply(c, s, TryLock(0)))
  {
    var s' := Apply(c, s, TryLock(0));
    MasterAlone(c, s, s');
  }

  /** Steps of the master inside the second half touch node 0 only. */
  lemma MasterAlone(c: Config, s: State, s': State)
    requires Inv(c, s) && Shape(c, s') && !s'.failed && s'.closing == s.closing && s'.life == s.life && s'.base == s.base
    requires s'.threads == s.threads[0 := s'.threads[0]] && s'.nodes == s.nodes[0 := s'.nodes[0]] && s'.files == s.files[0 := s'.files[0]]
    requires s'.threads[0].rounds == s.threads[0].rounds && !FirstHalf(s) && !FirstHalf(s')
    requires MasterOk(c, s') && PointerOk(s') && s.closing == Open
    requires s'.pointer == s.pointer || s'.pointer == Some(Pointer(s.base + Round(s), Stamp(s.life, Round(s))))
    requires NodeConsistent(s', 0)
    ensures Inv(c, s')
  {
    forall u | 0 < u < |s.threads| ensures SlaveOk(c, s', u) {
      assert SlaveOk(c, s, u);
    }
    forall j | 0 < j < c.nodes ensures NodeOk(c, s', j) && NodeConsistent(s', j) {
      assert NodeOk(c, s, j) && NodeConsistent(s, j);
      if s.nodes[j].locked {
        var u :| OwnedBy(c, s, u, j);
        assert OwnedBy(c, s', u, j);
      }
    }
  }

  lemma MasterSteps(c: Config, s: State, step: Step)
    requires Inv(c, s) && Enabled(c, s, step)
    requires step == DumpFile(0) || step == WritePointer || step == RotateFiles(0) || step == MasterUnlock
    ensures Inv(c, Apply(c, s, step))
  {
    MasterAlone(c, s, Apply(c, s, step));
  }

  // ---- the barrier ----

  lemma SlaveArrives(c: Config, s: State, t: nat, pc: Pc)
    requires Inv(c, s) && 0 < t < |s.threads|
    requires (s.threads[t].pc.ToFirst? && pc == InFirst(s.threads[t].pc.own)) || (s.threads[t].pc == ToSecond && pc == InSecond)
    ensures Inv(c, SetPc(s, t, pc))
  {
    var (s', i) := (SetPc(s, t, pc), c.home[t]);
    assert SlaveOk(c, s, t) && NodeOk(c, s, i) && NodeConsistent(s, i);
    NewOwner(c, s, s', t);
    if s'.nodes[i].locked {
      StillOwned(c, s, s', t);
    }
    SlaveMoveInv(c, s, s', t);
  }

  lemma MasterArrives(c: Config, s: State, pc: Pc)
    requires Inv(c, s)
    requires (s.threads[0].pc == Outside && s.closing == Open && pc == InFirst(false)) || (s.threads[0].pc == ToSecond && pc == InSecond)
    ensures Inv(c, SetPc(s, 0, pc))
  {
    var s' := SetPc(s, 0, pc);
    forall u | 0 < u < |s.threads| ensures SlaveOk(c, s', u) {
      assert SlaveOk(c, s, u);
    }
    forall j | 0 < j < c.nodes ensures NodeOk(c, s', j) && NodeConsistent(s', j) {
      assert NodeConsistent(s, j);
      MasterMovesNode(c, s, pc, j);
    }
  }

  /** The master's moves within a half leave the slave nodes in order. */
  lemma MasterMovesNode(c: Config, s: State, pc: Pc, j: nat)
    requires Inv(c, s) && 0 < j < c.nodes && FirstHalf(SetPc(s, 0, pc)) == FirstHalf(s)
    ensures NodeOk(c, SetPc(s, 0, pc), j)
  {
    assert NodeOk(c, s, j);
    if s.nodes[j].locked {
      var u :| OwnedBy(c, s, u, j);
      assert OwnedBy(c, SetPc(s, 0, pc), u, j);
    }
  }

  predicate AllWaiting(s: State) {
    forall u :: 0 <= u < |s.threads| ==> Waiting(s.threads[u].pc)
  }

  function ReleaseAll(s: State): State {
    s.(threads := seq(|s.threads|, u requires 0 <= u < |s.threads| => Released(s.threads[u])))
  }

  /** Everybody waits for the same half of the same round. */
  lemma SameHalf(c: Config, s: State)
    requires Inv(c, s) && AllWaiting(s)
    ensures s.closing == Open
    ensures if s.threads[0].pc.InFirst? then forall u :: 0 <= u < |s.threads| ==> s.threads[u].pc.InFirst?
            else forall u :: 0 <= u < |s.threads| ==> s.threads[u].pc == InSecond
  {
    forall u | 0 < u < |s.threads| ensures s.threads[u].pc.InFirst? <==> s.threads[0].pc.InFirst? {
      assert SlaveOk(c, s, u);
    }
  }

  /** When all have arrived, every slave node has its file of this round. */
  lemma FileReady(c: Config, s: State, j: nat)
    requires Inv(c, s) && AllWaiting(s) && s.threads[0].pc.InFirst? && 0 < j < c.nodes
    ensures s.nodes[j].cnt == s.base + Round(s) + 1 && HasFile(s, j)
    ensures exists u: nat {:trigger OwnedBy(c, s, u, j)} :: OwnedBy(c, s, u, j) && s.threads[u].pc == InFirst(true)
  {
    SameHalf(c, s);
    assert HasThread(c, j) && NodeOk(c, s, j);
    var t :| 0 <= t < |c.home| && c.home[t] == j;
    assert SlaveOk(c, s, t) && s.nodes[j].locked;
    var u :| OwnedBy(c, s, u, j);
    assert SlaveOk(c, s, u);
  }

  lemma ReleaseFirst(c: Config, s: State)
    requires Inv(c, s) && AllWaiting(s) && s.threads[0].pc.InFirst?
    ensures Inv(c, ReleaseAll(s))
  {
    var s' := ReleaseAll(s);
    SameHalf(c, s);
    forall u | 0 < u < |s.threads| ensures SlaveOk(c, s', u) {
      assert SlaveOk(c, s, u);
    }
    forall j | 0 < j < c.nodes ensures NodeOk(c, s', j) && NodeConsistent(s', j) {
      assert NodeConsistent(s, j);
      ReleasedNode(c, s, j);
    }
  }

  lemma ReleasedNode(c: Config, s: State, j: nat)
    requires Inv(c, s) && AllWaiting(s) && s.threads[0].pc.InFirst? && 0 < j < c.nodes
    ensures NodeOk(c, ReleaseAll(s), j)
  {
    FileReady(c, s, j);
    var u: nat :| OwnedBy(c, s, u, j) && s.threads[u].pc == InFirst(true);
    assert OwnedBy(c, ReleaseAll(s), u, j);
  }

  lemma ReleaseSecond(c: Config, s: State)
    requires Inv(c, s) && AllWaiting(s) && s.threads[0].pc == InSecond
    ensures Inv(c, ReleaseAll(s))
  {
    var s' := ReleaseAll(s);
    SameHalf(c, s);
    forall u | 0 < u < |s.threads| ensures SlaveOk(c, s', u) && !Owner(s.threads[u].pc) {
      assert SlaveOk(c, s, u);
    }
    forall j | 0 < j < c.nodes ensures NodeOk(c, s', j) && NodeConsistent(s', j) {
      assert NodeOk(c, s, j) && NodeConsistent(s, j);
    }
  }

  lemma ArriveInv(c: Config, s: State, t: nat, pc: Pc)
    requires t < |s.threads| && Inv(c, SetPc(s, t, pc))
    ensures Inv(c, Arrive(s, t, pc))
  {
    var s1 := SetPc(s, t, pc);
    if AllWaiting(s1) {
      if s1.threads[0].pc.InFirst? {
        ReleaseFirst(c, s1);
      } else {
        ReleaseSecond(c, s1);
      }
    }
  }

  lemma EnterInv(c: Config, s: State, step: Step)
    requires Inv(c, s) && Enabled(c, s, step) && (step.EnterFirst? || step.EnterSecond?)
    ensures Inv(c, Apply(c, s, step))
  {
    var t := step.t;
    var pc := if step.EnterSecond? then InSecond else InFirst(t != 0 && s.threads[t].pc.own);
    if t == 0 {
      MasterArrives(c, s, pc);
    } else {
      SlaveArrives(c, s, t, pc);
    }
    ArriveInv(c, s, t, pc);
  }

  /** Closing touches the master's files and pointer only. */
  lemma CloseOthers(c: Config, s: State, s': State)
    requires Inv(c, s) && FirstHalf(s) && |s'.files| == |s.files|
    requires s' == s.(files := s.files[0 := s'.files[0]], pointer := s'.pointer, closing := s'.closing)
    requires s'.pointer == s.pointer || s'.pointer == None
    ensures forall u {:trigger SlaveOk(c, s', u)} :: 0 < u < |s.threads| ==> SlaveOk(c, s', u)
    ensures forall j {:trigger NodeOk(c, s', j)} :: 0 < j < c.nodes ==> NodeOk(c, s', j)
    ensures forall j {:trigger NodeConsistent(s', j)} :: 0 < j < c.nodes ==> NodeConsistent(s', j)
  {
    forall u | 0 < u < |s.threads| ensures SlaveOk(c, s', u) {
      assert SlaveOk(c, s, u);
    }
    forall j | 0 < j < c.nodes ensures NodeOk(c, s', j) && NodeConsistent(s', j) {
      assert NodeOk(c, s, j) && NodeConsistent(s, j);
      if s.nodes[j].locked {
        var u :| OwnedBy(c, s, u, j);
        assert OwnedBy(c, s', u, j);
      }
    }
  }

  lemma CloseInv(c: Config, s: State)
    requires Inv(c, s) && Enabled(c, s, Close)
    ensures Inv(c, Apply(c, s, Close))
  {
    CloseOthers(c, s, Apply(c, s, Close));
  }

  /** A crash with the pointer dangling. */
  predicate Fatal(s: State, step: Step) {
    step == Crash && Dangling(s)
  }

  lemma CrashInv(c: Config, s: State)
    requires Inv(c, s) && Enabled(c, s, Crash) && !Dangling(s)
    ensures Inv(c, Apply(c, s, Crash))
  {
    RecoverableIffNotDangling(c, s);
    if s.pointer.Some? {
      forall i | 0 <= i < c.nodes ensures s.files[i][s.pointer.value.number] == s.pointer.value.stamp {
        assert NodeConsistent(s, i);
      }
    }
    StartInv(c, s.files, s.pointer, s.life + 1);
  }

  lemma StepInv(c: Config, s: State, step: Step)
    requires Inv(c, s) && Enabled(c, s, step) && !Fatal(s, step)
    ensures Inv(c, Apply(c, s, step))
  {
    match step
    case TryLock(t) => if t == 0 { TryLockMaster(c, s); } else { TryLockSlave(c, s, t); }
    case DumpFile(t) => if t == 0 { MasterSteps(c, s, step); } else { SlaveFiles(c, s, step); }
    case WritePointer => MasterSteps(c, s, step);
    case RotateFiles(t) => if t == 0 { MasterSteps(c, s, step); } else { SlaveFiles(c, s, step); }
    case MasterUnlock => MasterSteps(c, s, step);
    case EnterFirst(_) => EnterInv(c, s, step);
    case Resume(t) => ResumeInv(c, s, t);
    case EnterSecond(_) => EnterInv(c, s, step);
    case Close => CloseInv(c, s);
    case Crash => CrashInv(c, s);
  }

  // ---- runs ----

  /** `steps` leads from s to s2. */
  ghost predicate Path(c: Config, s: State, steps: seq<Step>, s2: State)
    decreases |steps|
  {
    if steps == [] then s2 == s else Enabled(c, s, steps[0]) && Path(c, Apply(c, s, steps[0]), steps[1..], s2)
  }

  /** No crash hits the master between removing its last file and removing the pointer. */
  ghost predicate Spared(c: Config, s: State, steps: seq<Step>)
    decreases |steps|
  {
    steps == [] || (Enabled(c, s, steps[0]) && !Fatal(s, steps[0]) && Spared(c, Apply(c, s, steps[0]), steps[1..]))
  }

  lemma {:induction false} PathInv(c: Config, s: State, steps: seq<Step>, s2: State)
    requires Inv(c, s) && Path(c, s, steps, s2) && Spared(c, s, steps)
    ensures Inv(c, s2)
    decreases |steps|
  {
    if steps != [] {
      StepInv(c, s, steps[0]);
      PathInv(c, Apply(c, s, steps[0]), steps[1..], s2);
    }
  }

  /**
  Crash consistency: whatever crashes and restarts happened, if `.master` says m, every node has a
  file m and all of them were written in the pointer's barrier round; except, and exactly, while the
  master is closing and has removed its own file but not yet the pointer.
  */
  lemma CheckpointsAreConsistent(c: Config, steps: seq<Step>, s: State)
    requires Ok(c) && Path(c, Init(c), steps, s) && Spared(c, Init(c), steps)
    ensures Consistent(s) <==> !Dangling(s)
    ensures !s.failed && (Readable(s) <==> !Dangling(s))
  {
    InitInv(c);
    PathInv(c, Init(c), steps, s);
    RecoverableIffNotDangling(c, s);
  }

  /** So a restart fails exactly when the crash came at that moment. */
  lemma RestartFailsIff(c: Config, steps: seq<Step>, s: State)
    requires Ok(c) && Path(c, Init(c), steps, s) && Spared(c, Init(c), steps)
    ensures Enabled(c, s, Crash) && (Apply(c, s, Crash).failed <==> Dangling(s))
  {
    InitInv(c);
    PathInv(c, Init(c), steps, s);
    RecoverableIffNotDangling(c, s);
  }

  /** Rotation never removes the file that recovery would read. */
  lemma RotationSparesPointed(c: Config, steps: seq<Step>, s: State, t: nat)
    requires Ok(c) && Path(c, Init(c), steps, s) && Spared(c, Init(c), steps) && Enabled(c, s, RotateFiles(t)) && s.pointer.Some?
    ensures s.nodes[c.home[t]].cnt - 2 != s.pointer.value.number
    ensures NodeConsistent(s, c.home[t]) && NodeConsistent(Apply(c, s, RotateFiles(t)), c.home[t])
  {
    InitInv(c);
    PathInv(c, Init(c), steps, s);
    if t > 0 {
      assert SlaveOk(c, s, t) && NodeConsistent(s, c.home[t]);
    }
  }

  lemma PathStep(c: Config, s: State, step: Step, rest: seq<Step>, s2: State)
    requires Enabled(c, s, step) && Path(c, Apply(c, s, step), rest, s2)
    ensures Path(c, s, [step] + rest, s2)
  {
    assert ([step] + rest)[1..] == rest;
  }

  /** One node alone, after its first checkpoint round. */
  function AfterOneRound(): State {
    State([map[0 := Stamp(0, 0)]], Some(Pointer(0, Stamp(0, 0))), [Memory(1, false)], [Thread(Outside, 1)], Open, 0, 0, false)
  }

  function Alone(): Config {
    Config(1, [0])
  }

  lemma FirstSteps(rest: seq<Step>, s: State)
    requires Path(Alone(), AfterOneRound().(pointer := None, nodes := [Memory(0, true)], threads := [Thread(Point, 0)]), rest, s)
    ensures Path(Alone(), Init(Alone()), [EnterFirst(0)] + ([TryLock(0)] + ([DumpFile(0)] + rest)), s)
  {
    var c := Alone();
    var s0 := Init(c);
    assert s0.nodes == [Memory(0, false)] && s0.threads == [Thread(Outside, 0)] && s0.files == [map[]];
    var s1 := Apply(c, s0, EnterFirst(0));
    assert s1.threads == [Thread(FromFirst(false), 0)];
    var s2 := Apply(c, s1, TryLock(0));
    assert s2.threads == [Thread(Dump, 0)] && s2.nodes == [Memory(0, true)];
    var s3 := Apply(c, s2, DumpFile(0));
    assert s3.files == [map[0 := Stamp(0, 0)]] && s3.threads == [Thread(Point, 0)];
    PathStep(c, s2, DumpFile(0), rest, s);
    PathStep(c, s1, TryLock(0), [DumpFile(0)] + rest, s);
    PathStep(c, s0, EnterFirst(0), [TryLock(0)] + ([DumpFile(0)] + rest), s);
  }

  /** The same node, having written the pointer and rotated its files. */
  function Rotated(): State {
    AfterOneRound().(nodes := [Memory(1, true)], threads := [Thread(Unlock, 0)])
  }

  lemma PointerSteps(rest: seq<Step>, s: State)
    requires Path(Alone(), Rotated(), rest, s)
    ensures Path(Alone(), AfterOneRound().(pointer := None, nodes := [Memory(0, true)], threads := [Thread(Point, 0)]),
                 [WritePointer] + ([RotateFiles(0)] + rest), s)
  {
    var c := Alone();
    var s3 := AfterOneRound().(pointer := None, nodes := [Memory(0, true)], threads := [Thread(Point, 0)]);
    var s4 := Apply(c, s3, WritePointer);
    assert s4.threads == [Thread(Rotate, 0)];
    var s5 := Apply(c, s4, RotateFiles(0));
    var file: map<int, Stamp> := map[0 := Stamp(0, 0)];
    assert file - {-2} == file;
    assert s5.threads == [Thread(Unlock, 0)] && s5.nodes == [Memory(1, true)] && s5.files == [file];
    PathStep(c, s4, RotateFiles(0), rest, s);
    PathStep(c, s3, WritePointer, [RotateFiles(0)] + rest, s);
  }

  lemma LastSteps(rest: seq<Step>, s: State)
    requires Path(Alone(), AfterOneRound(), rest, s)
    ensures Path(Alone(), Rotated(), [MasterUnlock] + ([EnterSecond(0)] + rest), s)
  {
    var c := Alone();
    var s6 := Apply(c, Rotated(), MasterUnlock);
    assert s6.threads == [Thread(ToSecond, 0)] && s6.nodes == [Memory(1, false)];
    var s7 := Apply(c, s6, EnterSecond(0));
    assert s7.threads == [Thread(Outside, 1)] && s7 == AfterOneRound();
    PathStep(c, s6, EnterSecond(0), rest, s);
    PathStep(c, Rotated(), MasterUnlock, [EnterSecond(0)] + rest, s);
  }

  /** The moment exists: one node takes a checkpoint, starts closing and crashes; the restart fails. */
  lemma ClosingCrashLosesCheckpoint() returns (c: Config, steps: seq<Step>, s: State)
    ensures Ok(c) && Path(c, Init(c), steps, s) && s.failed
  {
    c := Alone();
    var s7 := AfterOneRound();
    var s8 := Apply(c, s7, Close);
    assert 0 !in s8.files[0];
    s := Apply(c, s8, Crash);
    PathStep(c, s8, Crash, [], s);
    PathStep(c, s7, Close, [Crash] + [], s);
    var rest := [Close] + ([Crash] + []);
    LastSteps(rest, s);
    PointerSteps([MasterUnlock] + ([EnterSecond(0)] + rest), s);
    var rest3 := [WritePointer] + ([RotateFiles(0)] + ([MasterUnlock] + ([EnterSecond(0)] + rest)));
    FirstSteps(rest3, s);
    steps := [EnterFirst(0)] + ([TryLock(0)] + ([DumpFile(0)] + rest3));
  }
}
