/**
One node's share in checkpointing as the code runs it: the counter, the lock, the files it writes and
removes and, on the master, the `.master` file. Each method, run to its end, does to the whole cluster what
the steps of module Checkpoint do one by one.
*/
module CheckpointNode {
  import opened Checkpoint
  import opened Options

  function Try(c: Config, s: State, step: Step): State {
    if Enabled(c, s, step) then Apply(c, s, step) else s
  }

  /** The steps of DoCheckPoint by thread t, from the exchange of the lock to the count. */
  function CheckpointTaken(c: Config, s: State, t: nat): State {
    var s1 := Try(c, s, TryLock(t));
    if t < |s1.threads| && s1.threads[t].pc == Dump then
      var s2 := Try(c, s1, DumpFile(t));
      Try(c, if t == 0 then Try(c, s2, WritePointer) else s2, RotateFiles(t))
    else s1
  }

  /** The three removals of a closing master. */
  function Removed(c: Config, s: State): State {
    Try(c, Try(c, Try(c, s, Close), Close), Close)
  }

  /** What a thread that gets the lock has done when DoCheckPoint returns, in one go. */
  lemma TakenIs(c: Config, s: State, t: nat)
    requires Enabled(c, s, TryLock(t)) && !s.nodes[c.home[t]].locked
    ensures var (i, stamp) := (c.home[t], Stamp(s.life, s.threads[t].rounds));
      var cnt := s.nodes[i].cnt;
      CheckpointTaken(c, s, t) == s.(
        files := s.files[i := s.files[i][cnt := stamp] - {cnt - 2}],
        pointer := if t == 0 then Some(Pointer(cnt, stamp)) else s.pointer,
        nodes := s.nodes[i := Memory(cnt + 1, true)],
        threads := s.threads[t := s.threads[t].(pc := if t == 0 then Unlock else ToFirst(true))])
  {
    var (i, stamp) := (c.home[t], Stamp(s.life, s.threads[t].rounds));
    var s1 := Apply(c, s, TryLock(t));
    assert Enabled(c, s1, DumpFile(t));
    var s2 := Apply(c, s1, DumpFile(t));
    assert s2.threads[t].rounds == s.threads[t].rounds && s2.life == s.life && s2.nodes[i].cnt == s.nodes[i].cnt;
    var s3 := if t == 0 then Apply(c, s2, WritePointer) else s2;
    assert Enabled(c, s3, RotateFiles(t));
  }

  lemma RemovedIs(c: Config, s: State)
    requires Enabled(c, s, Close) && s.closing == Open
    ensures Removed(c, s) == s.(files := s.files[0 := s.files[0] - {s.nodes[0].cnt - 1, s.nodes[0].cnt - 2}], pointer := None, closing := Closed)
  {
    var cnt := s.nodes[0].cnt;
    assert s.files[0] - {cnt - 1} - {cnt - 2} == s.files[0] - {cnt - 1, cnt - 2};
  }

  class Node {
    const id: nat
    var checkpointCnt: int
    var checkpointLock: bool
    var files: map<int, Stamp>
    var pointer: Option<Pointer>

    /** This is node id's part of the cluster; the `.master` file is the master's. */
    ghost predicate Is(s: State)
      reads this
    {
      && id < |s.nodes| == |s.files|
      && s.nodes[id] == Memory(checkpointCnt, checkpointLock) && files == s.files[id]
      && (id == 0 ==> pointer == s.pointer)
    }

    /** A process that starts on the files its node has. */
    constructor (id: nat, found: map<int, Stamp>, master: Option<Pointer>)
      ensures this.id == id && files == found && pointer == master && checkpointCnt == 0 && !checkpointLock
      ensures forall c: Config, s: State, life: nat ::
        Shape(c, s) && id < c.nodes && found == s.files[id] && (id == 0 ==> master == s.pointer) && s.pointer == None ==>
          Is(Start(c, s.files, None, life))
    {
      this.id, files, pointer, checkpointCnt, checkpointLock := id, found, master, 0, false;
    }

    /** What the `.master` file says; -1 if there is none. */
    method MasterCheckCheckPoint() returns (number: int)
      requires pointer.Some? ==> pointer.value.number >= 0
      modifies this`checkpointCnt
      ensures number == if pointer.Some? then pointer.value.number else -1
    {
      if pointer == None {
        return -1;
      }
      checkpointCnt := pointer.value.number;
      return checkpointCnt;
    }

    /** DoRestart with the number the master has read. `ok` is the assertion that the node's own file is there. */
    method DoRestart(number: int, ghost c: Config, ghost s: State) returns (ok: bool)
      requires Shape(c, s) && id < c.nodes && files == s.files[id] && (id == 0 ==> pointer == s.pointer) && !checkpointLock
      requires s.pointer.Some? && s.pointer.value.number == number
      modifies this`checkpointCnt
      ensures Is(Start(c, s.files, s.pointer, s.life + 1))
      ensures ok <==> number in s.files[id]
      ensures Readable(s) ==> ok
    {
      checkpointCnt := number;
      ok := checkpointCnt in files;
      checkpointCnt := checkpointCnt + 1;
    }

    /** Whether the calling thread took the lock, and with it the checkpoint. */
    method DoCheckPoint(stamp: Stamp, ghost c: Config, ghost s: State, ghost t: nat) returns (own: bool)
      requires Is(s) && Enabled(c, s, TryLock(t)) && c.home[t] == id && stamp == Stamp(s.life, s.threads[t].rounds)
      modifies this
      ensures Is(CheckpointTaken(c, s, t)) && (own <==> !old(checkpointLock))
    {
      if checkpointLock {
        return false;
      }
      TakenIs(c, s, t);
      checkpointLock := true;
      files := files[checkpointCnt := stamp];
      if id == 0 {
        pointer := Some(Pointer(checkpointCnt, stamp));
      }
      files := files - {checkpointCnt - 2};
      checkpointCnt := checkpointCnt + 1;
      return true;
    }

    /** ResetCheckpointLock, by the thread that took it: after the first barrier on a slave, before the second on the master. */
    method ResetCheckpointLock(own: bool, ghost c: Config, ghost s: State, ghost t: nat)
      requires Is(s) && t < |c.home| && c.home[t] == id
      requires if t == 0 then own && Enabled(c, s, MasterUnlock) else Enabled(c, s, Resume(t)) && own == s.threads[t].pc.own
      modifies this`checkpointLock
      ensures Is(Apply(c, s, if t == 0 then MasterUnlock else Resume(t)))
    {
      if own {
        checkpointLock := false;
      }
    }

    /** remove_checkpoint_files, on the master. */
    method RemoveCheckpointFiles(ghost c: Config, ghost s: State)
      requires Is(s) && id == 0 && Enabled(c, s, Close) && s.closing == Open
      modifies this
      ensures Is(Removed(c, s))
    {
      RemovedIs(c, s);
      files := files - {checkpointCnt - 1};
      files := files - {checkpointCnt - 2};
      pointer := None;
    }
  }
}
