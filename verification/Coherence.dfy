/**
Coherence of one block when its puts overlap nothing.

A transaction is a client's operation together with all renews it causes. Renews are not
acknowledged, so a put that overlaps a get or another put can leave stale copies. Gets may overlap
gets: as long as no put overlaps anything, every read returns the block exactly as the completed
puts left it.
*/
module Coherence {
  import opened BlockProtocol
  import opened Options
  import opened Words

  predicate Active(x: Node) {
    x.client.Running? || x.client.Missing? || x.client.AwaitMiss? || x.client.AwaitWrite?
  }

  /** No transaction on the block is under way. Evictions may be. */
  predicate NoTransaction(s: State) {
    forall j {:trigger s.nodes[j]} :: 0 <= j < |s.nodes| ==> !Active(s.nodes[j]) && s.nodes[j].renews == []
  }

  /** No put is under way: no client is writing, and all renews have been taken. */
  predicate NoPut(s: State) {
    forall j {:trigger s.nodes[j]} :: 0 <= j < |s.nodes| ==> !Writing(s.nodes[j]) && s.nodes[j].renews == []
  }

  /**
  The guard: a put starts only when no transaction is under way, a get only when no put is, and a
  write miss at the home itself carries one word (the code passes length 1 there whatever the length is).
  */
  predicate Guarded(s: State, step: Step, home: nat)
    requires Enabled(s, step)
  {
    match step
    case Begin(_, op) => if op.Put? then NoTransaction(s) else NoPut(s)
    case SendMiss(i) => s.nodes[i].client.op.Put? && i == home ==> |s.nodes[i].client.op.p.data| == 1
    case _ => true
  }

  // ---- invariant ----

  predicate Writing(x: Node) {
    Active(x) && x.client.op.Put?
  }

  /** The backend already holds what node x is writing. */
  predicate Committing(x: Node) {
    Writing(x) && (x.stage != Fresh || x.inbox != [])
  }

  /** All renews of the transaction are sent, or being sent. */
  predicate Renewing(x: Node) {
    Writing(x) && (x.stage.Fanning? || x.inbox != [])
  }

  /** A put is alone. */
  predicate PutsAlone(s: State) {
    forall i, j {:trigger s.nodes[i], s.nodes[j]} :: 0 <= i < |s.nodes| && 0 <= j < |s.nodes| && i != j ==>
      !(Writing(s.nodes[i]) && Active(s.nodes[j]))
  }

  /** Renews under way carry what the backend holds, and belong to the one active write. */
  predicate RenewsOk(s: State, j: nat)
    requires j < |s.nodes|
  {
    s.nodes[j].renews != [] ==>
      && |s.nodes[j].renews| == 1 && Patched(s.mem, s.nodes[j].renews[0]) == s.mem
      && forall i {:trigger s.nodes[i]} :: 0 <= i < |s.nodes| && Active(s.nodes[i]) ==>
           Renewing(s.nodes[i]) && !(s.nodes[i].stage.Fanning? && j in s.nodes[i].stage.todo)
  }

  /** Node i is writing and still owes node j a renew. */
  predicate Owes(s: State, i: nat, j: nat)
    requires i < |s.nodes|
  {
    && i != j && Writing(s.nodes[i])
    && (s.nodes[i].stage == Stored || (s.nodes[i].stage.Fanning? && j in s.nodes[i].stage.todo))
  }

  /** A copy is up to date, or behind by exactly the patch that is coming, or ahead by the node's own write. */
  ghost predicate CopyOk(s: State, j: nat)
    requires j < |s.nodes|
  {
    var x := s.nodes[j];
    x.copy.Some? ==>
      if x.client.AwaitWrite? && Writing(x) && !Committing(x) then x.copy.value == Patched(s.mem, x.client.op.p)
      else
        || x.copy.value == s.mem
        || (|x.renews| == 1 && Patched(x.copy.value, x.renews[0]) == s.mem)
        || (x.renews == [] && exists i {:trigger Owes(s, i, j)} :: 0 <= i < |s.nodes| && Owes(s, i, j) && Patched(x.copy.value, s.nodes[i].client.op.p) == s.mem)
  }

  predicate ReplyOk(s: State, j: nat)
    requires j < |s.nodes|
  {
    var x := s.nodes[j];
    && (x.client.AwaitMiss? && x.inbox != [] && x.inbox[0].Block? ==> x.inbox[0].words == s.mem)
    && (x.client.AwaitMiss? && Writing(x) && x.queue != [] ==> x.queue[|x.queue| - 1] == WriteMiss(x.client.op.p))
  }

  predicate LatestOk(s: State) {
    && |s.mem| == |s.latest| == BLOCK
    && (forall i {:trigger s.nodes[i]} :: 0 <= i < |s.nodes| && Committing(s.nodes[i]) ==>
          s.mem == Patched(s.latest, s.nodes[i].client.op.p))
    && ((forall i {:trigger s.nodes[i]} :: 0 <= i < |s.nodes| ==> !Committing(s.nodes[i])) ==> s.mem == s.latest)
  }

  ghost predicate PerNode(s: State, j: nat)
    requires j < |s.nodes|
  {
    RenewsOk(s, j) && CopyOk(s, j) && ReplyOk(s, j)
  }

  ghost predicate Coherent(s: State, home: nat) {
    && DirInv(s, home) && PutsAlone(s) && LatestOk(s)
    && forall j {:trigger PerNode(s, j)} :: 0 <= j < |s.nodes| ==> PerNode(s, j)
  }

  // ---- what the invariant is for ----

  /** A read that is about to return returns the block as completed puts left it. */
  lemma ReadReturnsLatest(s: State, step: Step, home: nat)
    requires Coherent(s, home) && Enabled(s, step) && ReadResult(s, step).Some?
    ensures ReadResult(s, step).value == s.latest
  {
    var i := step.i;
    assert NodeOk(s, home, i) && PerNode(s, i);
    NobodyWrites(s, i);
    assert forall j :: 0 <= j < |s.nodes| ==> !Owes(s, j, i);
  }

  /** While somebody reads, nobody writes. */
  lemma NobodyWrites(s: State, i: nat)
    requires PutsAlone(s) && i < |s.nodes| && Active(s.nodes[i]) && !Writing(s.nodes[i])
    ensures forall j {:trigger s.nodes[j]} :: 0 <= j < |s.nodes| ==> !Writing(s.nodes[j])
  {
  }

  lemma InitCoherent(nodes: nat, home: nat)
    ensures Coherent(Init(nodes), home)
  {
  }

  lemma PatchTwice(w: seq<int>, p: Patch)
    ensures Patched(Patched(w, p), p) == Patched(w, p)
  {
  }

  // ---- preservation ----

  /**
  Steps that change neither memory nor any copy or renew: they only move node i's client (and its
  queue) between states that mean the same to everybody else.
  */
  lemma ClientMoves(s: State, s': State, home: nat, i: nat)
    requires Coherent(s, home) && DirInv(s', home) && i < |s.nodes| == |s'.nodes|
    requires s'.mem == s.mem && s'.latest == s.latest
    requires s' == s.(nodes := s.nodes[i := s'.nodes[i]], puts := s'.puts, mask := s'.mask)
    requires s'.nodes[i].renews == s.nodes[i].renews && s'.nodes[i].stage == s.nodes[i].stage
    requires s'.nodes[i].copy == s.nodes[i].copy || s'.nodes[i].copy == None
    requires Active(s'.nodes[i]) ==> Active(s.nodes[i]) && s'.nodes[i].client.op == s.nodes[i].client.op
    requires Committing(s.nodes[i]) <==> Committing(s'.nodes[i])
    requires Renewing(s.nodes[i]) && Active(s'.nodes[i]) ==> Renewing(s'.nodes[i])
    requires s'.nodes[i].client.AwaitWrite? <==> s.nodes[i].client.AwaitWrite?
    requires Writing(s.nodes[i]) && s.nodes[i].stage != Fresh ==> Writing(s'.nodes[i])
    requires ReplyOk(s', i)
    ensures Coherent(s', home)
  {
    assert forall j :: 0 <= j < |s.nodes| ==> Committing(s'.nodes[j]) == Committing(s.nodes[j]);
    forall j | 0 <= j < |s.nodes| ensures PerNode(s', j) {
      assert PerNode(s, j);
      ClientMovesCopy(s, s', i, j);
    }
  }

  lemma ClientMovesCopy(s: State, s': State, i: nat, j: nat)
    requires i < |s.nodes| == |s'.nodes| && j < |s.nodes| && PerNode(s, j)
    requires s'.mem == s.mem && s' == s.(nodes := s.nodes[i := s'.nodes[i]], puts := s'.puts, mask := s'.mask, latest := s'.latest)
    requires s'.nodes[i].renews == s.nodes[i].renews && s'.nodes[i].stage == s.nodes[i].stage
    requires s'.nodes[i].copy == s.nodes[i].copy || s'.nodes[i].copy == None
    requires Active(s'.nodes[i]) ==> Active(s.nodes[i]) && s'.nodes[i].client.op == s.nodes[i].client.op
    requires Committing(s.nodes[i]) <==> Committing(s'.nodes[i])
    requires s'.nodes[i].client.AwaitWrite? <==> s.nodes[i].client.AwaitWrite?
    requires Writing(s.nodes[i]) && s.nodes[i].stage != Fresh ==> Writing(s'.nodes[i])
    ensures CopyOk(s', j)
  {
    if s'.nodes[j].copy.Some? {
      if k :| 0 <= k < |s.nodes| && Owes(s, k, j) && Patched(s.nodes[j].copy.value, s.nodes[k].client.op.p) == s.mem {
        assert Owes(s', k, j);
      }
    }
  }

  /** Steps of the client that are nobody else's business. */
  lemma QuietStepInv(s: State, step: Step, home: nat)
    requires Coherent(s, home) && Enabled(s, step) && Guarded(s, step, home)
    requires step.HitGet? || step.Reserve? || step.Evict? || step.SendWriteback? || step.SendMiss?
    ensures Coherent(Apply(s, step, home), home)
  {
    var s', i := Apply(s, step, home), step.i;
    DirStep(s, step, home);
    assert NodeOk(s, home, i) && NodeOk(s', home, i) && PerNode(s, i);
    if step.SendMiss? && s.nodes[i].client.op.Put? {
      var p := s.nodes[i].client.op.p;
      assert i == home ==> p.data[..1] == p.data;
    }
    ClientMoves(s, s', home, i);
  }

  /** With no put under way, every copy equals the backend and the backend is the latest. */
  lemma NothingUnderWay(s: State, home: nat)
    requires Coherent(s, home) && NoPut(s)
    ensures s.mem == s.latest
    ensures forall j :: 0 <= j < |s.nodes| && s.nodes[j].copy.Some? ==> s.nodes[j].copy.value == s.mem
  {
    forall j | 0 <= j < |s.nodes| && s.nodes[j].copy.Some? ensures s.nodes[j].copy.value == s.mem {
      assert PerNode(s, j);
    }
  }

  lemma BeginInv(s: State, i: nat, op: Op, home: nat)
    requires Coherent(s, home) && Enabled(s, Begin(i, op)) && Guarded(s, Begin(i, op), home)
    ensures Coherent(Apply(s, Begin(i, op), home), home)
  {
    var s' := Apply(s, Begin(i, op), home);
    DirStep(s, Begin(i, op), home);
    NothingUnderWay(s, home);
    assert NodeOk(s, home, i);
    forall j | 0 <= j < |s.nodes| ensures PerNode(s', j) {
      assert PerNode(s, j) && s'.nodes[j].renews == [];
    }
    assert forall j :: 0 <= j < |s.nodes| ==> !Committing(s'.nodes[j]);
  }

  /** While a node is active and has not renewed anybody, no renew is under way. */
  lemma NoRenewsYet(s: State, home: nat, i: nat, j: nat)
    requires Coherent(s, home) && i < |s.nodes| && j < |s.nodes| && Active(s.nodes[i]) && !Renewing(s.nodes[i])
    ensures s.nodes[j].renews == []
  {
    assert PerNode(s, j);
  }

  /** The writer's own copy goes ahead of the backend. */
  lemma HitPutInv(s: State, i: nat, home: nat)
    requires Coherent(s, home) && Enabled(s, HitPut(i))
    ensures Coherent(Apply(s, HitPut(i), home), home)
  {
    var s' := Apply(s, HitPut(i), home);
    DirStep(s, HitPut(i), home);
    assert NodeOk(s, home, i) && NodeOk(s', home, i) && PerNode(s, i);
    assert forall j :: 0 <= j < |s.nodes| ==> Committing(s'.nodes[j]) == Committing(s.nodes[j]);
    OthersPassive(s, i);
    assert s.nodes[i].copy.value == s.mem by {
      NoRenewsYet(s, home, i, i);
      assert forall k :: 0 <= k < |s.nodes| ==> !Owes(s, k, i);
    }
    forall j | 0 <= j < |s.nodes| ensures PerNode(s', j) {
      assert PerNode(s, j);
      NoRenewsYet(s, home, i, j);
      assert forall k :: 0 <= k < |s.nodes| ==> !Owes(s, k, j);
    }
  }

  lemma OthersPassive(s: State, i: nat)
    requires PutsAlone(s) && i < |s.nodes| && Writing(s.nodes[i])
    ensures forall j :: 0 <= j < |s.nodes| && j != i ==> !Active(s.nodes[j])
  {
  }

  /** The home's answer to a read, and its forgetting of a node that evicted the block. */
  lemma ServeReadInv(s: State, i: nat, home: nat)
    requires Coherent(s, home) && Enabled(s, Serve(i)) && (s.nodes[i].queue[0].ReadMiss? || s.nodes[i].queue[0].Writeback?)
    ensures Coherent(Apply(s, Serve(i), home), home)
  {
    var s' := Apply(s, Serve(i), home);
    DirStep(s, Serve(i), home);
    assert NodeOk(s, home, i) && NodeOk(s', home, i) && PerNode(s, i);
    ClientMoves(s, s', home, i);
  }

  predicate ServesPut(s: State, i: nat) {
    i < |s.nodes| && s.nodes[i].queue != [] && (s.nodes[i].queue[0].Write? || s.nodes[i].queue[0].WriteMiss?)
  }

  /** The request being served is the put the node waits for. */
  lemma ServedPut(s: State, i: nat, home: nat)
    requires Coherent(s, home) && ServesPut(s, i)
    ensures Writing(s.nodes[i]) && s.nodes[i].inbox == [] && |s.nodes[i].queue| == 1
    ensures s.nodes[i].queue[0].p == s.nodes[i].client.op.p
    ensures s.nodes[i].queue[0].WriteMiss? <==> s.nodes[i].client.AwaitMiss?
    ensures s.nodes[i].queue[0].Write? <==> s.nodes[i].client.AwaitWrite?
    ensures forall j :: 0 <= j < |s.nodes| && j != i ==> !Active(s.nodes[j])
  {
    assert NodeOk(s, home, i) && PerNode(s, i);
    OthersPassive(s, i);
  }

  /** The put reaches the backend: from now on its renews are owed. */
  lemma StoreInv(s: State, i: nat, home: nat)
    requires Coherent(s, home) && Enabled(s, Serve(i)) && ServesPut(s, i) && s.nodes[i].stage == Fresh
    ensures Coherent(Apply(s, Serve(i), home), home)
  {
    var s' := Apply(s, Serve(i), home);
    DirStep(s, Serve(i), home);
    ServedPut(s, i, home);
    var p := s.nodes[i].client.op.p;
    assert s'.mem == Patched(s.mem, p);
    forall j | 0 <= j < |s.nodes| ensures PerNode(s', j) {
      assert PerNode(s, j) && NodeOk(s, home, j);
      NoRenewsYet(s, home, i, j);
      PatchTwice(s.mem, p);
      assert forall k :: 0 <= k < |s.nodes| ==> !Owes(s, k, j);
      if j != i {
        assert Owes(s', i, j);
      }
    }
    assert forall j :: 0 <= j < |s.nodes| ==> !Committing(s.nodes[j]);
    assert Committing(s'.nodes[i]) && forall j :: 0 <= j < |s.nodes| && j != i ==> !Committing(s'.nodes[j]);
  }

  /** The home fixes the nodes to renew: every node with a copy is among them. */
  lemma FanInv(s: State, i: nat, home: nat)
    requires Coherent(s, home) && Enabled(s, Serve(i)) && ServesPut(s, i) && s.nodes[i].stage == Stored && s.nodes[i].queue[0].Write?
    ensures Coherent(Apply(s, Serve(i), home), home)
  {
    var s' := Apply(s, Serve(i), home);
    DirStep(s, Serve(i), home);
    ServedPut(s, i, home);
    forall j | 0 <= j < |s.nodes| ensures PerNode(s', j) {
      assert PerNode(s, j) && NodeOk(s, home, j);
      NoRenewsYet(s, home, i, j);
      if j != i && s.nodes[j].copy.Some? && s.nodes[j].copy.value != s.mem {
        assert Owes(s', i, j);
      }
    }
    assert forall j :: 0 <= j < |s.nodes| ==> Committing(s'.nodes[j]) == Committing(s.nodes[j]);
  }

  /** All renews are sent: the writer gets its acknowledgement. */
  lemma AckInv(s: State, i: nat, home: nat)
    requires Coherent(s, home) && Enabled(s, Serve(i)) && ServesPut(s, i) && s.nodes[i].stage.Fanning? && s.nodes[i].queue[0].Write?
    ensures Coherent(Apply(s, Serve(i), home), home)
  {
    var s' := Apply(s, Serve(i), home);
    DirStep(s, Serve(i), home);
    ServedPut(s, i, home);
    forall j | 0 <= j < |s.nodes| ensures PerNode(s', j) {
      assert PerNode(s, j) && NodeOk(s, home, j);
      assert forall k :: 0 <= k < |s.nodes| ==> !Owes(s, k, j);
    }
    assert forall j :: 0 <= j < |s.nodes| ==> Committing(s'.nodes[j]) == Committing(s.nodes[j]);
  }

  /** A write miss renews everybody and answers with the block in one go. */
  lemma RenewAllInv(s: State, i: nat, home: nat)
    requires Coherent(s, home) && Enabled(s, Serve(i)) && ServesPut(s, i) && s.nodes[i].stage != Fresh && s.nodes[i].queue[0].WriteMiss?
    ensures Coherent(Apply(s, Serve(i), home), home)
  {
    var s' := Apply(s, Serve(i), home);
    DirStep(s, Serve(i), home);
    ServedPut(s, i, home);
    var p := s.nodes[i].client.op.p;
    assert NodeOk(s, home, i);
    PatchTwice(s.latest, p);
    forall j | 0 <= j < |s.nodes| ensures PerNode(s', j) {
      assert PerNode(s, j) && NodeOk(s, home, j);
      NoRenewsYet(s, home, i, j);
      if j != i && j in s.mask {
        assert s'.nodes[j].renews == [p];
      }
    }
    assert forall j :: 0 <= j < |s.nodes| ==> Committing(s'.nodes[j]) == Committing(s.nodes[j]);
  }

  lemma FanOutInv(s: State, i: nat, j: nat, home: nat)
    requires Coherent(s, home) && Enabled(s, FanOut(i, j))
    ensures Coherent(Apply(s, FanOut(i, j), home), home)
  {
    var s' := Apply(s, FanOut(i, j), home);
    DirStep(s, FanOut(i, j), home);
    ServedPut(s, i, home);
    var p := s.nodes[i].client.op.p;
    assert NodeOk(s, home, i) && PerNode(s, i) && PerNode(s, j);
    PatchTwice(s.latest, p);
    assert s.nodes[j].renews == [];
    forall k | 0 <= k < |s.nodes| ensures PerNode(s', k) {
      assert PerNode(s, k);
      if k != j {
        assert s'.nodes[k] == s.nodes[k].(stage := s'.nodes[k].stage);
        assert Owes(s, i, k) ==> Owes(s', i, k);
      }
    }
    assert forall k :: 0 <= k < |s.nodes| ==> Committing(s'.nodes[k]) == Committing(s.nodes[k]);
  }

  lemma TakeRenewInv(s: State, j: nat, home: nat)
    requires Coherent(s, home) && Enabled(s, TakeRenew(j))
    ensures Coherent(Apply(s, TakeRenew(j), home), home)
  {
    var s' := Apply(s, TakeRenew(j), home);
    DirStep(s, TakeRenew(j), home);
    assert PerNode(s, j) && NodeOk(s, home, j);
    forall k | 0 <= k < |s.nodes| ensures PerNode(s', k) {
      assert PerNode(s, k);
      if k != j {
        assert forall n :: 0 <= n < |s.nodes| && Owes(s, n, k) ==> Owes(s', n, k);
      }
    }
    assert forall k :: 0 <= k < |s.nodes| ==> Committing(s'.nodes[k]) == Committing(s.nodes[k]);
  }

  /** The operation completes: `latest` catches up with the backend. */
  lemma ReceiveInv(s: State, step: Step, home: nat)
    requires Coherent(s, home) && Enabled(s, step) && (step.RecvWrite? || step.RecvMiss?)
    ensures Coherent(Apply(s, step, home), home)
  {
    var s', i := Apply(s, step, home), step.i;
    DirStep(s, step, home);
    assert NodeOk(s, home, i) && PerNode(s, i);
    if Writing(s.nodes[i]) {
      OthersPassive(s, i);
    }
    assert Writing(s.nodes[i]) ==> Committing(s.nodes[i]);
    assert !Writing(s.nodes[i]) ==> forall k :: 0 <= k < |s.nodes| ==> !Committing(s.nodes[k]);
    assert s'.latest == s.mem;
    forall j | 0 <= j < |s.nodes| ensures PerNode(s', j) {
      assert PerNode(s, j);
      assert forall k :: 0 <= k < |s.nodes| ==> !Owes(s, k, j);
    }
    assert forall k :: 0 <= k < |s.nodes| ==> !Committing(s'.nodes[k]);
  }

  /** Coherence survives every guarded step. */
  lemma CoherentStep(s: State, step: Step, home: nat)
    requires Coherent(s, home) && Enabled(s, step) && Guarded(s, step, home)
    ensures Coherent(Apply(s, step, home), home)
  {
    match step
    case Begin(i, op) => BeginInv(s, i, op, home);
    case HitPut(i) => HitPutInv(s, i, home);
    case Serve(i) =>
      if !ServesPut(s, i) {
        ServeReadInv(s, i, home);
      } else {
        assert NodeOk(s, home, i);
        if s.nodes[i].stage == Fresh {
          StoreInv(s, i, home);
        } else if s.nodes[i].queue[0].WriteMiss? {
          RenewAllInv(s, i, home);
        } else if s.nodes[i].stage == Stored {
          FanInv(s, i, home);
        } else {
          AckInv(s, i, home);
        }
      }
    case FanOut(i, j) => FanOutInv(s, i, j, home);
    case TakeRenew(j) => TakeRenewInv(s, j, home);
    case RecvWrite(_) => ReceiveInv(s, step, home);
    case RecvMiss(_) => ReceiveInv(s, step, home);
    case _ => QuietStepInv(s, step, home);
  }
}
