/**
The directory cache protocol as one cache block sees it.

Every node may hold a copy of the block; the block's home node keeps the sharer mask and talks to
the backend. A node's client reads and writes through its copy, fetches the block on a miss and may
evict it at any time. Requests and write-backs of a node travel to the home in order; renews travel
to each sharer in order, on their own. A client's calls into its own home use the same queues, which
only adds interleavings. Module Directory shows that the whole system, with its many blocks, does
nothing else to each of them.
*/
module BlockProtocol {
  import opened Options
  import opened Words

  /** `data` goes to the words from `off` on. */
  datatype Patch = Patch(off: nat, data: seq<int>)

  datatype Op = Get(off: nat, len: nat) | Put(p: Patch)

  /** What a node's client is doing with this block. */
  datatype Client =
    | Idle
    | Running(op: Op)          // looked up, not decided yet
    | Missing(op: Op)          // a cache slot is reserved and locked, the request not sent yet
    | AwaitMiss(op: Op)        // ReadMiss or WriteMiss: waiting for the block
    | AwaitWrite(op: Op)       // Write: waiting for the acknowledgement
    | Evicting                 // the copy is gone, the write-back not sent yet

  datatype Req = ReadMiss | WriteMiss(p: Patch) | Write(p: Patch) | Writeback

  datatype Reply = Done | Block(words: seq<int>)

  /** How far the home is with a node's write request. */
  datatype Stage = Fresh | Stored | Fanning(todo: set<nat>)

  datatype Node = Node(
    copy: Option<seq<int>>,
    client: Client,
    queue: seq<Req>,
    stage: Stage,
    inbox: seq<Reply>,
    renews: seq<Patch>)

  /** `latest` and `puts` are histories: the block as completed puts left it, and every word any put carried. */
  datatype State = State(
    nodes: seq<Node>,
    mask: set<nat>,
    mem: seq<int>,
    latest: seq<int>,
    puts: set<(nat, int)>)

  datatype Step =
    | Begin(i: nat, op: Op)
    | HitGet(i: nat)
    | HitPut(i: nat)
    | Reserve(i: nat)
    | Evict(i: nat)
    | SendWriteback(i: nat)
    | SendMiss(i: nat)
    | Serve(i: nat)                 // the home works on the oldest message of node i
    | FanOut(i: nat, j: nat)        // ... and sends a renew to node j
    | TakeRenew(j: nat)
    | RecvWrite(i: nat)
    | RecvMiss(i: nat)

  // ---- words ----

  function Patched(words: seq<int>, p: Patch): (r: seq<int>)
    ensures |r| == |words|
  {
    seq(|words|, k requires 0 <= k < |words| => if p.off <= k < p.off + |p.data| then p.data[k - p.off] else words[k])
  }

  predicate OpOk(op: Op) {
    match op
    case Get(off, len) => off + len <= BLOCK
    case Put(p) => p.off + |p.data| <= BLOCK && p.data != []
  }

  /** What WriteMiss passes on: the local call at the home passes length 1 whatever the put's length. */
  function MissPatch(p: Patch, local: bool): Patch {
    if local && p.data != [] then Patch(p.off, p.data[..1]) else p
  }

  function WordsOf(p: Patch): set<(nat, int)> {
    set k | 0 <= k < |p.data| :: (p.off + k, p.data[k])
  }

  // ---- steps ----

  function Init(nodes: nat): State {
    var zero := seq(BLOCK, _ => 0);
    State(seq(nodes, _ => Node(None, Idle, [], Fresh, [], [])), {}, zero, zero, {})
  }

  predicate Enabled(s: State, step: Step) {
    match step
    case Begin(i, op) => i < |s.nodes| && s.nodes[i].client == Idle && OpOk(op)
    case HitGet(i) => i < |s.nodes| && s.nodes[i].client.Running? && s.nodes[i].client.op.Get? && s.nodes[i].copy.Some?
    case HitPut(i) => i < |s.nodes| && s.nodes[i].client.Running? && s.nodes[i].client.op.Put? && s.nodes[i].copy.Some?
    case Reserve(i) => i < |s.nodes| && s.nodes[i].client.Running? && s.nodes[i].copy.None?
    case Evict(i) => i < |s.nodes| && s.nodes[i].client == Idle && s.nodes[i].copy.Some?
    case SendWriteback(i) => i < |s.nodes| && s.nodes[i].client == Evicting
    case SendMiss(i) => i < |s.nodes| && s.nodes[i].client.Missing?
    case Serve(i) =>
      i < |s.nodes| && s.nodes[i].queue != [] && !(s.nodes[i].stage.Fanning? && s.nodes[i].stage.todo != {})
    case FanOut(i, j) =>
      && i < |s.nodes| && j < |s.nodes| && s.nodes[i].queue != [] && s.nodes[i].queue[0].Write?
      && s.nodes[i].stage.Fanning? && j in s.nodes[i].stage.todo
    case TakeRenew(j) => j < |s.nodes| && s.nodes[j].renews != []
    case RecvWrite(i) => i < |s.nodes| && s.nodes[i].client.AwaitWrite? && s.nodes[i].inbox != []
    case RecvMiss(i) =>
      i < |s.nodes| && s.nodes[i].client.AwaitMiss? && s.nodes[i].inbox != [] && s.nodes[i].inbox[0].Block?
  }

  function Apply(s: State, step: Step, home: nat): State
    requires Enabled(s, step)
  {
    match step
    case Begin(i, op) =>
      s.(nodes := s.nodes[i := s.nodes[i].(client := Running(op))],
         puts := if op.Put? then s.puts + WordsOf(op.p) else s.puts)
    case HitGet(i) => s.(nodes := s.nodes[i := s.nodes[i].(client := Idle)])
    case HitPut(i) =>
      var x := s.nodes[i];
      s.(nodes := s.nodes[i := x.(copy := Some(Patched(x.copy.value, x.client.op.p)), client := AwaitWrite(x.client.op),
                                  queue := x.queue + [Write(x.client.op.p)])])
    case Reserve(i) => s.(nodes := s.nodes[i := s.nodes[i].(client := Missing(s.nodes[i].client.op))])
    case Evict(i) => s.(nodes := s.nodes[i := s.nodes[i].(copy := None, client := Evicting)])
    case SendWriteback(i) =>
      s.(nodes := s.nodes[i := s.nodes[i].(client := Idle, queue := s.nodes[i].queue + [Writeback])])
    case SendMiss(i) =>
      var op := s.nodes[i].client.op;
      var req := if op.Get? then ReadMiss else WriteMiss(MissPatch(op.p, i == home));
      s.(nodes := s.nodes[i := s.nodes[i].(client := AwaitMiss(op), queue := s.nodes[i].queue + [req])])
    case Serve(i) => ServeStep(s, i)
    case FanOut(i, j) =>
      var x := s.nodes[i];
      var s1 := s.(nodes := s.nodes[i := x.(stage := Fanning(x.stage.todo - {j}))]);
      s1.(nodes := s1.nodes[j := s1.nodes[j].(renews := s1.nodes[j].renews + [x.queue[0].p])])
    case TakeRenew(j) => s.(nodes := s.nodes[j := Renewed(s.nodes[j])])
    case RecvWrite(i) =>
      var x := s.nodes[i];
      s.(nodes := s.nodes[i := x.(client := Idle, inbox := x.inbox[1..])], latest := Completed(s.latest, x.client.op))
    case RecvMiss(i) =>
      var x := s.nodes[i];
      s.(nodes := s.nodes[i := x.(client := Idle, inbox := x.inbox[1..], copy := Some(x.inbox[0].words))],
         latest := Completed(s.latest, x.client.op))
  }

  /** ServerWriteback, ServerReadMiss, ServerWrite and ServerWriteMiss, one atomic part at a time. */
  function ServeStep(s: State, i: nat): State
    requires i < |s.nodes| && s.nodes[i].queue != []
  {
    var x := s.nodes[i];
    var popped := x.(queue := x.queue[1..], stage := Fresh);
    match x.queue[0]
    case Writeback => s.(nodes := s.nodes[i := popped], mask := s.mask - {i})
    case ReadMiss => s.(nodes := s.nodes[i := popped.(inbox := x.inbox + [Block(s.mem)])], mask := s.mask + {i})
    case Write(p) =>
      if x.stage == Fresh then s.(nodes := s.nodes[i := x.(stage := Stored)], mem := Patched(s.mem, p))
      else if x.stage == Stored then s.(nodes := s.nodes[i := x.(stage := Fanning(s.mask - {i}))])
      else s.(nodes := s.nodes[i := popped.(inbox := x.inbox + [Done])])
    case WriteMiss(p) =>
      if x.stage == Fresh then s.(nodes := s.nodes[i := x.(stage := Stored)], mem := Patched(s.mem, p))
      else s.(nodes := RenewAll(s.nodes[i := popped.(inbox := x.inbox + [Block(s.mem)])], s.mask - {i}, p), mask := s.mask + {i})
  }

  function RenewAll(nodes: seq<Node>, targets: set<nat>, p: Patch): (r: seq<Node>)
    ensures |r| == |nodes|
  {
    seq(|nodes|, j requires 0 <= j < |nodes| =>
      if j in targets then nodes[j].(renews := nodes[j].renews + [p]) else nodes[j])
  }

  /** ServerRenew: a node without the block (or with its slot locked by a miss) drops the renew. */
  function Renewed(x: Node): Node
    requires x.renews != []
  {
    x.(renews := x.renews[1..], copy := if x.copy.Some? then Some(Patched(x.copy.value, x.renews[0])) else None)
  }

  function Completed(latest: seq<int>, op: Op): seq<int> {
    if op.Put? then Patched(latest, op.p) else latest
  }

  /** The words a `get` on this node is about to return, if it is at the point of returning. */
  function ReadResult(s: State, step: Step): Option<seq<int>>
    requires Enabled(s, step)
  {
    match step
    case HitGet(i) => Some(s.nodes[i].copy.value)
    case RecvMiss(i) => if s.nodes[i].client.op.Get? then Some(s.nodes[i].inbox[0].words) else None
    case _ => None
  }

  // ---- directory invariant: all interleavings ----

  predicate Awaits(c: Client, r: Req, local: bool) {
    match r
    case Writeback => false
    case ReadMiss => c.AwaitMiss? && c.op.Get?
    case WriteMiss(p) => c.AwaitMiss? && c.op.Put? && p == MissPatch(c.op.p, local)
    case Write(p) => c.AwaitWrite? && c.op == Put(p)
  }

  /** Write-backs first, then at most the one request the client is waiting for. */
  predicate QueueOk(x: Node, local: bool) {
    && (forall k :: 0 <= k < |x.queue| - 1 ==> x.queue[k] == Writeback)
    && (x.queue != [] ==> x.queue[|x.queue| - 1] == Writeback || (Awaits(x.client, x.queue[|x.queue| - 1], local) && x.inbox == []))
    && (if x.client.AwaitMiss? || x.client.AwaitWrite? then
          || (x.inbox == [] && x.queue != [] && x.queue[|x.queue| - 1] != Writeback)
          || (x.queue == [] && |x.inbox| == 1 && (x.client.AwaitMiss? <==> x.inbox[0].Block?))
        else x.inbox == [])
    && (match x.stage
        case Fresh => true
        case Stored => |x.queue| == 1 && (x.queue[0].Write? || x.queue[0].WriteMiss?)
        case Fanning(_) => |x.queue| == 1 && x.queue[0].Write?)
  }

  predicate HasWriteback(x: Node) {
    x.queue != [] && x.queue[0] == Writeback
  }

  /** The sharer mask against what the node has and has on its way. */
  predicate MaskOk(x: Node, bit: bool) {
    && (x.copy.Some? ==> bit && !HasWriteback(x) && !x.client.Missing? && !x.client.AwaitMiss? && x.client != Evicting)
    && (x.client.AwaitMiss? && x.inbox != [] ==> bit)
    && (bit ==> x.copy.Some? || HasWriteback(x) || x.client == Evicting || (x.client.AwaitMiss? && x.inbox != []))
    && (x.client.AwaitWrite? ==> x.copy.Some?)
  }

  predicate NodeOk(s: State, home: nat, i: nat)
    requires i < |s.nodes|
  {
    && QueueOk(s.nodes[i], i == home) && MaskOk(s.nodes[i], i in s.mask)
    && ((s.nodes[i].client.Running? || s.nodes[i].client.Missing? || s.nodes[i].client.AwaitMiss? || s.nodes[i].client.AwaitWrite?)
        ==> OpOk(s.nodes[i].client.op))
    && (s.nodes[i].stage.Fanning? ==> forall j :: j in s.nodes[i].stage.todo ==> j < |s.nodes| && j != i)
  }

  ghost predicate DirInv(s: State, home: nat) {
    && (forall j :: j in s.mask ==> j < |s.nodes|)
    && forall i {:trigger NodeOk(s, home, i)} :: 0 <= i < |s.nodes| ==> NodeOk(s, home, i)
  }

  lemma InitDir(nodes: nat, home: nat)
    ensures DirInv(Init(nodes), home)
  {
  }

  /** A node's part of the invariant does not look at its renews, nor at other nodes' bits. */
  lemma SameNodeOk(s: State, s': State, home: nat, j: nat)
    requires j < |s.nodes| == |s'.nodes| && NodeOk(s, home, j)
    requires s'.nodes[j] == s.nodes[j].(renews := s'.nodes[j].renews) && (j in s'.mask <==> j in s.mask)
    ensures NodeOk(s', home, j)
  {
  }

  /** Client-side steps of node i. */
  lemma ClientStepNode(s: State, step: Step, home: nat)
    requires DirInv(s, home) && Enabled(s, step)
    requires step.Begin? || step.HitGet? || step.HitPut? || step.Reserve? || step.Evict? || step.SendWriteback? || step.SendMiss?
             || step.RecvWrite? || step.RecvMiss?
    ensures NodeOk(Apply(s, step, home), home, step.i)
  {
    assert NodeOk(s, home, step.i);
  }

  lemma ServeStepNode(s: State, i: nat, home: nat)
    requires DirInv(s, home) && Enabled(s, Serve(i))
    ensures NodeOk(Apply(s, Serve(i), home), home, i)
  {
    assert NodeOk(s, home, i);
  }

  lemma RenewStepNode(s: State, step: Step, home: nat, j: nat)
    requires DirInv(s, home) && Enabled(s, step) && (step.FanOut? || step.TakeRenew?) && j < |s.nodes|
    ensures NodeOk(Apply(s, step, home), home, j)
  {
    assert NodeOk(s, home, j);
  }

  /** The directory invariant holds in every interleaving. */
  lemma DirStep(s: State, step: Step, home: nat)
    requires DirInv(s, home) && Enabled(s, step)
    ensures DirInv(Apply(s, step, home), home)
  {
    var s' := Apply(s, step, home);
    forall j | 0 <= j < |s.nodes| ensures NodeOk(s', home, j) {
      if step.FanOut? || step.TakeRenew? {
        RenewStepNode(s, step, home, j);
      } else if j != step.i {
        assert NodeOk(s, home, j);
        SameNodeOk(s, s', home, j);
      } else if step.Serve? {
        ServeStepNode(s, j, home);
      } else {
        ClientStepNode(s, step, home);
      }
    }
  }

  /** What the mask means: a node with a copy has its bit set and no write-back under way. */
  lemma CopyMeansBit(s: State, home: nat, i: nat)
    requires DirInv(s, home) && i < |s.nodes| && s.nodes[i].copy.Some?
    ensures i in s.mask && forall k :: 0 <= k < |s.nodes[i].queue| ==> s.nodes[i].queue[k] != Writeback
  {
    assert NodeOk(s, home, i);
  }

  predicate Quiet(s: State) {
    forall i :: 0 <= i < |s.nodes| ==>
      s.nodes[i].client == Idle && s.nodes[i].queue == [] && s.nodes[i].inbox == [] && s.nodes[i].renews == []
  }

  /** With nothing in flight, the mask is exactly the set of nodes that hold the block. */
  lemma QuietMaskIsExact(s: State, home: nat, i: nat)
    requires DirInv(s, home) && Quiet(s)
    ensures i in s.mask <==> i < |s.nodes| && s.nodes[i].copy.Some?
  {
    if i < |s.nodes| {
      assert NodeOk(s, home, i);
    }
  }

  // ---- provenance: all interleavings, races included ----

  /** Every word is zero or was put at its place by somebody. */
  predicate Known(words: seq<int>, puts: set<(nat, int)>) {
    |words| == BLOCK && forall k {:trigger words[k]} :: 0 <= k < BLOCK ==> words[k] == 0 || (k, words[k]) in puts
  }

  predicate KnownPatch(p: Patch, puts: set<(nat, int)>) {
    forall k {:trigger p.data[k]} :: 0 <= k < |p.data| ==> (p.off + k, p.data[k]) in puts
  }

  predicate KnownReq(r: Req, puts: set<(nat, int)>) {
    match r
    case WriteMiss(p) => KnownPatch(p, puts)
    case Write(p) => KnownPatch(p, puts)
    case _ => true
  }

  predicate KnownClient(c: Client, puts: set<(nat, int)>) {
    (c.Running? || c.Missing? || c.AwaitMiss? || c.AwaitWrite?) && c.op.Put? ==> KnownPatch(c.op.p, puts)
  }

  predicate KnownNode(x: Node, puts: set<(nat, int)>) {
    && (x.copy.Some? ==> Known(x.copy.value, puts))
    && KnownClient(x.client, puts)
    && (forall k {:trigger x.queue[k]} :: 0 <= k < |x.queue| ==> KnownReq(x.queue[k], puts))
    && (forall k {:trigger x.inbox[k]} :: 0 <= k < |x.inbox| ==> x.inbox[k].Block? ==> Known(x.inbox[k].words, puts))
    && (forall k {:trigger x.renews[k]} :: 0 <= k < |x.renews| ==> KnownPatch(x.renews[k], puts))
  }

  ghost predicate Provenance(s: State) {
    && Known(s.mem, s.puts) && Known(s.latest, s.puts)
    && forall i {:trigger KnownNode(s.nodes[i], s.puts)} :: 0 <= i < |s.nodes| ==> KnownNode(s.nodes[i], s.puts)
  }

  lemma InitProvenance(nodes: nat)
    ensures Provenance(Init(nodes))
  {
  }

  lemma PatchedKnown(words: seq<int>, p: Patch, puts: set<(nat, int)>)
    requires Known(words, puts) && KnownPatch(p, puts)
    ensures Known(Patched(words, p), puts)
  {
    forall k | 0 <= k < BLOCK ensures Patched(words, p)[k] == 0 || (k, Patched(words, p)[k]) in puts {
      assert words[k] == 0 || (k, words[k]) in puts;
      if p.off <= k < p.off + |p.data| {
        assert (p.off + (k - p.off), p.data[k - p.off]) in puts;
      }
    }
  }

  lemma MorePuts(x: Node, puts: set<(nat, int)>, puts': set<(nat, int)>)
    requires KnownNode(x, puts) && puts <= puts'
    ensures KnownNode(x, puts')
  {
  }

  lemma BeginKnown(s: State, i: nat, op: Op, home: nat, j: nat)
    requires Provenance(s) && Enabled(s, Begin(i, op)) && j < |s.nodes|
    ensures KnownNode(Apply(s, Begin(i, op), home).nodes[j], Apply(s, Begin(i, op), home).puts)
  {
    var s' := Apply(s, Begin(i, op), home);
    assert KnownNode(s.nodes[j], s.puts);
    MorePuts(s.nodes[j], s.puts, s'.puts);
  }

  lemma ClientKnown(s: State, step: Step, home: nat, j: nat)
    requires Provenance(s) && Enabled(s, step) && j < |s.nodes|
    requires step.HitGet? || step.HitPut? || step.Reserve? || step.Evict? || step.SendWriteback? || step.SendMiss?
             || step.RecvWrite? || step.RecvMiss?
    ensures KnownNode(Apply(s, step, home).nodes[j], s.puts)
  {
    assert KnownNode(s.nodes[j], s.puts);
    var x := s.nodes[j];
    if step.i == j && step.HitPut? {
      PatchedKnown(x.copy.value, x.client.op.p, s.puts);
    }
    if step.i == j && step.SendMiss? && x.client.op.Put? {
      var p := x.client.op.p;
      assert forall k :: 0 <= k < |MissPatch(p, j == home).data| ==> MissPatch(p, j == home).data[k] == p.data[k];
    }
  }

  lemma RenewKnown(s: State, step: Step, home: nat, j: nat)
    requires Enabled(s, step) && step.TakeRenew? && j < |s.nodes| && KnownNode(s.nodes[j], s.puts)
    ensures KnownNode(Apply(s, step, home).nodes[j], s.puts)
  {
    if step.j == j && s.nodes[j].copy.Some? {
      assert KnownPatch(s.nodes[j].renews[0], s.puts);
      PatchedKnown(s.nodes[j].copy.value, s.nodes[j].renews[0], s.puts);
    }
  }

  lemma ServeKnown(s: State, step: Step, home: nat, j: nat)
    requires Provenance(s) && Enabled(s, step) && j < |s.nodes| && (step.Serve? || step.FanOut? || step.TakeRenew?)
    ensures KnownNode(Apply(s, step, home).nodes[j], s.puts)
  {
    assert KnownNode(s.nodes[j], s.puts);
    if step.TakeRenew? {
      RenewKnown(s, step, home, j);
    } else {
      assert KnownNode(s.nodes[step.i], s.puts) && KnownReq(s.nodes[step.i].queue[0], s.puts);
    }
  }

  lemma MemoryKnown(s: State, step: Step, home: nat)
    requires Provenance(s) && Enabled(s, step)
    ensures var s' := Apply(s, step, home); s.puts <= s'.puts && Known(s'.mem, s'.puts) && Known(s'.latest, s'.puts)
  {
    match step
    case Serve(i) =>
      assert KnownNode(s.nodes[i], s.puts) && KnownReq(s.nodes[i].queue[0], s.puts);
      if s.nodes[i].queue[0].Write? || s.nodes[i].queue[0].WriteMiss? {
        PatchedKnown(s.mem, s.nodes[i].queue[0].p, s.puts);
      }
    case RecvWrite(i) =>
      assert KnownNode(s.nodes[i], s.puts);
      if s.nodes[i].client.op.Put? {
        PatchedKnown(s.latest, s.nodes[i].client.op.p, s.puts);
      }
    case RecvMiss(i) =>
      assert KnownNode(s.nodes[i], s.puts);
      if s.nodes[i].client.op.Put? {
        PatchedKnown(s.latest, s.nodes[i].client.op.p, s.puts);
      }
    case _ =>
  }

  /** In every interleaving, words only come from puts. */
  lemma ProvenanceStep(s: State, step: Step, home: nat)
    requires Provenance(s) && Enabled(s, step)
    ensures Provenance(Apply(s, step, home))
  {
    var s' := Apply(s, step, home);
    MemoryKnown(s, step, home);
    forall j | 0 <= j < |s.nodes| ensures KnownNode(s'.nodes[j], s'.puts) {
      match step
      case Begin(i, op) => BeginKnown(s, i, op, home, j);
      case Serve(_) => ServeKnown(s, step, home, j);
      case FanOut(_, _) => ServeKnown(s, step, home, j);
      case TakeRenew(_) => ServeKnown(s, step, home, j);
      case _ => ClientKnown(s, step, home, j);
    }
  }

  /** So every read returns, for each word, zero or something put there. */
  lemma ReadsAreKnown(s: State, step: Step)
    requires Provenance(s) && Enabled(s, step) && ReadResult(s, step).Some?
    ensures Known(ReadResult(s, step).value, s.puts)
  {
    assert KnownNode(s.nodes[step.i], s.puts);
  }
}
