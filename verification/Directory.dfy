/**
The directory cache as a whole: nodes with their resident blocks, the queues between every pair of
nodes, the homes' directory and the backend. Every queue mixes messages about many blocks.

Seen from one block, a step of the whole system is one step of BlockProtocol or none at all, so what
holds of every run there holds of every block here.
*/
module Directory {
  import opened BlockProtocol
  import opened Options
  import opened Words

  /** A message about a block. */
  datatype Tagged<T> = Tagged(block: nat, body: T)

  /** What the one client thread of a node is doing. */
  datatype Work =
    | Free
    | Running(block: nat, op: Op)
    | Swapping(block: nat, op: Op, victim: nat)   // victim is out of the index, its write-back not sent yet
    | Missing(block: nat, op: Op)
    | AwaitMiss(block: nat, op: Op)
    | AwaitWrite(block: nat, op: Op)

  type Pair = (nat, nat)

  /** Queues are keyed by (sender, receiver). `latest` and `puts` are histories, as in BlockProtocol. */
  datatype System = System(
    resident: seq<map<nat, seq<int>>>,
    work: seq<Work>,
    requests: map<Pair, seq<Tagged<Req>>>,
    stages: map<Pair, Stage>,
    replies: map<Pair, seq<Tagged<Reply>>>,
    renews: map<Pair, seq<Tagged<Patch>>>,
    directory: map<nat, set<nat>>,
    memory: map<nat, seq<int>>,
    latest: map<nat, seq<int>>,
    puts: map<nat, set<(nat, int)>>,
    faulted: bool,
    home: nat -> nat)

  datatype SystemStep =
    | Begin(i: nat, block: nat, op: Op)
    | HitGet(i: nat)
    | HitPut(i: nat)
    | Reserve(i: nat)                    // a miss with a free slot
    | Swap(i: nat, victim: nat)          // a miss that has to evict
    | SendWriteback(i: nat)
    | SendMiss(i: nat)
    | Serve(i: nat, home: nat)
    | FanOut(i: nat, home: nat, j: nat)
    | TakeRenew(home: nat, j: nat)
    | Receive(i: nat)

  // ---- queues ----

  function Queue<T>(q: map<Pair, seq<T>>, k: Pair): seq<T> {
    if k in q then q[k] else []
  }

  function Send<T>(q: map<Pair, seq<T>>, k: Pair, m: T): map<Pair, seq<T>> {
    q[k := Queue(q, k) + [m]]
  }

  function Pop<T>(q: map<Pair, seq<T>>, k: Pair): map<Pair, seq<T>>
    requires Queue(q, k) != []
  {
    q[k := Queue(q, k)[1..]]
  }

  function Broadcast<T>(q: map<Pair, seq<T>>, from: nat, targets: set<nat>, m: T): map<Pair, seq<T>> {
    map k | k in q.Keys + (set j | j in targets :: (from, j)) ::
      if k.0 == from && k.1 in targets then Queue(q, k) + [m] else Queue(q, k)
  }

  function StageOf(s: System, k: Pair): Stage {
    if k in s.stages then s.stages[k] else Fresh
  }

  /** What a queue says about one block. */
  function On<T>(q: seq<Tagged<T>>, block: nat): seq<T> {
    if q == [] then [] else (if q[0].block == block then [q[0].body] else []) + On(q[1..], block)
  }

  lemma {:induction false} OnAppend<T>(q: seq<Tagged<T>>, m: Tagged<T>, block: nat)
    ensures On(q + [m], block) == On(q, block) + if m.block == block then [m.body] else []
  {
    if q == [] {
      assert q + [m] == [m];
    } else {
      OnAppend(q[1..], m, block);
      assert (q + [m])[1..] == q[1..] + [m];
    }
  }

  lemma {:induction false} OnNothing<T>(q: seq<Tagged<T>>, block: nat, k: nat)
    requires On(q, block) == [] && k < |q|
    ensures q[k].block != block
  {
    if k > 0 {
      OnNothing(q[1..], block, k - 1);
    }
  }

  // ---- steps ----

  function WordsAt(m: map<nat, seq<int>>, block: nat): seq<int> {
    if block in m then m[block] else seq(BLOCK, _ => 0)
  }

  function PutsAt(m: map<nat, set<(nat, int)>>, block: nat): set<(nat, int)> {
    if block in m then m[block] else {}
  }

  function Place(cache: map<nat, seq<int>>, block: nat, words: seq<int>): map<nat, seq<int>> {
    cache[block := words]
  }

  /** A block without an entry has no sharers. */
  function Mask(s: System, block: nat): set<nat> {
    if block in s.directory then s.directory[block] else {}
  }

  /** A block's home is its number modulo the number of nodes. */
  function Start(nodes: nat): System
    requires nodes > 0
  {
    System(seq(nodes, _ => map[]), seq(nodes, _ => Free), map[], map[], map[], map[], map[], map[], map[], map[], false,
           block => block % nodes)
  }

  predicate CanStep(s: System, step: SystemStep) {
    && |s.work| == |s.resident| > 0
    && match step
       case Begin(i, _, op) => i < |s.work| && s.work[i].Free? && OpOk(op)
       case HitGet(i) => i < |s.work| && s.work[i].Running? && s.work[i].op.Get? && s.work[i].block in s.resident[i]
       case HitPut(i) => i < |s.work| && s.work[i].Running? && s.work[i].op.Put? && s.work[i].block in s.resident[i]
       case Reserve(i) => i < |s.work| && s.work[i].Running? && s.work[i].block !in s.resident[i]
       case Swap(i, v) => i < |s.work| && s.work[i].Running? && s.work[i].block !in s.resident[i] && v in s.resident[i]
       case SendWriteback(i) => i < |s.work| && s.work[i].Swapping?
       case SendMiss(i) => i < |s.work| && s.work[i].Missing?
       case Serve(i, h) =>
         && i < |s.work| && h < |s.work| && Queue(s.requests, (i, h)) != []
         && !(StageOf(s, (i, h)).Fanning? && StageOf(s, (i, h)).todo != {})
       case FanOut(i, h, j) =>
         && i < |s.work| && h < |s.work| && j < |s.work| && Queue(s.requests, (i, h)) != []
         && Queue(s.requests, (i, h))[0].body.Write?
         && StageOf(s, (i, h)).Fanning? && j in StageOf(s, (i, h)).todo
       case TakeRenew(h, j) => h < |s.work| && j < |s.work| && Queue(s.renews, (h, j)) != []
       case Receive(i) =>
         && i < |s.work| && (s.work[i].AwaitMiss? || s.work[i].AwaitWrite?)
         && Queue(s.replies, (s.home(s.work[i].block), i)) != []
  }

  function MissRequest(op: Op, local: bool): Req {
    if op.Get? then Req.ReadMiss else Req.WriteMiss(MissPatch(op.p, local))
  }

  function Next(s: System, step: SystemStep): System
    requires CanStep(s, step)
  {
    match step
    case Begin(i, b, op) =>
      s.(work := s.work[i := Work.Running(b, op)],
         puts := if op.Put? then s.puts[b := PutsAt(s.puts, b) + WordsOf(op.p)] else s.puts)
    case HitGet(i) => s.(work := s.work[i := Free])
    case HitPut(i) =>
      var (b, op) := (s.work[i].block, s.work[i].op);
      s.(resident := s.resident[i := Place(s.resident[i], b, Patched(s.resident[i][b], op.p))],
         work := s.work[i := Work.AwaitWrite(b, op)],
         requests := Send(s.requests, (i, s.home(b)), Tagged(b, Req.Write(op.p))))
    case Reserve(i) => s.(work := s.work[i := Work.Missing(s.work[i].block, s.work[i].op)])
    case Swap(i, v) =>
      s.(resident := s.resident[i := s.resident[i] - {v}],
         work := s.work[i := Swapping(s.work[i].block, s.work[i].op, v)])
    case SendWriteback(i) =>
      s.(work := s.work[i := Work.Missing(s.work[i].block, s.work[i].op)],
         requests := Send(s.requests, (i, s.home(s.work[i].victim)), Tagged(s.work[i].victim, Req.Writeback)))
    case SendMiss(i) =>
      var (b, op) := (s.work[i].block, s.work[i].op);
      s.(work := s.work[i := Work.AwaitMiss(b, op)],
         requests := Send(s.requests, (i, s.home(b)), Tagged(b, MissRequest(op, i == s.home(b)))))
    case Serve(i, h) => if s.home(Queue(s.requests, (i, h))[0].block) != h then s.(faulted := true) else ServeNext(s, i, h)
    case FanOut(i, h, j) =>
      var m := Queue(s.requests, (i, h))[0];
      FanNext(s, i, h, j, m.block, m.body.p, StageOf(s, (i, h)).todo - {j})
    case TakeRenew(h, j) => TakeNext(s, h, j)
    case Receive(i) => ReceiveNext(s, i)
  }

  /** The home's handlers, one atomic part at a time. */
  function ServeNext(s: System, i: nat, h: nat): (r: System)
    requires Queue(s.requests, (i, h)) != []
    ensures r.work == s.work && r.resident == s.resident && r.home == s.home && r.latest == s.latest && r.puts == s.puts
  {
    var m := Queue(s.requests, (i, h))[0];
    match m.body
    case Writeback => ServeWriteback(s, i, h, m.block)
    case ReadMiss => ServeReadMiss(s, i, h, m.block)
    case Write(p) =>
      if StageOf(s, (i, h)) == Fresh then Store(s, i, h, m.block, p)
      else if StageOf(s, (i, h)) == Stored then s.(stages := s.stages[(i, h) := Fanning(Mask(s, m.block) - {i})])
      else Acknowledge(s, i, h, m.block)
    case WriteMiss(p) => if StageOf(s, (i, h)) == Fresh then Store(s, i, h, m.block, p) else RenewAndReply(s, i, h, m.block, p)
  }

  function Finished(s: System, k: Pair): (r: System)
    requires Queue(s.requests, k) != []
    ensures r.work == s.work && r.resident == s.resident && r.home == s.home && r.latest == s.latest && r.puts == s.puts && r.directory == s.directory
  {
    s.(requests := Pop(s.requests, k), stages := s.stages[k := Fresh])
  }

  function ServeWriteback(s: System, i: nat, h: nat, b: nat): (r: System)
    requires Queue(s.requests, (i, h)) != []
    ensures r.work == s.work && r.resident == s.resident && r.home == s.home && r.latest == s.latest && r.puts == s.puts
  {
    Finished(s, (i, h)).(directory :=
      if b !in s.directory then s.directory
      else if Mask(s, b) - {i} != {} then s.directory[b := Mask(s, b) - {i}]
      else s.directory - {b})
  }

  function ServeReadMiss(s: System, i: nat, h: nat, b: nat): (r: System)
    requires Queue(s.requests, (i, h)) != []
    ensures r.work == s.work && r.resident == s.resident && r.home == s.home && r.latest == s.latest && r.puts == s.puts
  {
    Finished(s, (i, h)).(
      replies := Send(s.replies, (h, i), Tagged(b, Block(WordsAt(s.memory, b)))),
      directory := s.directory[b := Mask(s, b) + {i}])
  }

  function Store(s: System, i: nat, h: nat, b: nat, p: Patch): (r: System)
    ensures r.work == s.work && r.resident == s.resident && r.home == s.home && r.latest == s.latest && r.puts == s.puts && r.directory == s.directory
  {
    s.(stages := s.stages[(i, h) := Stored], memory := s.memory[b := Patched(WordsAt(s.memory, b), p)])
  }

  function Acknowledge(s: System, i: nat, h: nat, b: nat): (r: System)
    requires Queue(s.requests, (i, h)) != []
    ensures r.work == s.work && r.resident == s.resident && r.home == s.home && r.latest == s.latest && r.puts == s.puts && r.directory == s.directory
  {
    Finished(s, (i, h)).(replies := Send(s.replies, (h, i), Tagged(b, Done)))
  }

  function RenewAndReply(s: System, i: nat, h: nat, b: nat, p: Patch): (r: System)
    requires Queue(s.requests, (i, h)) != []
    ensures r.work == s.work && r.resident == s.resident && r.home == s.home && r.latest == s.latest && r.puts == s.puts
  {
    Finished(s, (i, h)).(
      replies := Send(s.replies, (h, i), Tagged(b, Block(WordsAt(s.memory, b)))),
      renews := Broadcast(s.renews, h, Mask(s, b) - {i}, Tagged(b, p)),
      directory := s.directory[b := Mask(s, b) + {i}])
  }

  function FanNext(s: System, i: nat, h: nat, j: nat, b: nat, p: Patch, todo: set<nat>): (r: System)
    ensures r.work == s.work && r.resident == s.resident && r.home == s.home && r.latest == s.latest && r.puts == s.puts && r.directory == s.directory
  {
    s.(stages := s.stages[(i, h) := Fanning(todo)], renews := Send(s.renews, (h, j), Tagged(b, p)))
  }

  function RenewedCache(cache: map<nat, seq<int>>, m: Tagged<Patch>): map<nat, seq<int>> {
    if m.block in cache then Place(cache, m.block, Patched(cache[m.block], m.body)) else cache
  }

  /** ServerRenew: only a node that has the block takes the renew. */
  function TakeNext(s: System, h: nat, j: nat): (r: System)
    requires j < |s.resident| && Queue(s.renews, (h, j)) != []
    ensures r.work == s.work && |r.resident| == |s.resident| && r.home == s.home && r.latest == s.latest && r.puts == s.puts
  {
    var m := Queue(s.renews, (h, j))[0];
    s.(renews := Pop(s.renews, (h, j)), resident := s.resident[j := RenewedCache(s.resident[j], m)])
  }

  predicate Expected(w: Work, m: Tagged<Reply>) {
    (w.AwaitMiss? || w.AwaitWrite?) && m.block == w.block && (m.body.Block? <==> w.AwaitMiss?)
  }

  /** The waiting client takes the reply. An answer about another block, or of the wrong kind, is a fault. */
  function ReceiveNext(s: System, i: nat): (r: System)
    requires |s.work| == |s.resident| && i < |s.work| && (s.work[i].AwaitMiss? || s.work[i].AwaitWrite?)
    requires Queue(s.replies, (s.home(s.work[i].block), i)) != []
    ensures |r.work| == |r.resident| == |s.work| && r.home == s.home && r.puts == s.puts
  {
    var m := Queue(s.replies, (s.home(s.work[i].block), i))[0];
    if !Expected(s.work[i], m) then s.(faulted := true) else Take(s, i, s.work[i].block, s.work[i].op, m.body)
  }

  function Take(s: System, i: nat, b: nat, op: Op, reply: Reply): (r: System)
    requires |s.work| == |s.resident| && i < |s.work| && Queue(s.replies, (s.home(b), i)) != []
    ensures |r.work| == |r.resident| == |s.work| && r.home == s.home && r.puts == s.puts
  {
    s.(work := s.work[i := Free], replies := Pop(s.replies, (s.home(b), i)),
       resident := if reply.Block? then s.resident[i := Place(s.resident[i], b, reply.words)] else s.resident,
       latest := s.latest[b := Completed(WordsAt(s.latest, b), op)])
  }

  // ---- one block's view ----

  function ClientView(w: Work, block: nat): Client {
    match w
    case Free => Idle
    case Running(b, op) => if b == block then Client.Running(op) else Idle
    case Swapping(b, op, v) => if b == block then Client.Missing(op) else if v == block then Evicting else Idle
    case Missing(b, op) => if b == block then Client.Missing(op) else Idle
    case AwaitMiss(b, op) => if b == block then Client.AwaitMiss(op) else Idle
    case AwaitWrite(b, op) => if b == block then Client.AwaitWrite(op) else Idle
  }

  function StageView(s: System, block: nat, k: Pair): Stage {
    var q := Queue(s.requests, k);
    if q != [] && q[0].block == block then StageOf(s, k) else Fresh
  }

  function NodeView(s: System, block: nat, i: nat): Node
    requires |s.work| == |s.resident| && i < |s.work|
  {
    var h := s.home(block);
    Node(if block in s.resident[i] then Some(s.resident[i][block]) else None,
         ClientView(s.work[i], block),
         On(Queue(s.requests, (i, h)), block),
         StageView(s, block, (i, h)),
         On(Queue(s.replies, (h, i)), block),
         On(Queue(s.renews, (h, i)), block))
  }

  function View(s: System, block: nat): State
    requires |s.work| == |s.resident|
  {
    State(seq(|s.work|, i requires 0 <= i < |s.work| => NodeView(s, block, i)),
          Mask(s, block), WordsAt(s.memory, block), WordsAt(s.latest, block), PutsAt(s.puts, block))
  }

  /** Every message goes to its block's home. */
  ghost predicate ToHome<T(!new)>(q: map<Pair, seq<Tagged<T>>>, home: nat -> nat) {
    forall k: Pair, n {:trigger Queue(q, k)[n]} :: 0 <= n < |Queue(q, k)| ==> home(Queue(q, k)[n].block) == k.1
  }

  ghost predicate FromHome<T(!new)>(q: map<Pair, seq<Tagged<T>>>, home: nat -> nat) {
    forall k: Pair, n {:trigger Queue(q, k)[n]} :: 0 <= n < |Queue(q, k)| ==> home(Queue(q, k)[n].block) == k.0
  }

  /** Only a connection with a request can have one half served. */
  ghost predicate StagesOk<T(!new)>(q: map<Pair, seq<T>>, stages: map<Pair, Stage>) {
    forall k: Pair :: k in stages ==> stages[k] == Fresh || Queue(q, k) != []
  }

  /** Every message is on the connection its block belongs to, and a swap's two blocks differ. */
  ghost predicate Routed(s: System) {
    && |s.work| == |s.resident| > 0 && !s.faulted
    && ToHome(s.requests, s.home) && FromHome(s.replies, s.home) && FromHome(s.renews, s.home) && StagesOk(s.requests, s.stages)
    && (forall i {:trigger s.work[i]} :: 0 <= i < |s.work| && s.work[i].Swapping? ==> s.work[i].victim != s.work[i].block)
  }

  /** The step of one block that a step of the system is. */
  function BlockStep(s: System, step: SystemStep, block: nat): Option<Step>
    requires CanStep(s, step)
  {
    match step
    case Begin(i, b, op) => if b == block then Some(Step.Begin(i, op)) else None
    case HitGet(i) => if s.work[i].block == block then Some(Step.HitGet(i)) else None
    case HitPut(i) => if s.work[i].block == block then Some(Step.HitPut(i)) else None
    case Reserve(i) => if s.work[i].block == block then Some(Step.Reserve(i)) else None
    case Swap(i, v) => if s.work[i].block == block then Some(Step.Reserve(i)) else if v == block then Some(Evict(i)) else None
    case SendWriteback(i) => if s.work[i].victim == block then Some(Step.SendWriteback(i)) else None
    case SendMiss(i) => if s.work[i].block == block then Some(Step.SendMiss(i)) else None
    case Serve(i, h) => if Queue(s.requests, (i, h))[0].block == block then Some(Step.Serve(i)) else None
    case FanOut(i, h, j) => if Queue(s.requests, (i, h))[0].block == block then Some(Step.FanOut(i, j)) else None
    case TakeRenew(h, j) => if Queue(s.renews, (h, j))[0].block == block then Some(Step.TakeRenew(j)) else None
    case Receive(i) =>
      if s.work[i].block != block then None else if s.work[i].AwaitMiss? then Some(RecvMiss(i)) else Some(RecvWrite(i))
  }

  ghost predicate StepsLike(s: System, s': System, step: SystemStep, block: nat)
    requires |s.work| == |s.resident| && |s'.work| == |s'.resident| == |s.work| && CanStep(s, step)
  {
    match BlockStep(s, step, block)
    case None => View(s', block) == View(s, block)
    case Some(t) => Enabled(View(s, block), t) && View(s', block) == Apply(View(s, block), t, s.home(block))
  }

  // ---- every step of the system is a step of each block ----

  predicate ClientSide(step: SystemStep) {
    step.Begin? || step.HitGet? || step.HitPut? || step.Reserve? || step.Swap? || step.SendWriteback? || step.SendMiss?
  }

  /** Two systems look the same from a block, but for node i. */
  lemma OnlyNode(s: System, s': System, block: nat, i: nat)
    requires |s.work| == |s.resident| == |s'.work| == |s'.resident| && i < |s.work|
    requires forall j :: 0 <= j < |s.work| && j != i ==> NodeView(s', block, j) == NodeView(s, block, j)
    requires Mask(s', block) == Mask(s, block)
    requires s'.memory == s.memory && s'.latest == s.latest && PutsAt(s'.puts, block) == PutsAt(s.puts, block)
    ensures View(s', block) == View(s, block).(nodes := View(s, block).nodes[i := NodeView(s', block, i)])
    ensures NodeView(s', block, i) == NodeView(s, block, i) ==> View(s', block) == View(s, block)
  {
    assert View(s', block).nodes == View(s, block).nodes[i := NodeView(s', block, i)];
  }

  /** Block `block` does not notice what node i's client and copies did. */
  predicate SameAt(s: System, s': System, i: nat, block: nat)
    requires |s.work| == |s.resident| == |s'.work| == |s'.resident| && i < |s.work|
  {
    && ClientView(s'.work[i], block) == ClientView(s.work[i], block)
    && (block in s'.resident[i] <==> block in s.resident[i])
    && (block in s.resident[i] ==> s'.resident[i][block] == s.resident[i][block])
  }

  /** Node i's client and copies change, nothing else. */
  lemma LocalView(s: System, s': System, block: nat, i: nat)
    requires |s.work| == |s.resident| && i < |s.work|
    requires |s'.work| == |s'.resident| == |s.work|
    requires s' == s.(work := s.work[i := s'.work[i]], resident := s.resident[i := s'.resident[i]])
    ensures View(s', block) == View(s, block).(nodes := View(s, block).nodes[i := NodeView(s, block, i).(
      copy := if block in s'.resident[i] then Some(s'.resident[i][block]) else None, client := ClientView(s'.work[i], block))])
    ensures SameAt(s, s', i, block) ==> View(s', block) == View(s, block)
  {
    OnlyNode(s, s', block, i);
  }

  lemma HitGetRefines(s: System, i: nat, block: nat)
    requires CanStep(s, SystemStep.HitGet(i))
    ensures StepsLike(s, Next(s, SystemStep.HitGet(i)), SystemStep.HitGet(i), block)
  {
    LocalView(s, Next(s, SystemStep.HitGet(i)), block, i);
  }

  lemma ReserveRefines(s: System, i: nat, block: nat)
    requires CanStep(s, SystemStep.Reserve(i))
    ensures StepsLike(s, Next(s, SystemStep.Reserve(i)), SystemStep.Reserve(i), block)
  {
    LocalView(s, Next(s, SystemStep.Reserve(i)), block, i);
  }

  lemma SwapRefines(s: System, i: nat, v: nat, block: nat)
    requires CanStep(s, Swap(i, v))
    ensures StepsLike(s, Next(s, Swap(i, v)), Swap(i, v), block)
  {
    LocalView(s, Next(s, Swap(i, v)), block, i);
  }

  lemma PutsView(s: System, puts: map<nat, set<(nat, int)>>, block: nat)
    requires |s.work| == |s.resident| > 0
    ensures View(s.(puts := puts), block) == View(s, block).(puts := PutsAt(puts, block))
  {
    assert View(s.(puts := puts), block).nodes == View(s, block).nodes;
  }

  lemma BeginRefines(s: System, i: nat, b: nat, op: Op, block: nat)
    requires CanStep(s, SystemStep.Begin(i, b, op))
    ensures StepsLike(s, Next(s, SystemStep.Begin(i, b, op)), SystemStep.Begin(i, b, op), block)
  {
    var s1 := s.(work := s.work[i := Work.Running(b, op)]);
    LocalView(s, s1, block, i);
    var puts := if op.Put? then s.puts[b := PutsAt(s.puts, b) + WordsOf(op.p)] else s.puts;
    PutsView(s1, puts, block);
    assert Next(s, SystemStep.Begin(i, b, op)) == s1.(puts := puts);
  }

  /** Sending on one queue shows at one block, at its end. */
  lemma SendQueue(s: System, s': System, i: nat, b: nat, req: Req, block: nat)
    requires |s.work| == |s.resident| == |s'.work| == |s'.resident| && i < |s.work|
    requires s'.requests == Send(s.requests, (i, s.home(b)), Tagged(b, req)) && s'.stages == s.stages
    requires Queue(s.requests, (i, s.home(block))) == [] ==> StageOf(s, (i, s.home(block))) == Fresh
    ensures On(Queue(s'.requests, (i, s.home(block))), block) == On(Queue(s.requests, (i, s.home(block))), block) + if b == block then [req] else []
    ensures StageView(s', block, (i, s.home(block))) == StageView(s, block, (i, s.home(block)))
  {
    var k := (i, s.home(block));
    if s.home(b) == s.home(block) {
      OnAppend(Queue(s.requests, k), Tagged(b, req), block);
    }
  }

  /** Node i changes its client and copies and sends one request. */
  lemma SendView(s: System, s': System, i: nat, b: nat, req: Req, block: nat)
    requires |s.work| == |s.resident| == |s'.work| == |s'.resident| && i < |s.work|
    requires s' == s.(work := s.work[i := s'.work[i]], resident := s.resident[i := s'.resident[i]],
                      requests := Send(s.requests, (i, s.home(b)), Tagged(b, req)))
    requires Queue(s.requests, (i, s.home(block))) == [] ==> StageOf(s, (i, s.home(block))) == Fresh
    ensures View(s', block) == View(s, block).(nodes := View(s, block).nodes[i := NodeView(s, block, i).(
      copy := if block in s'.resident[i] then Some(s'.resident[i][block]) else None, client := ClientView(s'.work[i], block),
      queue := NodeView(s, block, i).queue + if b == block then [req] else [])])
    ensures b != block && SameAt(s, s', i, block) ==> View(s', block) == View(s, block)
  {
    SendQueue(s, s', i, b, req, block);
    OnlyNode(s, s', block, i);
  }

  lemma HitPutView(s: System, i: nat, block: nat)
    requires Routed(s) && CanStep(s, SystemStep.HitPut(i)) && s.work[i].block == block
    ensures Enabled(View(s, block), Step.HitPut(i))
    ensures View(Next(s, SystemStep.HitPut(i)), block) == Apply(View(s, block), Step.HitPut(i), s.home(block))
  {
    SendView(s, Next(s, SystemStep.HitPut(i)), i, block, Req.Write(s.work[i].op.p), block);
  }

  lemma HitPutRefines(s: System, i: nat, block: nat)
    requires Routed(s) && CanStep(s, SystemStep.HitPut(i))
    ensures StepsLike(s, Next(s, SystemStep.HitPut(i)), SystemStep.HitPut(i), block)
  {
    if s.work[i].block == block {
      HitPutView(s, i, block);
    } else {
      SendView(s, Next(s, SystemStep.HitPut(i)), i, s.work[i].block, Req.Write(s.work[i].op.p), block);
    }
  }

  lemma SendMissView(s: System, s': System, i: nat, block: nat)
    requires |s.work| == |s.resident| && i < |s.work| && s.work[i].Missing? && s.work[i].block == block
    requires s' == s.(work := s.work[i := Work.AwaitMiss(block, s.work[i].op)],
                      requests := Send(s.requests, (i, s.home(block)), Tagged(block, MissRequest(s.work[i].op, i == s.home(block)))))
    requires Queue(s.requests, (i, s.home(block))) == [] ==> StageOf(s, (i, s.home(block))) == Fresh
    ensures View(s', block) == Apply(View(s, block), Step.SendMiss(i), s.home(block))
  {
    SendView(s, s', i, block, MissRequest(s.work[i].op, i == s.home(block)), block);
  }

  lemma SendMissOther(s: System, s': System, i: nat, block: nat)
    requires |s.work| == |s.resident| && i < |s.work| && s.work[i].Missing? && s.work[i].block != block
    requires s' == s.(work := s.work[i := Work.AwaitMiss(s.work[i].block, s.work[i].op)],
                      requests := Send(s.requests, (i, s.home(s.work[i].block)),
                                       Tagged(s.work[i].block, MissRequest(s.work[i].op, i == s.home(s.work[i].block)))))
    requires Queue(s.requests, (i, s.home(block))) == [] ==> StageOf(s, (i, s.home(block))) == Fresh
    ensures View(s', block) == View(s, block)
  {
    SendView(s, s', i, s.work[i].block, MissRequest(s.work[i].op, i == s.home(s.work[i].block)), block);
  }

  lemma SendMissRefines(s: System, i: nat, block: nat)
    requires Routed(s) && CanStep(s, SystemStep.SendMiss(i))
    ensures StepsLike(s, Next(s, SystemStep.SendMiss(i)), SystemStep.SendMiss(i), block)
  {
    assert Queue(s.requests, (i, s.home(block))) == [] ==> StageOf(s, (i, s.home(block))) == Fresh;
    if s.work[i].block == block {
      SendMissView(s, Next(s, SystemStep.SendMiss(i)), i, block);
    } else {
      SendMissOther(s, Next(s, SystemStep.SendMiss(i)), i, block);
    }
  }

  lemma WritebackView(s: System, i: nat, block: nat)
    requires Routed(s) && CanStep(s, SystemStep.SendWriteback(i)) && s.work[i].victim == block
    ensures Enabled(View(s, block), Step.SendWriteback(i))
    ensures View(Next(s, SystemStep.SendWriteback(i)), block) == Apply(View(s, block), Step.SendWriteback(i), s.home(block))
  {
    SendView(s, Next(s, SystemStep.SendWriteback(i)), i, block, Req.Writeback, block);
  }

  lemma SendWritebackRefines(s: System, i: nat, block: nat)
    requires Routed(s) && CanStep(s, SystemStep.SendWriteback(i))
    ensures StepsLike(s, Next(s, SystemStep.SendWriteback(i)), SystemStep.SendWriteback(i), block)
  {
    if s.work[i].victim == block {
      WritebackView(s, i, block);
    } else {
      SendView(s, Next(s, SystemStep.SendWriteback(i)), i, s.work[i].victim, Req.Writeback, block);
    }
  }

  // ---- the home's steps ----

  /** Changing queue q into q' is invisible from a block. */
  ghost predicate Unseen<T(!new)>(q: map<Pair, seq<Tagged<T>>>, q': map<Pair, seq<Tagged<T>>>, block: nat) {
    forall k: Pair {:trigger Queue(q', k)} :: On(Queue(q', k), block) == On(Queue(q, k), block)
  }

  lemma SendUnseen<T(!new)>(q: map<Pair, seq<Tagged<T>>>, k: Pair, m: Tagged<T>, block: nat)
    requires m.block != block
    ensures Unseen(q, Send(q, k, m), block)
  {
    OnAppend(Queue(q, k), m, block);
  }

  lemma PopUnseen<T(!new)>(q: map<Pair, seq<Tagged<T>>>, k: Pair, block: nat)
    requires Queue(q, k) != [] && Queue(q, k)[0].block != block
    ensures Unseen(q, Pop(q, k), block)
  {
  }

  lemma BroadcastUnseen<T(!new)>(q: map<Pair, seq<Tagged<T>>>, from: nat, targets: set<nat>, m: Tagged<T>, block: nat)
    requires m.block != block
    ensures Unseen(q, Broadcast(q, from, targets, m), block)
  {
    forall k: Pair ensures On(Queue(Broadcast(q, from, targets, m), k), block) == On(Queue(q, k), block) {
      OnAppend(Queue(q, k), m, block);
    }
  }

  ghost predicate StageUnseen(s: System, s': System, block: nat) {
    forall k: Pair {:trigger StageView(s', block, k)} :: StageView(s', block, k) == StageView(s, block, k)
  }

  /** A step about another block is invisible. */
  lemma Invisible(s: System, s': System, block: nat)
    requires |s.work| == |s.resident| && s'.work == s.work && s'.resident == s.resident && s'.home == s.home
    requires Unseen(s.requests, s'.requests, block) && Unseen(s.replies, s'.replies, block) && Unseen(s.renews, s'.renews, block)
    requires StageUnseen(s, s', block) && Mask(s', block) == Mask(s, block)
    requires WordsAt(s'.memory, block) == WordsAt(s.memory, block) && s'.latest == s.latest && s'.puts == s.puts
    ensures View(s', block) == View(s, block)
  {
    forall j | 0 <= j < |s.work| ensures NodeView(s', block, j) == NodeView(s, block, j) {
    }
    assert View(s', block).nodes == View(s, block).nodes;
  }

  predicate Serving(s: System, i: nat, h: nat, block: nat) {
    && |s.work| == |s.resident| && i < |s.work| && h < |s.work| && Queue(s.requests, (i, h)) != []
    && Queue(s.requests, (i, h))[0].block == block && s.home(block) == h
  }

  lemma FinishedOther(s: System, i: nat, h: nat, b: nat, block: nat)
    requires Serving(s, i, h, b) && b != block
    ensures Unseen(s.requests, Finished(s, (i, h)).requests, block) && StageUnseen(s, Finished(s, (i, h)), block)
  {
    PopUnseen(s.requests, (i, h), block);
  }

  lemma StageOther(s: System, i: nat, h: nat, b: nat, block: nat, stage: Stage)
    requires Serving(s, i, h, b) && b != block
    ensures StageUnseen(s, s.(stages := s.stages[(i, h) := stage]), block)
  {
  }

  lemma ServeWritebackOther(s: System, i: nat, h: nat, b: nat, block: nat)
    requires Serving(s, i, h, b) && b != block
    ensures View(ServeWriteback(s, i, h, b), block) == View(s, block)
  {
    FinishedOther(s, i, h, b, block);
    assert StageUnseen(s, ServeWriteback(s, i, h, b), block);
    Invisible(s, ServeWriteback(s, i, h, b), block);
  }

  lemma ServeReadMissOther(s: System, i: nat, h: nat, b: nat, block: nat)
    requires Serving(s, i, h, b) && b != block
    ensures View(ServeReadMiss(s, i, h, b), block) == View(s, block)
  {
    FinishedOther(s, i, h, b, block);
    SendUnseen(s.replies, (h, i), Tagged(b, Block(WordsAt(s.memory, b))), block);
    assert StageUnseen(s, ServeReadMiss(s, i, h, b), block);
    Invisible(s, ServeReadMiss(s, i, h, b), block);
  }

  lemma StoreOther(s: System, i: nat, h: nat, b: nat, p: Patch, block: nat)
    requires Serving(s, i, h, b) && b != block
    ensures View(Store(s, i, h, b, p), block) == View(s, block)
  {
    StageOther(s, i, h, b, block, Stored);
    assert StageUnseen(s, Store(s, i, h, b, p), block);
    Invisible(s, Store(s, i, h, b, p), block);
  }

  lemma AcknowledgeOther(s: System, i: nat, h: nat, b: nat, block: nat)
    requires Serving(s, i, h, b) && b != block
    ensures View(Acknowledge(s, i, h, b), block) == View(s, block)
  {
    FinishedOther(s, i, h, b, block);
    SendUnseen(s.replies, (h, i), Tagged(b, Done), block);
    assert StageUnseen(s, Acknowledge(s, i, h, b), block);
    Invisible(s, Acknowledge(s, i, h, b), block);
  }

  lemma RenewAndReplyOther(s: System, i: nat, h: nat, b: nat, p: Patch, block: nat)
    requires Serving(s, i, h, b) && b != block
    ensures View(RenewAndReply(s, i, h, b, p), block) == View(s, block)
  {
    FinishedOther(s, i, h, b, block);
    SendUnseen(s.replies, (h, i), Tagged(b, Block(WordsAt(s.memory, b))), block);
    BroadcastUnseen(s.renews, h, Mask(s, b) - {i}, Tagged(b, p), block);
    assert StageUnseen(s, RenewAndReply(s, i, h, b, p), block);
    Invisible(s, RenewAndReply(s, i, h, b, p), block);
  }

  lemma FanOther(s: System, i: nat, h: nat, b: nat, stage: Stage, block: nat)
    requires Serving(s, i, h, b) && b != block
    ensures View(s.(stages := s.stages[(i, h) := stage]), block) == View(s, block)
  {
    StageOther(s, i, h, b, block, stage);
    Invisible(s, s.(stages := s.stages[(i, h) := stage]), block);
  }

  lemma ServeOther(s: System, i: nat, h: nat, b: nat, block: nat)
    requires Serving(s, i, h, b) && b != block
    ensures View(ServeNext(s, i, h), block) == View(s, block)
  {
    match Queue(s.requests, (i, h))[0].body
    case Writeback => ServeWritebackOther(s, i, h, b, block);
    case ReadMiss => ServeReadMissOther(s, i, h, b, block);
    case Write(p) =>
      StoreOther(s, i, h, b, p, block);
      AcknowledgeOther(s, i, h, b, block);
      FanOther(s, i, h, b, Fanning(Mask(s, b) - {i}), block);
    case WriteMiss(p) =>
      StoreOther(s, i, h, b, p, block);
      RenewAndReplyOther(s, i, h, b, p, block);
  }

  /** The message at the head of the connection is the oldest one about its block. */
  lemma ServedHead(s: System, i: nat, h: nat, b: nat)
    requires Serving(s, i, h, b)
    ensures View(s, b).nodes[i].queue != []
    ensures View(s, b).nodes[i].queue[0] == Queue(s.requests, (i, h))[0].body
    ensures View(s, b).nodes[i].queue[1..] == On(Queue(s.requests, (i, h))[1..], b)
    ensures View(s, b).nodes[i].stage == StageOf(s, (i, h))
  {
  }

  lemma FinishedOwn(s: System, i: nat, h: nat, b: nat)
    requires Serving(s, i, h, b)
    ensures var v := View(s, b);
      View(Finished(s, (i, h)), b) == v.(nodes := v.nodes[i := v.nodes[i].(queue := v.nodes[i].queue[1..], stage := Fresh)])
  {
    ServedHead(s, i, h, b);
    OnlyNode(s, Finished(s, (i, h)), b, i);
  }

  lemma StageOwn(s: System, i: nat, h: nat, b: nat, stage: Stage)
    requires Serving(s, i, h, b)
    ensures var v := View(s, b);
      View(s.(stages := s.stages[(i, h) := stage]), b) == v.(nodes := v.nodes[i := v.nodes[i].(stage := stage)])
  {
    OnlyNode(s, s.(stages := s.stages[(i, h) := stage]), b, i);
  }

  lemma ReplyView(s: System, i: nat, b: nat, reply: Reply)
    requires |s.work| == |s.resident| && i < |s.work|
    ensures var v := View(s, b);
      View(s.(replies := Send(s.replies, (s.home(b), i), Tagged(b, reply))), b)
        == v.(nodes := v.nodes[i := v.nodes[i].(inbox := v.nodes[i].inbox + [reply])])
  {
    OnAppend(Queue(s.replies, (s.home(b), i)), Tagged(b, reply), b);
    OnlyNode(s, s.(replies := Send(s.replies, (s.home(b), i), Tagged(b, reply))), b, i);
  }

  lemma MaskView(s: System, directory: map<nat, set<nat>>, b: nat)
    requires |s.work| == |s.resident|
    ensures View(s.(directory := directory), b) == View(s, b).(mask := if b in directory then directory[b] else {})
  {
    assert View(s.(directory := directory), b).nodes == View(s, b).nodes;
  }

  lemma BroadcastView(s: System, b: nat, targets: set<nat>, p: Patch)
    requires |s.work| == |s.resident|
    ensures View(s.(renews := Broadcast(s.renews, s.home(b), targets, Tagged(b, p))), b)
      == View(s, b).(nodes := RenewAll(View(s, b).nodes, targets, p))
  {
    var s', h := s.(renews := Broadcast(s.renews, s.home(b), targets, Tagged(b, p))), s.home(b);
    forall j | 0 <= j < |s.work| ensures NodeView(s', b, j) == RenewAll(View(s, b).nodes, targets, p)[j] {
      OnAppend(Queue(s.renews, (h, j)), Tagged(b, p), b);
    }
    assert View(s', b).nodes == RenewAll(View(s, b).nodes, targets, p);
  }

  lemma MemoryView(s: System, b: nat, words: seq<int>)
    requires |s.work| == |s.resident|
    ensures View(s.(memory := s.memory[b := words]), b) == View(s, b).(mem := words)
  {
    assert View(s.(memory := s.memory[b := words]), b).nodes == View(s, b).nodes;
  }

  function Popped(v: State, i: nat): Node
    requires i < |v.nodes| && v.nodes[i].queue != []
  {
    v.nodes[i].(queue := v.nodes[i].queue[1..], stage := Fresh)
  }

  function Answered(v: State, i: nat, reply: Reply): seq<Node>
    requires i < |v.nodes| && v.nodes[i].queue != []
  {
    v.nodes[i := Popped(v, i).(inbox := v.nodes[i].inbox + [reply])]
  }

  lemma ServeWritebackOwn(s: System, i: nat, h: nat, b: nat)
    requires Serving(s, i, h, b)
    ensures View(s, b).nodes[i].queue != []
    ensures var v := View(s, b);
      View(ServeWriteback(s, i, h, b), b) == v.(nodes := v.nodes[i := Popped(v, i)], mask := v.mask - {i})
  {
    var s1 := Finished(s, (i, h));
    ServedHead(s, i, h, b);
    FinishedOwn(s, i, h, b);
    MaskView(s1, ServeWriteback(s, i, h, b).directory, b);
    assert Mask(s, b) - {i} == {} ==> Mask(ServeWriteback(s, i, h, b), b) == {};
  }

  /** Popping the request and answering it. */
  lemma AnswerOwn(s: System, i: nat, h: nat, b: nat, reply: Reply)
    requires Serving(s, i, h, b)
    ensures View(s, b).nodes[i].queue != []
    ensures var v := View(s, b);
      View(Finished(s, (i, h)).(replies := Send(s.replies, (h, i), Tagged(b, reply))), b) == v.(nodes := Answered(v, i, reply))
  {
    ServedHead(s, i, h, b);
    FinishedOwn(s, i, h, b);
    ReplyView(Finished(s, (i, h)), i, b, reply);
  }

  lemma ServeReadMissOwn(s: System, i: nat, h: nat, b: nat)
    requires Serving(s, i, h, b)
    ensures View(s, b).nodes[i].queue != []
    ensures var v := View(s, b);
      View(ServeReadMiss(s, i, h, b), b) == v.(nodes := Answered(v, i, Block(v.mem)), mask := v.mask + {i})
  {
    var reply := Block(WordsAt(s.memory, b));
    var s1 := Finished(s, (i, h)).(replies := Send(s.replies, (h, i), Tagged(b, reply)));
    AnswerOwn(s, i, h, b, reply);
    MaskView(s1, s.directory[b := Mask(s, b) + {i}], b);
  }

  lemma StoreOwn(s: System, i: nat, h: nat, b: nat, p: Patch)
    requires Serving(s, i, h, b)
    ensures var v := View(s, b);
      View(Store(s, i, h, b, p), b) == v.(nodes := v.nodes[i := v.nodes[i].(stage := Stored)], mem := Patched(v.mem, p))
  {
    StageOwn(s, i, h, b, Stored);
    MemoryView(s.(stages := s.stages[(i, h) := Stored]), b, Patched(WordsAt(s.memory, b), p));
  }

  lemma RenewAndReplyOwn(s: System, i: nat, h: nat, b: nat, p: Patch)
    requires Serving(s, i, h, b)
    ensures View(s, b).nodes[i].queue != []
    ensures var v := View(s, b);
      View(RenewAndReply(s, i, h, b, p), b) ==
        v.(nodes := RenewAll(Answered(v, i, Block(v.mem)), v.mask - {i}, p), mask := v.mask + {i})
  {
    var reply := Block(WordsAt(s.memory, b));
    var s1 := Finished(s, (i, h)).(replies := Send(s.replies, (h, i), Tagged(b, reply)));
    AnswerOwn(s, i, h, b, reply);
    var s2 := s1.(renews := Broadcast(s.renews, h, Mask(s, b) - {i}, Tagged(b, p)));
    BroadcastView(s1, b, Mask(s, b) - {i}, p);
    MaskView(s2, s.directory[b := Mask(s, b) + {i}], b);
  }

  /** What the home does to a request is what BlockProtocol says it does to the block. */
  lemma ServeOwn(s: System, i: nat, h: nat, b: nat)
    requires Serving(s, i, h, b)
    ensures View(s, b).nodes[i].queue != [] && View(ServeNext(s, i, h), b) == ServeStep(View(s, b), i)
  {
    ServedHead(s, i, h, b);
    match Queue(s.requests, (i, h))[0].body
    case Writeback => ServeWritebackOwn(s, i, h, b);
    case ReadMiss => ServeReadMissOwn(s, i, h, b);
    case Write(p) =>
      if StageOf(s, (i, h)) == Fresh {
        StoreOwn(s, i, h, b, p);
      } else if StageOf(s, (i, h)) == Stored {
        StageOwn(s, i, h, b, Fanning(Mask(s, b) - {i}));
      } else {
        AnswerOwn(s, i, h, b, Done);
      }
    case WriteMiss(p) =>
      if StageOf(s, (i, h)) == Fresh {
        StoreOwn(s, i, h, b, p);
      } else {
        RenewAndReplyOwn(s, i, h, b, p);
      }
  }

  lemma ServeRefines(s: System, i: nat, h: nat, block: nat)
    requires Routed(s) && CanStep(s, SystemStep.Serve(i, h))
    ensures StepsLike(s, Next(s, SystemStep.Serve(i, h)), SystemStep.Serve(i, h), block)
  {
    var b := Queue(s.requests, (i, h))[0].block;
    assert Serving(s, i, h, b);
    ServedHead(s, i, h, b);
    if b == block {
      ServeOwn(s, i, h, b);
    } else {
      ServeOther(s, i, h, b, block);
    }
  }

  lemma RenewView(s: System, j: nat, b: nat, p: Patch)
    requires |s.work| == |s.resident| && j < |s.work|
    ensures var v := View(s, b);
      View(s.(renews := Send(s.renews, (s.home(b), j), Tagged(b, p))), b)
        == v.(nodes := v.nodes[j := v.nodes[j].(renews := v.nodes[j].renews + [p])])
  {
    OnAppend(Queue(s.renews, (s.home(b), j)), Tagged(b, p), b);
    OnlyNode(s, s.(renews := Send(s.renews, (s.home(b), j), Tagged(b, p))), b, j);
  }

  lemma FanOutOther(s: System, i: nat, h: nat, j: nat, b: nat, p: Patch, todo: set<nat>, block: nat)
    requires Serving(s, i, h, b) && b != block
    ensures View(FanNext(s, i, h, j, b, p, todo), block) == View(s, block)
  {
    StageOther(s, i, h, b, block, Fanning(todo));
    SendUnseen(s.renews, (h, j), Tagged(b, p), block);
    assert StageUnseen(s, FanNext(s, i, h, j, b, p, todo), block);
    Invisible(s, FanNext(s, i, h, j, b, p, todo), block);
  }

  lemma FanOutOwn(s: System, i: nat, h: nat, j: nat, b: nat, p: Patch, todo: set<nat>)
    requires Serving(s, i, h, b) && j < |s.work|
    ensures var v := View(s, b);
      var nodes := v.nodes[i := v.nodes[i].(stage := Fanning(todo))];
      View(FanNext(s, i, h, j, b, p, todo), b) == v.(nodes := nodes[j := nodes[j].(renews := nodes[j].renews + [p])])
  {
    StageOwn(s, i, h, b, Fanning(todo));
    RenewView(s.(stages := s.stages[(i, h) := Fanning(todo)]), j, b, p);
  }

  lemma FanOutRefines(s: System, i: nat, h: nat, j: nat, block: nat)
    requires Routed(s) && CanStep(s, SystemStep.FanOut(i, h, j))
    ensures StepsLike(s, Next(s, SystemStep.FanOut(i, h, j)), SystemStep.FanOut(i, h, j), block)
  {
    var m := Queue(s.requests, (i, h))[0];
    var todo := StageOf(s, (i, h)).todo - {j};
    assert Serving(s, i, h, m.block);
    ServedHead(s, i, h, m.block);
    if m.block == block {
      FanOutOwn(s, i, h, j, m.block, m.body.p, todo);
    } else {
      FanOutOther(s, i, h, j, m.block, m.body.p, todo, block);
    }
  }

  // ---- renews and replies arriving ----

  predicate RenewAt(s: System, h: nat, j: nat, b: nat) {
    && |s.work| == |s.resident| && j < |s.work| && Queue(s.renews, (h, j)) != []
    && Queue(s.renews, (h, j))[0].block == b && s.home(b) == h
  }

  lemma TakeRenewOwn(s: System, h: nat, j: nat, b: nat)
    requires RenewAt(s, h, j, b)
    ensures View(s, b).nodes[j].renews != []
    ensures var v := View(s, b); View(TakeNext(s, h, j), b) == v.(nodes := v.nodes[j := Renewed(v.nodes[j])])
  {
    OnlyNode(s, TakeNext(s, h, j), b, j);
  }

  lemma TakeRenewOther(s: System, h: nat, j: nat, b: nat, block: nat)
    requires RenewAt(s, h, j, b) && b != block
    ensures View(TakeNext(s, h, j), block) == View(s, block)
  {
    PopUnseen(s.renews, (h, j), block);
    OnlyNode(s, TakeNext(s, h, j), block, j);
  }

  lemma TakeRenewRefines(s: System, h: nat, j: nat, block: nat)
    requires Routed(s) && CanStep(s, SystemStep.TakeRenew(h, j))
    ensures StepsLike(s, Next(s, SystemStep.TakeRenew(h, j)), SystemStep.TakeRenew(h, j), block)
  {
    var b := Queue(s.renews, (h, j))[0].block;
    assert RenewAt(s, h, j, b);
    if b == block {
      TakeRenewOwn(s, h, j, b);
    } else {
      TakeRenewOther(s, h, j, b, block);
    }
  }

  predicate ReplyAt(s: System, i: nat) {
    && |s.work| == |s.resident| && i < |s.work| && (s.work[i].AwaitMiss? || s.work[i].AwaitWrite?)
    && Queue(s.replies, (s.home(s.work[i].block), i)) != []
    && Expected(s.work[i], Queue(s.replies, (s.home(s.work[i].block), i))[0])
  }

  function Received(v: State, i: nat, op: Op, reply: Reply): State
    requires i < |v.nodes| && v.nodes[i].inbox != []
  {
    v.(nodes := v.nodes[i := v.nodes[i].(client := Idle, inbox := v.nodes[i].inbox[1..],
                                          copy := if reply.Block? then Some(reply.words) else v.nodes[i].copy)],
       latest := Completed(v.latest, op))
  }

  lemma LatestView(s: System, b: nat, words: seq<int>, block: nat)
    requires |s.work| == |s.resident|
    ensures View(s.(latest := s.latest[b := words]), block) == if b == block then View(s, block).(latest := words) else View(s, block)
  {
    assert View(s.(latest := s.latest[b := words]), block).nodes == View(s, block).nodes;
  }

  lemma PopReplyView(s: System, i: nat, b: nat)
    requires |s.work| == |s.resident| && i < |s.work|
    requires Queue(s.replies, (s.home(b), i)) != [] && Queue(s.replies, (s.home(b), i))[0].block == b
    ensures View(s, b).nodes[i].inbox != []
    ensures var v := View(s, b);
      View(s.(replies := Pop(s.replies, (s.home(b), i))), b) == v.(nodes := v.nodes[i := v.nodes[i].(inbox := v.nodes[i].inbox[1..])])
  {
    OnlyNode(s, s.(replies := Pop(s.replies, (s.home(b), i))), b, i);
  }

  lemma PopReplyOther(s: System, k: Pair, block: nat)
    requires |s.work| == |s.resident| && Queue(s.replies, k) != [] && Queue(s.replies, k)[0].block != block
    ensures View(s.(replies := Pop(s.replies, k)), block) == View(s, block)
  {
    PopUnseen(s.replies, k, block);
    Invisible(s, s.(replies := Pop(s.replies, k)), block);
  }

  /** The client is free again and has its copy; the reply is still in the queue. */
  function Settled(s: System, i: nat, b: nat, reply: Reply): (r: System)
    requires |s.work| == |s.resident| && i < |s.work|
    ensures |r.work| == |s.work| && |r.resident| == |s.work|
  {
    s.(work := s.work[i := Free], resident := if reply.Block? then s.resident[i := Place(s.resident[i], b, reply.words)] else s.resident)
  }

  lemma SettledOther(s: System, i: nat, b: nat, reply: Reply, block: nat)
    requires |s.work| == |s.resident| && i < |s.work| && (s.work[i].AwaitMiss? || s.work[i].AwaitWrite?)
    requires b == s.work[i].block && b != block
    ensures View(Settled(s, i, b, reply), block) == View(s, block)
  {
    LocalView(s, Settled(s, i, b, reply), block, i);
  }

  lemma ReceiveOwn(s: System, i: nat, b: nat, reply: Reply)
    requires ReplyAt(s, i) && b == s.work[i].block && reply == Queue(s.replies, (s.home(b), i))[0].body
    ensures View(s, b).nodes[i].inbox != [] && View(s, b).nodes[i].inbox[0] == reply
    ensures View(Take(s, i, b, s.work[i].op, reply), b) == Received(View(s, b), i, s.work[i].op, reply)
  {
    var s1 := Settled(s, i, b, reply);
    LocalView(s, s1, b, i);
    PopReplyView(s1, i, b);
    LatestView(s1.(replies := Pop(s.replies, (s.home(b), i))), b, Completed(WordsAt(s.latest, b), s.work[i].op), b);
  }

  lemma ReceiveOther(s: System, i: nat, b: nat, reply: Reply, block: nat)
    requires ReplyAt(s, i) && b == s.work[i].block && reply == Queue(s.replies, (s.home(b), i))[0].body && b != block
    ensures View(Take(s, i, b, s.work[i].op, reply), block) == View(s, block)
  {
    var s1 := Settled(s, i, b, reply);
    SettledOther(s, i, b, reply, block);
    PopReplyOther(s1, (s.home(b), i), block);
    LatestView(s1.(replies := Pop(s.replies, (s.home(b), i))), b, Completed(WordsAt(s.latest, b), s.work[i].op), block);
  }

  lemma ReceivedIsStep(v: State, i: nat, op: Op, home: nat)
    requires i < |v.nodes| && v.nodes[i].inbox != []
    ensures v.nodes[i].client == Client.AwaitMiss(op) && v.nodes[i].inbox[0].Block? ==>
      Enabled(v, RecvMiss(i)) && Received(v, i, op, v.nodes[i].inbox[0]) == Apply(v, RecvMiss(i), home)
    ensures v.nodes[i].client == Client.AwaitWrite(op) && v.nodes[i].inbox[0].Done? ==>
      Enabled(v, RecvWrite(i)) && Received(v, i, op, v.nodes[i].inbox[0]) == Apply(v, RecvWrite(i), home)
  {
  }

  lemma ReceiveRefines(s: System, i: nat, block: nat)
    requires Routed(s) && CanStep(s, SystemStep.Receive(i)) && ReplyAt(s, i)
    ensures StepsLike(s, Next(s, SystemStep.Receive(i)), SystemStep.Receive(i), block)
  {
    var b := s.work[i].block;
    var reply := Queue(s.replies, (s.home(b), i))[0].body;
    if b == block {
      ReceiveOwn(s, i, b, reply);
      ReceivedIsStep(View(s, b), i, s.work[i].op, s.home(b));
    } else {
      ReceiveOther(s, i, b, reply, block);
    }
  }

  // ---- the system's invariant ----

  /** A block nobody shares has no entry at all. */
  predicate NoEmptyMask(directory: map<nat, set<nat>>) {
    forall b :: b in directory ==> directory[b] != {}
  }

  ghost predicate Inv(s: System) {
    && Routed(s)
    && (forall b {:trigger View(s, b)} :: DirInv(View(s, b), s.home(b)))
    && NoEmptyMask(s.directory)
  }

  /** A client waits for one block at a time; about the others no reply is under way. */
  lemma NoStrayReply(s: System, i: nat, b: nat)
    requires Inv(s) && i < |s.work| && (s.work[i].AwaitMiss? || s.work[i].AwaitWrite?) && s.work[i].block != b
    ensures On(Queue(s.replies, (s.home(b), i)), b) == []
  {
    assert NodeOk(View(s, b), s.home(b), i);
    assert View(s, b).nodes[i].client == Idle;
  }

  lemma ExpectedKind(s: System, i: nat)
    requires Inv(s) && CanStep(s, SystemStep.Receive(i))
    requires Queue(s.replies, (s.home(s.work[i].block), i))[0].block == s.work[i].block
    ensures ReplyAt(s, i)
  {
    var b := s.work[i].block;
    assert NodeOk(View(s, b), s.home(b), i);
    assert View(s, b).nodes[i].inbox[0] == Queue(s.replies, (s.home(b), i))[0].body;
  }

  /** The one reply a client gets is the one it waits for: there is never a fault. */
  lemma ReplyIsExpected(s: System, i: nat)
    requires Inv(s) && CanStep(s, SystemStep.Receive(i))
    ensures ReplyAt(s, i)
  {
    var b := s.work[i].block;
    var q := Queue(s.replies, (s.home(b), i));
    var b' := q[0].block;
    assert s.home(b') == s.home(b);
    if b' != b {
      NoStrayReply(s, i, b');
      assert false;
    }
    ExpectedKind(s, i);
  }

  /** Every step of the system, seen from any block, is a step of BlockProtocol or nothing. */
  lemma SystemRefines(s: System, step: SystemStep, block: nat)
    requires Inv(s) && CanStep(s, step)
    ensures |Next(s, step).work| == |Next(s, step).resident| == |s.work|
    ensures StepsLike(s, Next(s, step), step, block)
  {
    match step
    case Begin(i, b, op) => BeginRefines(s, i, b, op, block);
    case HitGet(i) => HitGetRefines(s, i, block);
    case HitPut(i) => HitPutRefines(s, i, block);
    case Reserve(i) => ReserveRefines(s, i, block);
    case Swap(i, v) => SwapRefines(s, i, v, block);
    case SendWriteback(i) => SendWritebackRefines(s, i, block);
    case SendMiss(i) => SendMissRefines(s, i, block);
    case Serve(i, h) => ServeRefines(s, i, h, block);
    case FanOut(i, h, j) => FanOutRefines(s, i, h, j, block);
    case TakeRenew(h, j) => TakeRenewRefines(s, h, j, block);
    case Receive(i) =>
      ReplyIsExpected(s, i);
      ReceiveRefines(s, i, block);
  }

  lemma SendToHome<T(!new)>(q: map<Pair, seq<Tagged<T>>>, home: nat -> nat, k: Pair, m: Tagged<T>)
    ensures ToHome(q, home) && home(m.block) == k.1 ==> ToHome(Send(q, k, m), home)
    ensures FromHome(q, home) && home(m.block) == k.0 ==> FromHome(Send(q, k, m), home)
  {
    forall k': Pair, n | 0 <= n < |Queue(Send(q, k, m), k')|
      ensures Queue(Send(q, k, m), k')[n] == if n < |Queue(q, k')| then Queue(q, k')[n] else m
    {
    }
  }

  lemma PopToHome<T(!new)>(q: map<Pair, seq<Tagged<T>>>, home: nat -> nat, k: Pair)
    requires Queue(q, k) != []
    ensures ToHome(q, home) ==> ToHome(Pop(q, k), home)
    ensures FromHome(q, home) ==> FromHome(Pop(q, k), home)
  {
    forall k': Pair, n | 0 <= n < |Queue(Pop(q, k), k')|
      ensures Queue(Pop(q, k), k')[n] == Queue(q, k')[if k' == k then n + 1 else n]
    {
    }
  }

  lemma BroadcastFromHome<T(!new)>(q: map<Pair, seq<Tagged<T>>>, home: nat -> nat, from: nat, targets: set<nat>, m: Tagged<T>)
    requires FromHome(q, home) && home(m.block) == from
    ensures FromHome(Broadcast(q, from, targets, m), home)
  {
    forall k: Pair, n | 0 <= n < |Queue(Broadcast(q, from, targets, m), k)|
      ensures home(Queue(Broadcast(q, from, targets, m), k)[n].block) == k.0
    {
      assert n < |Queue(q, k)| ==> home(Queue(q, k)[n].block) == k.0;
    }
  }

  lemma SendStages<T(!new)>(q: map<Pair, seq<T>>, stages: map<Pair, Stage>, k: Pair, m: T)
    requires StagesOk(q, stages)
    ensures StagesOk(Send(q, k, m), stages)
  {
    forall k': Pair | k' in stages ensures stages[k'] == Fresh || Queue(Send(q, k, m), k') != [] {
      assert Queue(q, k') != [] ==> Queue(Send(q, k, m), k') != [];
    }
  }

  lemma RoutedFinished(s: System, i: nat, h: nat, b: nat)
    requires Routed(s) && Serving(s, i, h, b)
    ensures Routed(Finished(s, (i, h)))
  {
    PopToHome(s.requests, s.home, (i, h));
  }

  lemma RoutedReply(s: System, i: nat, b: nat, reply: Reply)
    requires Routed(s)
    ensures Routed(s.(replies := Send(s.replies, (s.home(b), i), Tagged(b, reply))))
  {
    SendToHome(s.replies, s.home, (s.home(b), i), Tagged(b, reply));
  }

  lemma RoutedRenews(s: System, i: nat, h: nat, b: nat, p: Patch)
    requires Routed(s) && Serving(s, i, h, b)
    ensures Routed(RenewAndReply(s, i, h, b, p))
  {
    RoutedFinished(s, i, h, b);
    RoutedReply(Finished(s, (i, h)), i, b, Block(WordsAt(s.memory, b)));
    BroadcastFromHome(s.renews, s.home, h, Mask(s, b) - {i}, Tagged(b, p));
  }

  lemma RoutedRead(s: System, i: nat, h: nat, b: nat)
    requires Routed(s) && Serving(s, i, h, b)
    ensures Routed(ServeReadMiss(s, i, h, b)) && Routed(ServeWriteback(s, i, h, b))
  {
    RoutedFinished(s, i, h, b);
    RoutedReply(Finished(s, (i, h)), i, b, Block(WordsAt(s.memory, b)));
  }

  lemma RoutedPut(s: System, i: nat, h: nat, b: nat, p: Patch, stage: Stage)
    requires Routed(s) && Serving(s, i, h, b)
    ensures Routed(Store(s, i, h, b, p)) && Routed(Acknowledge(s, i, h, b)) && Routed(s.(stages := s.stages[(i, h) := stage]))
  {
    RoutedFinished(s, i, h, b);
    RoutedReply(Finished(s, (i, h)), i, b, Done);
  }

  lemma RoutedServe(s: System, i: nat, h: nat, b: nat)
    requires Routed(s) && Serving(s, i, h, b)
    ensures Routed(ServeNext(s, i, h))
  {
    match Queue(s.requests, (i, h))[0].body
    case Writeback => RoutedRead(s, i, h, b);
    case ReadMiss => RoutedRead(s, i, h, b);
    case Write(p) => RoutedPut(s, i, h, b, p, Fanning(Mask(s, b) - {i}));
    case WriteMiss(p) =>
      RoutedPut(s, i, h, b, p, Fresh);
      RoutedRenews(s, i, h, b, p);
  }

  lemma RoutedRequest(s: System, i: nat, b: nat, req: Req)
    requires Routed(s)
    ensures Routed(s.(requests := Send(s.requests, (i, s.home(b)), Tagged(b, req))))
  {
    SendToHome(s.requests, s.home, (i, s.home(b)), Tagged(b, req));
    SendStages(s.requests, s.stages, (i, s.home(b)), Tagged(b, req));
  }

  lemma RoutedClient(s: System, step: SystemStep)
    requires Routed(s) && CanStep(s, step) && ClientSide(step)
    ensures Routed(Next(s, step))
  {
    var i := step.i;
    match step
    case HitPut(_) => RoutedRequest(s, i, s.work[i].block, Req.Write(s.work[i].op.p));
    case SendMiss(_) => RoutedRequest(s, i, s.work[i].block, MissRequest(s.work[i].op, i == s.home(s.work[i].block)));
    case SendWriteback(_) => RoutedRequest(s, i, s.work[i].victim, Req.Writeback);
    case _ =>
  }

  lemma RoutedFan(s: System, i: nat, h: nat, j: nat)
    requires Routed(s) && CanStep(s, SystemStep.FanOut(i, h, j))
    ensures Routed(Next(s, SystemStep.FanOut(i, h, j)))
  {
    var m := Queue(s.requests, (i, h))[0];
    SendToHome(s.renews, s.home, (h, j), Tagged(m.block, m.body.p));
  }

  lemma RoutedTake(s: System, h: nat, j: nat)
    requires Routed(s) && CanStep(s, SystemStep.TakeRenew(h, j))
    ensures Routed(Next(s, SystemStep.TakeRenew(h, j)))
  {
    PopToHome(s.renews, s.home, (h, j));
  }

  lemma RoutedReceive(s: System, i: nat)
    requires Routed(s) && CanStep(s, SystemStep.Receive(i)) && ReplyAt(s, i)
    ensures Routed(Next(s, SystemStep.Receive(i)))
  {
    PopToHome(s.replies, s.home, (s.home(s.work[i].block), i));
  }

  lemma RoutedStep(s: System, step: SystemStep)
    requires Inv(s) && CanStep(s, step)
    ensures Routed(Next(s, step))
  {
    match step
    case Serve(i, h) => RoutedServe(s, i, h, Queue(s.requests, (i, h))[0].block);
    case FanOut(i, h, j) => RoutedFan(s, i, h, j);
    case TakeRenew(h, j) => RoutedTake(s, h, j);
    case Receive(i) =>
      ReplyIsExpected(s, i);
      RoutedReceive(s, i);
    case _ => RoutedClient(s, step);
  }
}
