/**
What holds of every run of the directory cache: the directory tracks the copies, replies are never
for somebody else, words only come from puts; and when no put overlaps anything on its block, reads
return what the last completed puts left.
*/
module DirectoryTheorems {
  import opened BlockProtocol
  import opened Coherence
  import opened Directory
  import opened Options
  import opened Words

  // ---- one step ----

  lemma NewSharer(directory: map<nat, set<nat>>, b: nat, sharers: set<nat>, i: nat)
    requires NoEmptyMask(directory) && i in sharers
    ensures NoEmptyMask(directory[b := sharers])
  {
  }

  lemma HandlerMasks(s: System, i: nat, h: nat, b: nat)
    requires NoEmptyMask(s.directory) && Queue(s.requests, (i, h)) != []
    ensures NoEmptyMask(ServeWriteback(s, i, h, b).directory) && NoEmptyMask(ServeReadMiss(s, i, h, b).directory)
    ensures NoEmptyMask(s.directory[b := Mask(s, b) + {i}])
  {
    NewSharer(s.directory, b, Mask(s, b) + {i}, i);
  }

  /** Storing, fanning out and acknowledging leave the directory alone. */
  lemma PutMasks(s: System, i: nat, h: nat)
    requires Queue(s.requests, (i, h)) != []
    requires var body := Queue(s.requests, (i, h))[0].body; body.Write? || (body.WriteMiss? && StageOf(s, (i, h)) == Fresh)
    ensures ServeNext(s, i, h).directory == s.directory
  {
  }

  lemma RenewMasks(s: System, i: nat, h: nat)
    requires Queue(s.requests, (i, h)) != [] && Queue(s.requests, (i, h))[0].body.WriteMiss? && StageOf(s, (i, h)) != Fresh
    ensures var b := Queue(s.requests, (i, h))[0].block;
      ServeNext(s, i, h).directory == s.directory[b := Mask(s, b) + {i}]
  {
  }

  lemma ServeMasks(s: System, i: nat, h: nat)
    requires NoEmptyMask(s.directory) && Queue(s.requests, (i, h)) != []
    ensures NoEmptyMask(ServeNext(s, i, h).directory)
  {
    var m := Queue(s.requests, (i, h))[0];
    HandlerMasks(s, i, h, m.block);
    if m.body.Write? || (m.body.WriteMiss? && StageOf(s, (i, h)) == Fresh) {
      PutMasks(s, i, h);
    } else if m.body.WriteMiss? {
      RenewMasks(s, i, h);
    }
  }

  lemma MasksStep(s: System, step: SystemStep)
    requires NoEmptyMask(s.directory) && CanStep(s, step)
    ensures NoEmptyMask(Next(s, step).directory)
  {
    if step.Serve? {
      ServeMasks(s, step.i, step.home);
    } else {
      assert Next(s, step).directory == s.directory;
    }
  }

  lemma SameSetting(s: System, step: SystemStep)
    requires CanStep(s, step)
    ensures Next(s, step).home == s.home && |Next(s, step).work| == |s.work|
  {
    match step
    case _ =>
  }

  lemma BlockInvStep(s: System, step: SystemStep, b: nat)
    requires Inv(s) && CanStep(s, step)
    ensures |Next(s, step).resident| == |Next(s, step).work| && DirInv(View(Next(s, step), b), s.home(b))
  {
    SystemRefines(s, step, b);
    assert DirInv(View(s, b), s.home(b));
    var t := BlockStep(s, step, b);
    if t.Some? {
      DirStep(View(s, b), t.value, s.home(b));
    }
  }

  lemma InvStep(s: System, step: SystemStep)
    requires Inv(s) && CanStep(s, step)
    ensures Inv(Next(s, step))
  {
    RoutedStep(s, step);
    MasksStep(s, step);
    SameSetting(s, step);
    forall b ensures DirInv(View(Next(s, step), b), s.home(b)) {
      BlockInvStep(s, step, b);
    }
  }

  lemma InvStart(nodes: nat)
    requires nodes > 0
    ensures Inv(Start(nodes))
  {
    var s := Start(nodes);
    forall b ensures DirInv(View(s, b), s.home(b)) {
      assert View(s, b) == Init(nodes);
      InitDir(nodes, s.home(b));
    }
  }

  // ---- runs ----

  ghost predicate Moves(s: System, step: SystemStep, s': System) {
    CanStep(s, step) && s' == Next(s, step)
  }

  predicate IsStep(steps: seq<SystemStep>, n: int) {
    0 <= n < |steps|
  }

  /** A run of `nodes` nodes: states[n] is the state after the first n steps. */
  ghost predicate Run(nodes: nat, states: seq<System>, steps: seq<SystemStep>) {
    && 1 <= nodes <= 64 && |states| == |steps| + 1 && states[0] == Start(nodes)
    && forall n {:trigger IsStep(steps, n)} :: IsStep(steps, n) ==> Moves(states[n], steps[n], states[n + 1])
  }

  lemma MoveInv(s: System, step: SystemStep, s': System)
    requires Inv(s) && Moves(s, step, s')
    ensures Inv(s') && s'.home == s.home && |s'.work| == |s.work|
  {
    InvStep(s, step);
    SameSetting(s, step);
  }

  lemma StepInRun(nodes: nat, states: seq<System>, steps: seq<SystemStep>, n: nat)
    requires Run(nodes, states, steps) && 0 < n < |states|
    ensures Moves(states[n - 1], steps[n - 1], states[n])
  {
    assert IsStep(steps, n - 1);
  }

  lemma NextInv(nodes: nat, states: seq<System>, steps: seq<SystemStep>, n: nat)
    requires Run(nodes, states, steps) && 0 < n < |states| && Inv(states[n - 1])
    ensures Inv(states[n]) && states[n].home == states[n - 1].home && |states[n].work| == |states[n - 1].work|
  {
    StepInRun(nodes, states, steps, n);
    MoveInv(states[n - 1], steps[n - 1], states[n]);
  }

  lemma {:induction false} RunInv(nodes: nat, states: seq<System>, steps: seq<SystemStep>, n: nat)
    requires Run(nodes, states, steps) && n < |states|
    ensures Inv(states[n]) && |states[n].work| == nodes && states[n].home == Start(nodes).home
  {
    if n == 0 {
      InvStart(nodes);
    } else {
      RunInv(nodes, states, steps, n - 1);
      NextInv(nodes, states, steps, n);
    }
  }

  ghost predicate Silent<T(!new)>(q: map<Pair, seq<T>>) {
    forall k: Pair :: k in q ==> q[k] == []
  }

  /** No message is in flight and no client is in the middle of anything. */
  ghost predicate SystemQuiet(s: System) {
    && Silent(s.requests) && Silent(s.replies) && Silent(s.renews)
    && forall i :: 0 <= i < |s.work| ==> s.work[i].Free?
  }

  /** No write-back of the block is on its way from node i. */
  ghost predicate NoWriteback(s: System, i: nat, b: nat) {
    forall n {:trigger Queue(s.requests, (i, s.home(b)))[n]} :: 0 <= n < |Queue(s.requests, (i, s.home(b)))| ==>
      Queue(s.requests, (i, s.home(b)))[n] != Tagged(b, Req.Writeback)
  }

  lemma {:induction false} OnHas<T>(q: seq<Tagged<T>>, b: nat, n: nat)
    requires n < |q| && q[n].block == b
    ensures exists k :: 0 <= k < |On(q, b)| && On(q, b)[k] == q[n].body
  {
    if n == 0 {
      assert On(q, b)[0] == q[0].body;
    } else {
      OnHas(q[1..], b, n - 1);
      var k :| 0 <= k < |On(q[1..], b)| && On(q[1..], b)[k] == q[n].body;
      var k' := if q[0].block == b then k + 1 else k;
      assert On(q, b)[k'] == q[n].body;
    }
  }

  /** In every interleaving, a node's copy is in the directory and no write-back of it is on its way. */
  lemma DirectoryKnowsCopies(nodes: nat, states: seq<System>, steps: seq<SystemStep>, n: nat, i: nat, b: nat)
    requires Run(nodes, states, steps) && n < |states| && i < nodes
    ensures |states[n].resident| == nodes
    ensures b in states[n].resident[i] ==> i in Mask(states[n], b) && NoWriteback(states[n], i, b)
  {
    RunInv(nodes, states, steps, n);
    var s := states[n];
    if b in s.resident[i] {
      assert DirInv(View(s, b), s.home(b));
      CopyMeansBit(View(s, b), s.home(b), i);
      var q := Queue(s.requests, (i, s.home(b)));
      forall m | 0 <= m < |q| ensures q[m] != Tagged(b, Req.Writeback) {
        if q[m] == Tagged(b, Req.Writeback) {
          OnHas(q, b, m);
        }
      }
    }
  }

  /** With nothing in flight the directory is exact, and blocks nobody holds have no entry. */
  lemma QuietDirectoryIsExact(nodes: nat, states: seq<System>, steps: seq<SystemStep>, n: nat, b: nat)
    requires Run(nodes, states, steps) && n < |states| && SystemQuiet(states[n])
    ensures |states[n].resident| == nodes
    ensures Mask(states[n], b) == set i | 0 <= i < nodes && b in states[n].resident[i]
    ensures b in states[n].directory <==> exists i :: 0 <= i < nodes && b in states[n].resident[i]
  {
    RunInv(nodes, states, steps, n);
    var s := states[n];
    var v := View(s, b);
    assert Quiet(v);
    forall i ensures i in v.mask <==> 0 <= i < nodes && b in s.resident[i] {
      if i >= 0 {
        QuietMaskIsExact(v, s.home(b), i);
      }
    }
    if b in s.directory {
      var i :| i in s.directory[b];
      assert i in v.mask;
    }
  }

  /** The home never sees a wrong address and no client ever gets somebody else's reply. */
  lemma NeverFaulted(nodes: nat, states: seq<System>, steps: seq<SystemStep>, n: nat)
    requires Run(nodes, states, steps) && n < |states|
    ensures !states[n].faulted
  {
    RunInv(nodes, states, steps, n);
  }

  // ---- what a read returns ----

  datatype Read = Read(block: nat, words: seq<int>)

  /** The block a `get` on this step returns its words from. */
  function ReadOf(s: System, step: SystemStep): Option<Read>
    requires CanStep(s, step)
  {
    match step
    case HitGet(i) => Some(Read(s.work[i].block, s.resident[i][s.work[i].block]))
    case Receive(i) =>
      var m := Queue(s.replies, (s.home(s.work[i].block), i))[0];
      if s.work[i].op.Get? && Expected(s.work[i], m) && m.body.Block? then Some(Read(m.block, m.body.words)) else None
    case _ => None
  }

  /** Reading in the system is reading in the block's view. */
  lemma ReadView(s: System, step: SystemStep)
    requires Inv(s) && CanStep(s, step) && ReadOf(s, step).Some?
    ensures var r := ReadOf(s, step).value;
      var t := BlockStep(s, step, r.block);
      t.Some? && BlockProtocol.Enabled(View(s, r.block), t.value) && ReadResult(View(s, r.block), t.value) == Some(r.words)
  {
    var b := ReadOf(s, step).value.block;
    SystemRefines(s, step, b);
    if step.Receive? {
      var q := Queue(s.replies, (s.home(b), step.i));
      assert On(q, b)[0] == q[0].body;
    }
  }

  ghost predicate AllKnown(s: System)
    requires |s.work| == |s.resident|
  {
    forall b {:trigger View(s, b)} :: Provenance(View(s, b))
  }

  lemma MoveKnown(s: System, step: SystemStep, s': System)
    requires Inv(s) && Moves(s, step, s') && AllKnown(s)
    ensures |s'.work| == |s'.resident| && AllKnown(s')
  {
    MoveInv(s, step, s');
    forall b ensures Provenance(View(s', b)) {
      SystemRefines(s, step, b);
      assert Provenance(View(s, b));
      var t := BlockStep(s, step, b);
      if t.Some? {
        ProvenanceStep(View(s, b), t.value, s.home(b));
      }
    }
  }

  lemma StartKnown(nodes: nat)
    requires nodes > 0
    ensures AllKnown(Start(nodes))
  {
    forall b ensures Provenance(View(Start(nodes), b)) {
      assert View(Start(nodes), b) == Init(nodes);
      InitProvenance(nodes);
    }
  }

  lemma NextKnown(nodes: nat, states: seq<System>, steps: seq<SystemStep>, n: nat)
    requires Run(nodes, states, steps) && 0 < n < |states| && Inv(states[n - 1]) && AllKnown(states[n - 1])
    ensures |states[n].work| == |states[n].resident| && AllKnown(states[n])
  {
    StepInRun(nodes, states, steps, n);
    MoveKnown(states[n - 1], steps[n - 1], states[n]);
  }

  lemma {:induction false} RunKnown(nodes: nat, states: seq<System>, steps: seq<SystemStep>, n: nat)
    requires Run(nodes, states, steps) && n < |states|
    ensures Inv(states[n]) && AllKnown(states[n])
  {
    RunInv(nodes, states, steps, n);
    if n == 0 {
      StartKnown(nodes);
    } else {
      RunKnown(nodes, states, steps, n - 1);
      NextKnown(nodes, states, steps, n);
    }
  }

  /** The step starts a put that carries word w for place k of block b. */
  predicate Puts(step: SystemStep, b: nat, k: nat, w: int) {
    step.Begin? && step.block == b && step.op.Put? && step.op.p.off <= k < step.op.p.off + |step.op.p.data|
    && step.op.p.data[k - step.op.p.off] == w
  }

  lemma SamePuts(s: System, step: SystemStep)
    requires CanStep(s, step) && !step.Begin?
    ensures Next(s, step).puts == s.puts
  {
    match step
    case Serve(_, _) =>
    case _ =>
  }

  lemma MovePuts(s: System, step: SystemStep, s': System, b: nat, k: nat, w: int)
    requires Moves(s, step, s') && (k, w) in PutsAt(s'.puts, b)
    ensures (k, w) in PutsAt(s.puts, b) || Puts(step, b, k, w)
  {
    if !step.Begin? {
      SamePuts(s, step);
    }
  }

  /** The history of puts is made of the puts that were started. */
  lemma {:induction false} PutsWereStarted(nodes: nat, states: seq<System>, steps: seq<SystemStep>, n: nat, b: nat, k: nat, w: int)
    requires Run(nodes, states, steps) && n < |states| && (k, w) in PutsAt(states[n].puts, b)
    ensures exists m :: 0 <= m < n && Puts(steps[m], b, k, w)
  {
    if n > 0 {
      RunInv(nodes, states, steps, n - 1);
      StepInRun(nodes, states, steps, n);
      MovePuts(states[n - 1], steps[n - 1], states[n], b, k, w);
      if !Puts(steps[n - 1], b, k, w) {
        PutsWereStarted(nodes, states, steps, n - 1, b, k, w);
      }
    }
  }

  /** Races included: every word a read returns is the initial zero or was put at its place before. */
  lemma ReadsComeFromPuts(nodes: nat, states: seq<System>, steps: seq<SystemStep>, n: nat, k: nat)
    requires Run(nodes, states, steps) && n < |steps| && k < BLOCK
    requires CanStep(states[n], steps[n]) && ReadOf(states[n], steps[n]).Some?
    ensures var r := ReadOf(states[n], steps[n]).value;
      |r.words| == BLOCK && (r.words[k] == 0 || exists m :: 0 <= m < n && Puts(steps[m], r.block, k, r.words[k]))
  {
    RunKnown(nodes, states, steps, n);
    var s, r := states[n], ReadOf(states[n], steps[n]).value;
    ReadView(s, steps[n]);
    assert Provenance(View(s, r.block));
    ReadsAreKnown(View(s, r.block), BlockStep(s, steps[n], r.block).value);
    assert Known(r.words, PutsAt(s.puts, r.block));
    if r.words[k] != 0 {
      assert (k, r.words[k]) in PutsAt(s.puts, r.block);
      PutsWereStarted(nodes, states, steps, n, r.block, k, r.words[k]);
    }
  }

  // ---- coherence ----

  /** No client works on the block. */
  predicate Unused(s: System, b: nat) {
    forall j {:trigger s.work[j]} :: 0 <= j < |s.work| ==> s.work[j].Free? || s.work[j].block != b
  }

  /** No client is putting anything into the block, and no renew for it is under way. */
  ghost predicate Unwritten(s: System, b: nat) {
    && (forall j {:trigger s.work[j]} :: 0 <= j < |s.work| ==> s.work[j].Free? || s.work[j].block != b || s.work[j].op.Get?)
    && (forall k: Pair, n {:trigger Queue(s.renews, k)[n]} :: 0 <= n < |Queue(s.renews, k)| ==> Queue(s.renews, k)[n].block != b)
  }

  /**
  The guard: a put overlaps no other operation on its block (its renews are part of it), gets may
  overlap gets, and a write miss at the home itself carries one word.
  */
  ghost predicate Apart(s: System, step: SystemStep)
    requires CanStep(s, step)
  {
    match step
    case Begin(_, b, op) => Unwritten(s, b) && (op.Put? ==> Unused(s, b))
    case SendMiss(i) => s.work[i].op.Put? && i == s.home(s.work[i].block) ==> |s.work[i].op.p.data| == 1
    case _ => true
  }

  lemma {:induction false} OnAbsent<T>(q: seq<Tagged<T>>, b: nat)
    requires forall n {:trigger q[n]} :: 0 <= n < |q| ==> q[n].block != b
    ensures On(q, b) == []
  {
    if q != [] {
      assert forall n {:trigger q[1..][n]} :: 0 <= n < |q[1..]| ==> q[1..][n] == q[n + 1];
      OnAbsent(q[1..], b);
    }
  }

  lemma UnwrittenView(s: System, b: nat)
    requires |s.work| == |s.resident| && Unwritten(s, b)
    ensures NoPut(View(s, b)) && (Unused(s, b) ==> NoTransaction(View(s, b)))
  {
    var v := View(s, b);
    forall j | 0 <= j < |v.nodes|
      ensures !Writing(v.nodes[j]) && v.nodes[j].renews == [] && (Unused(s, b) ==> !Active(v.nodes[j]))
    {
      assert v.nodes[j] == NodeView(s, b, j) && (s.work[j].Free? || s.work[j].block != b || s.work[j].op.Get?);
      OnAbsent(Queue(s.renews, (s.home(b), j)), b);
    }
  }

  lemma ApartIsGuarded(s: System, step: SystemStep, b: nat)
    requires Inv(s) && CanStep(s, step) && Apart(s, step)
    ensures var t := BlockStep(s, step, b);
      t.Some? ==> BlockProtocol.Enabled(View(s, b), t.value) && Guarded(View(s, b), t.value, s.home(b))
  {
    BlockStepEnabled(s, step, b);
    if step.Begin? && step.block == b {
      UnwrittenView(s, b);
    }
  }

  lemma BlockStepEnabled(s: System, step: SystemStep, b: nat)
    requires Inv(s) && CanStep(s, step)
    ensures BlockStep(s, step, b).Some? ==> BlockProtocol.Enabled(View(s, b), BlockStep(s, step, b).value)
  {
    SystemRefines(s, step, b);
  }

  ghost predicate AllCoherent(s: System)
    requires |s.work| == |s.resident|
  {
    forall b {:trigger View(s, b)} :: Coherent(View(s, b), s.home(b))
  }

  lemma MoveCoherent(s: System, step: SystemStep, s': System)
    requires Inv(s) && Moves(s, step, s') && Apart(s, step) && AllCoherent(s)
    ensures |s'.work| == |s'.resident| && AllCoherent(s')
  {
    MoveInv(s, step, s');
    forall b ensures Coherent(View(s', b), s'.home(b)) {
      SystemRefines(s, step, b);
      ApartIsGuarded(s, step, b);
      assert Coherent(View(s, b), s.home(b));
      var t := BlockStep(s, step, b);
      if t.Some? {
        CoherentStep(View(s, b), t.value, s.home(b));
      }
    }
  }

  lemma StartCoherent(nodes: nat)
    requires nodes > 0
    ensures AllCoherent(Start(nodes))
  {
    var s := Start(nodes);
    forall b ensures Coherent(View(s, b), s.home(b)) {
      assert View(s, b) == Init(nodes);
      InitCoherent(nodes, s.home(b));
    }
  }

  /** All steps of the run up to step n keep transactions on a block apart. */
  ghost predicate AllApart(states: seq<System>, steps: seq<SystemStep>, n: nat) {
    n <= |steps| <= |states|
    && forall m {:trigger IsStep(steps, m)} :: IsStep(steps, m) && m < n ==> CanStep(states[m], steps[m]) && Apart(states[m], steps[m])
  }

  lemma NextCoherent(nodes: nat, states: seq<System>, steps: seq<SystemStep>, n: nat)
    requires Run(nodes, states, steps) && 0 < n < |states| && AllApart(states, steps, n)
    requires Inv(states[n - 1]) && AllCoherent(states[n - 1])
    ensures |states[n].work| == |states[n].resident| && AllCoherent(states[n])
  {
    StepInRun(nodes, states, steps, n);
    assert IsStep(steps, n - 1);
    MoveCoherent(states[n - 1], steps[n - 1], states[n]);
  }

  lemma {:induction false} RunCoherent(nodes: nat, states: seq<System>, steps: seq<SystemStep>, n: nat)
    requires Run(nodes, states, steps) && n < |states| && AllApart(states, steps, n)
    ensures Inv(states[n]) && AllCoherent(states[n])
  {
    RunInv(nodes, states, steps, n);
    if n == 0 {
      StartCoherent(nodes);
    } else {
      RunCoherent(nodes, states, steps, n - 1);
      NextCoherent(nodes, states, steps, n);
    }
  }

  /** The step completes a put on block b that covers place k. */
  predicate Completes(s: System, step: SystemStep, b: nat, k: nat) {
    CanStep(s, step) && step.Receive? && s.work[step.i].block == b && s.work[step.i].op.Put?
    && s.work[step.i].op.p.off <= k < s.work[step.i].op.p.off + |s.work[step.i].op.p.data|
  }

  /** What the puts completed in the first n steps left at place k of block b; zero if there were none. */
  function LastPut(states: seq<System>, steps: seq<SystemStep>, n: nat, b: nat, k: nat): int
    requires n <= |steps| <= |states|
  {
    if n == 0 then 0
    else if Completes(states[n - 1], steps[n - 1], b, k) then
      var op := states[n - 1].work[steps[n - 1].i].op;
      op.p.data[k - op.p.off]
    else LastPut(states, steps, n - 1, b, k)
  }

  lemma SameLatest(s: System, step: SystemStep)
    requires CanStep(s, step) && !step.Receive?
    ensures Next(s, step).latest == s.latest
  {
    match step
    case Serve(_, _) =>
    case _ =>
  }

  lemma MoveLatest(s: System, step: SystemStep, s': System, b: nat, k: nat)
    requires Inv(s) && Moves(s, step, s') && k < |WordsAt(s.latest, b)|
    ensures |WordsAt(s'.latest, b)| == |WordsAt(s.latest, b)|
    ensures WordsAt(s'.latest, b)[k] ==
      if Completes(s, step, b, k) then s.work[step.i].op.p.data[k - s.work[step.i].op.p.off] else WordsAt(s.latest, b)[k]
  {
    if step.Receive? {
      ReplyIsExpected(s, step.i);
    } else {
      SameLatest(s, step);
    }
  }

  lemma {:induction false} LatestIsLastPut(nodes: nat, states: seq<System>, steps: seq<SystemStep>, n: nat, b: nat, k: nat)
    requires Run(nodes, states, steps) && n < |states| && k < BLOCK
    ensures |WordsAt(states[n].latest, b)| == BLOCK && WordsAt(states[n].latest, b)[k] == LastPut(states, steps, n, b, k)
  {
    if n > 0 {
      LatestIsLastPut(nodes, states, steps, n - 1, b, k);
      RunInv(nodes, states, steps, n - 1);
      StepInRun(nodes, states, steps, n);
      MoveLatest(states[n - 1], steps[n - 1], states[n], b, k);
    }
  }

  /**
  Coherence: when no put overlaps anything on its block, with other blocks and evictions going on
  freely, every word a read returns is the one the latest completed put left there, or zero.
  */
  lemma ReadsReturnLatest(nodes: nat, states: seq<System>, steps: seq<SystemStep>, n: nat, k: nat)
    requires Run(nodes, states, steps) && n < |steps| && k < BLOCK && AllApart(states, steps, n)
    requires CanStep(states[n], steps[n]) && ReadOf(states[n], steps[n]).Some?
    ensures var r := ReadOf(states[n], steps[n]).value;
      |r.words| == BLOCK && r.words[k] == LastPut(states, steps, n, r.block, k)
  {
    RunCoherent(nodes, states, steps, n);
    var s, r := states[n], ReadOf(states[n], steps[n]).value;
    ReadView(s, steps[n]);
    assert Coherent(View(s, r.block), s.home(r.block));
    ReadReturnsLatest(View(s, r.block), BlockStep(s, steps[n], r.block).value, s.home(r.block));
    LatestIsLastPut(nodes, states, steps, n, r.block, k);
  }
}
