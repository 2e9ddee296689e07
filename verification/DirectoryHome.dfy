/**
A block's home as the object that handles the messages for it: a hash map of sharer masks, the backend
and the sockets it answers on. Each handler, run to its end, does to the whole system what the steps of
module Directory do one by one.
*/
module DirectoryHome {
  import opened BlockProtocol
  import opened Directory
  import opened Masks
  import opened Words

  // ---- a request handled without interruption ----

  function Try(s: System, step: SystemStep): System {
    if CanStep(s, step) then Next(s, step) else s
  }

  function Once(s: System, i: nat, h: nat): System {
    Try(s, SystemStep.Serve(i, h))
  }

  /** The renews of a write, in the order of the loop over the caches. */
  function Fan(s: System, i: nat, h: nat, k: nat): System {
    if k == 0 then s else Try(Fan(s, i, h, k - 1), SystemStep.FanOut(i, h, k - 1))
  }

  /** All the home's steps for the request at the head of node i's queue. */
  function Handled(s: System, i: nat, h: nat): System
    requires Queue(s.requests, (i, h)) != []
  {
    match Queue(s.requests, (i, h))[0].body
    case Writeback => Once(s, i, h)
    case ReadMiss => Once(s, i, h)
    case WriteMiss(_) => Once(Once(s, i, h), i, h)
    case Write(_) => Once(Fan(Once(Once(s, i, h), i, h), i, h, |s.work|), i, h)
  }

  /** Node i's next request to h is this one, and it has not been looked at. */
  predicate Asks(s: System, i: nat, h: nat, b: nat, req: Req) {
    && i < |s.work| == |s.resident| && h < |s.work| && s.home(b) == h && StageOf(s, (i, h)) == Fresh
    && Queue(s.requests, (i, h)) != [] && Queue(s.requests, (i, h))[0] == Tagged(b, req)
  }

  /** Whether FanOut(i, h, j) has sent its renew once the loop has passed k caches. */
  predicate Renewed(s: System, i: nat, b: nat, k: nat, j: nat) {
    j < k && j in Mask(s, b) && j != i
  }

  /** Connection (h, j) in s' has the renews the loop has sent when it has passed k caches. */
  predicate Lane(s: System, s': System, i: nat, h: nat, m: Tagged<Patch>, k: nat, j: nat) {
    Queue(s'.renews, (h, j)) == Queue(s.renews, (h, j)) + if Renewed(s, i, m.block, k, j) then [m] else []
  }

  /** s' is s with the put stored. */
  ghost predicate PutDone(s: System, s': System, b: nat, p: Patch) {
    && |s'.work| == |s'.resident| == |s.work| && s'.home == s.home
    && s'.requests == s.requests && s'.directory == s.directory && s'.replies == s.replies
    && s'.memory == s.memory[b := Patched(WordsAt(s.memory, b), p)]
  }

  /** ... and the first k caches of the loop renewed. */
  ghost predicate Fanned(s: System, s': System, i: nat, h: nat, b: nat, p: Patch, k: nat) {
    && PutDone(s, s', b, p)
    && StageOf(s', (i, h)) == Fanning(set j | j in Mask(s, b) && k <= j && j != i)
    && forall j: nat {:trigger Lane(s, s', i, h, Tagged(b, p), k, j)} :: Lane(s, s', i, h, Tagged(b, p), k, j)
  }

  lemma FirstStep(s: System, i: nat, h: nat, b: nat, p: Patch)
    requires Asks(s, i, h, b, Req.Write(p))
    ensures Once(s, i, h) == Store(s, i, h, b, p)
  {
  }

  lemma SecondStep(s: System, s1: System, i: nat, h: nat, b: nat, p: Patch)
    requires Asks(s, i, h, b, Req.Write(p)) && s1 == Store(s, i, h, b, p)
    ensures Once(s1, i, h) == s1.(stages := s1.stages[(i, h) := Fanning(Mask(s1, b) - {i})])
  {
    assert StageOf(s1, (i, h)) == Stage.Stored;
  }

  lemma FanStarts(s: System, i: nat, h: nat, b: nat, p: Patch)
    requires Asks(s, i, h, b, Req.Write(p))
    ensures Fanned(s, Once(Once(s, i, h), i, h), i, h, b, p, 0)
  {
    FirstStep(s, i, h, b, p);
    var s1 := Store(s, i, h, b, p);
    SecondStep(s, s1, i, h, b, p);
    assert Mask(s1, b) - {i} == set j | j in Mask(s, b) && 0 <= j && j != i;
  }

  lemma FanSends(s: System, s1: System, i: nat, h: nat, b: nat, p: Patch, k: nat)
    requires Asks(s, i, h, b, Req.Write(p)) && PutDone(s, s1, b, p) && k < |s.work|
    requires StageOf(s1, (i, h)).Fanning?
    ensures Try(s1, SystemStep.FanOut(i, h, k)) ==
      if k in StageOf(s1, (i, h)).todo then FanNext(s1, i, h, k, b, p, StageOf(s1, (i, h)).todo - {k}) else s1
  {
  }

  lemma FanOnce(s: System, s1: System, i: nat, h: nat, b: nat, p: Patch, k: nat)
    requires Asks(s, i, h, b, Req.Write(p)) && Fanned(s, s1, i, h, b, p, k) && k < |s.work|
    ensures Fanned(s, Try(s1, SystemStep.FanOut(i, h, k)), i, h, b, p, k + 1)
  {
    FanSends(s, s1, i, h, b, p, k);
    var s2 := Try(s1, SystemStep.FanOut(i, h, k));
    var todo := StageOf(s1, (i, h)).todo;
    assert todo - {k} == set j | j in Mask(s, b) && k + 1 <= j && j != i;
    forall j: nat {:trigger Queue(s2.renews, (h, j))} ensures Lane(s, s2, i, h, Tagged(b, p), k + 1, j) {
      assert Lane(s, s1, i, h, Tagged(b, p), k, j);
    }
    if k !in todo {
      assert todo - {k} == todo;
    }
  }

  lemma {:induction false} FanLoop(s: System, s1: System, i: nat, h: nat, b: nat, p: Patch, k: nat)
    requires Asks(s, i, h, b, Req.Write(p)) && Fanned(s, s1, i, h, b, p, 0) && k <= |s.work|
    ensures Fanned(s, Fan(s1, i, h, k), i, h, b, p, k)
    decreases k
  {
    if k > 0 {
      FanLoop(s, s1, i, h, b, p, k - 1);
      FanOnce(s, Fan(s1, i, h, k - 1), i, h, b, p, k - 1);
    }
  }

  lemma LastStep(s: System, s1: System, i: nat, h: nat, b: nat, p: Patch)
    requires Asks(s, i, h, b, Req.Write(p)) && PutDone(s, s1, b, p) && StageOf(s1, (i, h)) == Fanning({})
    ensures Once(s1, i, h) == Acknowledge(s1, i, h, b)
  {
  }

  /** What a Write has done in the end. */
  lemma WriteHandled(s: System, i: nat, h: nat, b: nat, p: Patch) returns (s': System)
    requires Asks(s, i, h, b, Req.Write(p)) && forall j :: j in Mask(s, b) ==> j < |s.work|
    ensures Fanned(s, s', i, h, b, p, |s.work|) && Queue(s'.requests, (i, h)) != []
    ensures Handled(s, i, h) == Acknowledge(s', i, h, b)
  {
    FanStarts(s, i, h, b, p);
    var s1 := Once(Once(s, i, h), i, h);
    FanLoop(s, s1, i, h, b, p, |s.work|);
    s' := Fan(s1, i, h, |s.work|);
    assert StageOf(s', (i, h)) == Fanning({});
    LastStep(s, s', i, h, b, p);
  }

  lemma OthersHandled(s: System, i: nat, h: nat, b: nat)
    ensures Asks(s, i, h, b, Req.Writeback) ==> Handled(s, i, h) == ServeWriteback(s, i, h, b)
    ensures Asks(s, i, h, b, Req.ReadMiss) ==> Handled(s, i, h) == ServeReadMiss(s, i, h, b)
  {
  }

  lemma MissHandled(s: System, i: nat, h: nat, b: nat, p: Patch)
    requires Asks(s, i, h, b, Req.WriteMiss(p))
    ensures Queue(Store(s, i, h, b, p).requests, (i, h)) != []
    ensures Handled(s, i, h) == RenewAndReply(Store(s, i, h, b, p), i, h, b, p)
  {
    assert Once(s, i, h) == Store(s, i, h, b, p);
  }

  lemma BroadcastLane(q: map<Pair, seq<Tagged<Patch>>>, from: nat, targets: set<nat>, m: Tagged<Patch>, j: nat)
    ensures Queue(Broadcast(q, from, targets, m), (from, j)) == Queue(q, (from, j)) + if j in targets then [m] else []
  {
  }

  predicate RenewLane(s: System, t: System, i: nat, h: nat, m: Tagged<Patch>, j: nat) {
    Queue(t.renews, (h, j)) == Queue(s.renews, (h, j)) + if j in Mask(s, m.block) && j != i then [m] else []
  }

  predicate ReplyLane(s: System, t: System, i: nat, h: nat, m: Tagged<Reply>, j: nat) {
    Queue(t.replies, (h, j)) == Queue(s.replies, (h, j)) + if j == i then [m] else []
  }

  /** What a handled put has done: stored the patch, renewed every sharer but the writer, answered the writer. */
  ghost predicate Outcome(s: System, t: System, i: nat, h: nat, b: nat, p: Patch, reply: Reply) {
    && |t.work| == |s.work| && t.home == s.home && t.memory == s.memory[b := Patched(WordsAt(s.memory, b), p)]
    && (forall j: nat {:trigger RenewLane(s, t, i, h, Tagged(b, p), j)} :: RenewLane(s, t, i, h, Tagged(b, p), j))
    && (forall j: nat {:trigger ReplyLane(s, t, i, h, Tagged(b, reply), j)} :: ReplyLane(s, t, i, h, Tagged(b, reply), j))
  }

  lemma MissOutcome(s: System, i: nat, h: nat, b: nat, p: Patch) returns (t: System)
    requires Asks(s, i, h, b, Req.WriteMiss(p))
    ensures t == Handled(s, i, h)
    ensures Outcome(s, t, i, h, b, p, Block(Patched(WordsAt(s.memory, b), p))) && t.directory == s.directory[b := Mask(s, b) + {i}]
  {
    MissHandled(s, i, h, b, p);
    t := RenewAndReply(Store(s, i, h, b, p), i, h, b, p);
    forall j: nat ensures RenewLane(s, t, i, h, Tagged(b, p), j) {
      BroadcastLane(s.renews, h, Mask(s, b) - {i}, Tagged(b, p), j);
    }
  }

  lemma WriteOutcome(s: System, i: nat, h: nat, b: nat, p: Patch) returns (t: System)
    requires Asks(s, i, h, b, Req.Write(p)) && forall j :: j in Mask(s, b) ==> j < |s.work|
    ensures t == Handled(s, i, h) && Outcome(s, t, i, h, b, p, Done) && t.directory == s.directory
  {
    var s' := WriteHandled(s, i, h, b, p);
    t := Acknowledge(s', i, h, b);
    forall j: nat ensures RenewLane(s, t, i, h, Tagged(b, p), j) {
      assert Lane(s, s', i, h, Tagged(b, p), |s.work|, j);
    }
  }

  // ---- the object ----

  /** Masks as the source keeps them, against the sets of the step system. */
  ghost predicate SameMask(directory: map<nat, nat>, s: System, caches: nat, b: nat) {
    && (b in directory <==> b in s.directory)
    && (b in directory ==> Narrow(directory[b], caches) && Sharers(directory[b], caches) == s.directory[b])
  }

  ghost predicate Masked(directory: map<nat, nat>, caches: nat, id: nat, s: System) {
    forall b {:trigger SameMask(directory, s, caches, b)} :: s.home(b) == id ==> SameMask(directory, s, caches, b)
  }

  ghost predicate Stores(memory: map<nat, seq<int>>, id: nat, s: System) {
    forall b {:trigger WordsAt(memory, b)} :: s.home(b) == id ==> WordsAt(memory, b) == WordsAt(s.memory, b)
  }

  ghost predicate RenewsSent(renews: map<Pair, seq<Tagged<Patch>>>, id: nat, s: System) {
    forall j: nat {:trigger Queue(renews, (id, j))} :: Queue(renews, (id, j)) == Queue(s.renews, (id, j))
  }

  ghost predicate RepliesSent(replies: map<Pair, seq<Tagged<Reply>>>, id: nat, s: System) {
    forall j: nat {:trigger Queue(replies, (id, j))} :: Queue(replies, (id, j)) == Queue(s.replies, (id, j))
  }

  /** `directory.find`, with an empty mask for an absent block. */
  function Old(directory: map<nat, nat>, b: nat): nat {
    if b in directory then directory[b] else 0
  }

  lemma OldIsMask(directory: map<nat, nat>, caches: nat, id: nat, s: System, b: nat)
    requires Masked(directory, caches, id, s) && s.home(b) == id
    ensures Narrow(Old(directory, b), caches) && Sharers(Old(directory, b), caches) == Mask(s, b)
  {
    assert SameMask(directory, s, caches, b);
    NarrowZero(caches);
  }

  /** The entry of block b gets node i's bit. */
  lemma Shared(directory: map<nat, nat>, caches: nat, id: nat, s: System, b: nat, i: nat, t: System)
    requires Masked(directory, caches, id, s) && s.home(b) == id && i < caches
    requires t.home == s.home && t.directory == s.directory[b := Mask(s, b) + {i}]
    ensures Masked(directory[b := SetBit(Old(directory, b), i)], caches, id, t)
  {
    OldIsMask(directory, caches, id, s, b);
    MaskUpdates(Old(directory, b), i, caches);
    var directory' := directory[b := SetBit(Old(directory, b), i)];
    forall x | t.home(x) == id ensures SameMask(directory', t, caches, x) {
      assert SameMask(directory, s, caches, x);
    }
  }

  /** What a write-back leaves of the directory: the entry goes when the mask becomes zero. */
  function Dropped(directory: map<nat, nat>, b: nat, i: nat): map<nat, nat> {
    if b !in directory then directory
    else if ClearBit(directory[b], i) != 0 then directory[b := ClearBit(directory[b], i)]
    else directory - {b}
  }

  lemma Unshared(directory: map<nat, nat>, caches: nat, id: nat, s: System, b: nat, i: nat)
    requires Masked(directory, caches, id, s) && s.home(b) == id && i < caches && Queue(s.requests, (i, id)) != []
    ensures Masked(Dropped(directory, b, i), caches, id, ServeWriteback(s, i, id, b))
  {
    var t := ServeWriteback(s, i, id, b);
    OldIsMask(directory, caches, id, s, b);
    assert SameMask(directory, s, caches, b);
    MaskUpdates(Old(directory, b), i, caches);
    ZeroMeansNobody(ClearBit(Old(directory, b), i), caches);
    forall x | t.home(x) == id ensures SameMask(Dropped(directory, b, i), t, caches, x) {
      assert SameMask(directory, s, caches, x);
    }
  }

  class Home {
    const id: nat
    const caches: nat
    var directory: map<nat, nat>
    var memory: map<nat, seq<int>>
    var renews: map<Pair, seq<Tagged<Patch>>>
    var replies: map<Pair, seq<Tagged<Reply>>>

    constructor (id: nat, caches: nat)
      requires id < caches
      ensures Is(Start(caches)) && this.id == id
    {
      this.id, this.caches := id, caches;
      directory, memory, renews, replies := map[], map[], map[], map[];
    }

    /** This is node id's part of the system. */
    ghost predicate Is(s: System)
      reads this
    {
      && id < caches == |s.work|
      && Masked(directory, caches, id, s) && Stores(memory, id, s) && RenewsSent(renews, id, s) && RepliesSent(replies, id, s)
    }

    method ServerWriteback(b: nat, src: nat, ghost s: System)
      requires Is(s) && Asks(s, src, id, b, Req.Writeback)
      modifies this
      ensures Is(Handled(s, src, id))
    {
      OthersHandled(s, src, id, b);
      Unshared(directory, caches, id, s, b, src);
      if b in directory {
        var newv := ClearBit(directory[b], src);
        if newv != 0 {
          directory := directory[b := newv];
        } else {
          directory := directory - {b};
        }
      }
    }

    method Answer(b: nat, src: nat, reply: Reply)
      modifies this`replies
      ensures forall j: nat {:trigger Queue(replies, (id, j))} ::
        Queue(replies, (id, j)) == Queue(old(replies), (id, j)) + if j == src then [Tagged(b, reply)] else []
    {
      replies := Send(replies, (id, src), Tagged(b, reply));
    }

    method ServerReadMiss(b: nat, src: nat, ghost s: System)
      requires Is(s) && Asks(s, src, id, b, Req.ReadMiss)
      modifies this
      ensures Is(Handled(s, src, id))
    {
      OthersHandled(s, src, id, b);
      Shared(directory, caches, id, s, b, src, Handled(s, src, id));
      directory := directory[b := SetBit(Old(directory, b), src)];
      Answer(b, src, Block(WordsAt(memory, b)));
    }

    /** The loop over the caches: shifts the mask and sends the renew to every sharer but the writer. */
    method Renew(b: nat, src: nat, p: Patch, mask: nat)
      modifies this`renews
      ensures forall j: nat {:trigger Queue(renews, (id, j))} ::
        Queue(renews, (id, j)) == Queue(old(renews), (id, j)) + if j in Sharers(mask, caches) && j != src then [Tagged(b, p)] else []
    {
      var rest := mask;
      for i := 0 to caches
        invariant forall j: nat {:trigger Bit(rest, j)} :: Bit(rest, j) <==> Bit(mask, i + j)
        invariant forall j: nat {:trigger Queue(renews, (id, j))} ::
          Queue(renews, (id, j)) == Queue(old(renews), (id, j)) + if j < i && Bit(mask, j) && j != src then [Tagged(b, p)] else []
      {
        assert Bit(rest, 0) <==> Bit(mask, i);
        RenewOne(b, src, p, mask, i, rest % 2 == 1, old(renews));
        forall j: nat ensures Bit(rest / 2, j) <==> Bit(mask, i + 1 + j) {
          assert Bit(rest, j + 1) <==> Bit(mask, i + (j + 1));
        }
        rest := rest / 2;
      }
    }

    method RenewOne(b: nat, src: nat, p: Patch, ghost mask: nat, i: nat, bit: bool, ghost before: map<Pair, seq<Tagged<Patch>>>)
      requires bit <==> Bit(mask, i)
      requires forall j: nat {:trigger Queue(renews, (id, j))} ::
        Queue(renews, (id, j)) == Queue(before, (id, j)) + if j < i && Bit(mask, j) && j != src then [Tagged(b, p)] else []
      modifies this`renews
      ensures forall j: nat {:trigger Queue(renews, (id, j))} ::
        Queue(renews, (id, j)) == Queue(before, (id, j)) + if j < i + 1 && Bit(mask, j) && j != src then [Tagged(b, p)] else []
    {
      ghost var was := renews;
      if bit && src != i {
        renews := Send(renews, (id, i), Tagged(b, p));
      }
      forall j: nat ensures Queue(renews, (id, j)) ==
        Queue(before, (id, j)) + if j < i + 1 && Bit(mask, j) && j != src then [Tagged(b, p)] else []
      {
        assert Queue(was, (id, j)) == Queue(before, (id, j)) + if j < i && Bit(mask, j) && j != src then [Tagged(b, p)] else [];
      }
    }

    method PutInBackend(b: nat, p: Patch, ghost s: System, ghost t: System)
      requires Stores(memory, id, s) && s.home(b) == id
      requires t.home == s.home && t.memory == s.memory[b := Patched(WordsAt(s.memory, b), p)]
      modifies this`memory
      ensures Stores(memory, id, t)
    {
      ghost var was := memory;
      memory := memory[b := Patched(WordsAt(memory, b), p)];
      forall x | t.home(x) == id ensures WordsAt(memory, x) == WordsAt(t.memory, x) {
        assert WordsAt(was, x) == WordsAt(s.memory, x) && WordsAt(was, b) == WordsAt(s.memory, b);
      }
    }

    /** What both puts end with: the renews and the answer. */
    method Finish(b: nat, src: nat, p: Patch, mask: nat, reply: Reply, ghost s: System, ghost t: System)
      requires RenewsSent(renews, id, s) && RepliesSent(replies, id, s)
      requires Sharers(mask, caches) == Mask(s, b) && Outcome(s, t, src, id, b, p, reply)
      modifies this`renews, this`replies
      ensures RenewsSent(renews, id, t) && RepliesSent(replies, id, t)
    {
      Renew(b, src, p, mask);
      Answer(b, src, reply);
      forall j: nat ensures Queue(renews, (id, j)) == Queue(t.renews, (id, j)) {
        assert RenewLane(s, t, src, id, Tagged(b, p), j);
      }
      forall j: nat ensures Queue(replies, (id, j)) == Queue(t.replies, (id, j)) {
        assert ReplyLane(s, t, src, id, Tagged(b, reply), j);
      }
    }

    /** The handler's own order: backend, directory entry, renews, answer with the block. */
    method ServerWriteMiss(b: nat, src: nat, p: Patch, ghost s: System)
      requires Is(s) && Asks(s, src, id, b, Req.WriteMiss(p))
      modifies this
      ensures Is(Handled(s, src, id))
    {
      ghost var t := MissOutcome(s, src, id, b, p);
      OldIsMask(directory, caches, id, s, b);
      PutInBackend(b, p, s, t);
      var mask := Old(directory, b);
      Shared(directory, caches, id, s, b, src, t);
      directory := directory[b := SetBit(mask, src)];
      Finish(b, src, p, mask, Block(WordsAt(memory, b)), s, t);
    }

    method ServerWrite(b: nat, src: nat, p: Patch, ghost s: System)
      requires Is(s) && Asks(s, src, id, b, Req.Write(p))
      modifies this
      ensures Is(Handled(s, src, id))
    {
      OldIsMask(directory, caches, id, s, b);
      ghost var t := WriteOutcome(s, src, id, b, p);
      PutInBackend(b, p, s, t);
      Finish(b, src, p, Old(directory, b), Done, s, t);
      SameMasks(directory, caches, id, s, t);
    }
  }

  lemma SameMasks(directory: map<nat, nat>, caches: nat, id: nat, s: System, t: System)
    requires Masked(directory, caches, id, s) && t.directory == s.directory && t.home == s.home
    ensures Masked(directory, caches, id, t)
  {
    forall x | t.home(x) == id ensures SameMask(directory, t, caches, x) {
      assert SameMask(directory, s, caches, x);
    }
  }
}
