/**
One node's cache: a fixed array of blocks, a hash index, a queue of free blocks and clock stamps, as
one client thread and the renews coming in from other nodes use them.

`Cache` is the cache as a value; `order` in it lists the resident keys, least recently used first, and
every operation's effect on it is one of module Recency.
*/
module LocalCache {
  import opened BlockProtocol
  import opened Options
  import opened Recency

  /** The key of a block that holds nothing. Real keys have their low five bits clear. */
  const BAD_KEY: nat := 31

  const MAX_STAMP: nat := 0xffff_ffff

  datatype Slot = Slot(key: nat, lru: nat, words: seq<int>)

  /** `locked` is the block whose write lock a miss holds, `pending` the key the miss is for. */
  datatype Cache = Cache(
    blocks: seq<Slot>,
    queue: seq<nat>,
    index: map<nat, nat>,
    clock: nat,
    locked: Option<nat>,
    pending: nat,
    order: seq<nat>)

  // ---- invariant ----

  predicate QueueFree(c: Cache) {
    Distinct(c.queue) && forall n {:trigger c.queue[n]} :: 0 <= n < |c.queue| ==>
      c.queue[n] < |c.blocks| && c.blocks[c.queue[n]].key == BAD_KEY
  }

  /** The index leads a resident key to the block that has this key. */
  predicate Resident(c: Cache, k: nat) {
    k in c.index && k != BAD_KEY && c.index[k] < |c.blocks| && c.blocks[c.index[k]].key == k && c.blocks[c.index[k]].lru < c.clock
  }

  ghost predicate AllResident(c: Cache) {
    Distinct(c.order) && forall k {:trigger Resident(c, k)} :: k in c.order ==> Resident(c, k)
  }

  /** ... and a block's key leads back to the block; a block without a key is free, or locked. */
  predicate SlotOk(c: Cache, s: nat)
    requires s < |c.blocks|
  {
    if c.blocks[s].key == BAD_KEY then s in c.queue || c.locked == Some(s)
    else c.blocks[s].key in c.order && c.blocks[s].key in c.index && c.index[c.blocks[s].key] == s
  }

  ghost predicate SlotsOk(c: Cache) {
    forall s {:trigger SlotOk(c, s)} :: 0 <= s < |c.blocks| ==> SlotOk(c, s)
  }

  predicate PendingOk(c: Cache) {
    match c.locked
    case None => c.index.Keys == Keys(c.order)
    case Some(s) =>
      && s < |c.blocks| && c.blocks[s].key == BAD_KEY && s !in c.queue && c.pending !in c.order && c.pending != BAD_KEY
      && c.index.Keys == Keys(c.order) + {c.pending} && c.index[c.pending] == s
  }

  function StampOf(c: Cache, k: nat): nat {
    if k in c.index && c.index[k] < |c.blocks| then c.blocks[c.index[k]].lru else 0
  }

  /** Stamps rise along the order. */
  predicate Stamped(c: Cache) {
    forall p, q {:trigger c.order[p], c.order[q]} :: 0 <= p < q < |c.order| ==> StampOf(c, c.order[p]) < StampOf(c, c.order[q])
  }

  /** Every block is resident, free, or locked for a miss. */
  predicate Counted(c: Cache) {
    0 < |c.blocks| == |c.queue| + |c.order| + if c.locked.Some? then 1 else 0
  }

  ghost predicate Valid(c: Cache) {
    QueueFree(c) && AllResident(c) && SlotsOk(c) && PendingOk(c) && Stamped(c) && Counted(c) && c.clock <= MAX_STAMP
  }

  /** The words of every resident key. */
  function Contents(c: Cache): map<nat, seq<int>> {
    map k | k in Keys(c.order) && Resident(c, k) :: c.blocks[c.index[k]].words
  }

  // ---- operations ----

  function EmptyCache(size: nat): Cache {
    Cache(seq(size, _ => Slot(BAD_KEY, 0, [])), seq(size, i => i), map[], 0, None, BAD_KEY, [])
  }

  function WithFree(c: Cache, k: nat): Cache
    requires c.queue != []
  {
    c.(queue := c.queue[1..], index := c.index[k := c.queue[0]], locked := Some(c.queue[0]), pending := k)
  }

  function WithOldest(c: Cache, k: nat): Cache
    requires c.order != [] && Resident(c, c.order[0])
  {
    var slot := c.index[c.order[0]];
    c.(blocks := c.blocks[slot := Slot(BAD_KEY, MAX_STAMP, c.blocks[slot].words)], index := (c.index - {c.order[0]})[k := slot],
       locked := Some(slot), pending := k, order := c.order[1..])
  }

  /** The miss is over: the locked block gets its words, key and stamp. */
  function Filled(c: Cache, words: seq<int>): Cache
    requires c.locked.Some? && c.locked.value < |c.blocks|
  {
    c.(blocks := c.blocks[c.locked.value := Slot(c.pending, c.clock, words)], clock := c.clock + 1, locked := None,
       order := c.order + [c.pending])
  }

  function Hit(c: Cache, k: nat, words: seq<int>): Cache
    requires Resident(c, k)
  {
    c.(blocks := c.blocks[c.index[k] := Slot(k, c.clock, words)], clock := c.clock + 1, order := Without(c.order, k) + [k])
  }

  function WithRenew(c: Cache, k: nat, p: Patch): Cache {
    if Resident(c, k) && k in c.order then
      var b := c.blocks[c.index[k]];
      c.(blocks := c.blocks[c.index[k] := b.(words := Patched(b.words, p))])
    else c
  }

  // ---- every operation keeps the invariant ----

  lemma EmptyValid(size: nat)
    requires size > 0
    ensures Valid(EmptyCache(size))
  {
    var c := EmptyCache(size);
    forall s | 0 <= s < size ensures SlotOk(c, s) {
      assert c.queue[s] == s;
    }
  }

  lemma TailKeys(order: seq<nat>)
    requires Distinct(order) && order != []
    ensures Distinct(order[1..]) && order[0] !in order[1..]
    ensures forall k :: k in order <==> k == order[0] || k in order[1..]
    ensures Keys(order[1..]) == Keys(order) - {order[0]}
  {
    var rest := order[1..];
    assert order == [order[0]] + rest;
    forall p, q | 0 <= p < q < |rest| ensures rest[p] != rest[q] {
      assert rest[p] == order[p + 1] && rest[q] == order[q + 1];
    }
  }

  lemma WithFreeValid(c: Cache, k: nat)
    requires Valid(c) && c.locked == None && k !in c.index && k != BAD_KEY && c.queue != []
    ensures Valid(WithFree(c, k)) && Contents(WithFree(c, k)) == Contents(c)
  {
    var c' := WithFree(c, k);
    TailKeys(c.queue);
    assert forall n :: 0 <= n < |c'.queue| ==> c'.queue[n] == c.queue[n + 1];
    assert k !in Keys(c.order);
    forall j | j in c.order ensures Resident(c', j) && StampOf(c', j) == StampOf(c, j) {
      assert Resident(c, j);
    }
    forall s | 0 <= s < |c.blocks| ensures SlotOk(c', s) {
      assert SlotOk(c, s);
    }
  }

  /** The victim: the first key of the order is resident, and its block has the smallest stamp. */
  predicate Evictable(c: Cache, k: nat) {
    c.locked == None && k !in c.index && k != BAD_KEY && c.queue == []
  }

  lemma VictimResident(c: Cache, k: nat)
    requires Valid(c) && Evictable(c, k)
    ensures c.order != [] && |c.order| == |c.blocks| && Resident(c, c.order[0]) && k !in c.order && k != c.order[0]
  {
    assert Resident(c, c.order[0]);
    assert k !in Keys(c.order);
  }

  lemma OldestResidents(c: Cache, k: nat)
    requires Valid(c) && Evictable(c, k) && c.order != [] && Resident(c, c.order[0]) && k !in c.order
    ensures var c' := WithOldest(c, k);
      forall j :: j in c'.order ==> j in c.order && Resident(c, j) && Resident(c', j) && c'.index[j] == c.index[j] != c.index[c.order[0]]
  {
    TailKeys(c.order);
    var c' := WithOldest(c, k);
    forall j | j in c'.order ensures j in c.order && Resident(c, j) && Resident(c', j) && c'.index[j] == c.index[j] != c.index[c.order[0]] {
      assert Resident(c, j);
    }
  }

  lemma OldestSlots(c: Cache, k: nat)
    requires Valid(c) && Evictable(c, k) && c.order != [] && Resident(c, c.order[0]) && k !in c.order
    ensures SlotsOk(WithOldest(c, k))
  {
    TailKeys(c.order);
    var c' := WithOldest(c, k);
    forall s | 0 <= s < |c.blocks| ensures SlotOk(c', s) {
      assert SlotOk(c, s);
    }
  }

  lemma WithOldestValid(c: Cache, k: nat)
    requires Valid(c) && Evictable(c, k)
    ensures c.order != [] && Resident(c, c.order[0]) && Valid(WithOldest(c, k))
  {
    VictimResident(c, k);
    OldestResidents(c, k);
    OldestSlots(c, k);
    TailKeys(c.order);
    var c' := WithOldest(c, k);
    assert Stamped(c') by {
      assert forall p :: 0 <= p < |c'.order| ==> c'.order[p] == c.order[p + 1];
      assert forall p :: 0 <= p < |c'.order| ==> c'.order[p] in c'.order && StampOf(c', c'.order[p]) == StampOf(c, c'.order[p]);
    }
    assert PendingOk(c') by {
      assert c'.index.Keys == Keys(c'.order) + {k};
    }
  }

  lemma WithOldestContents(c: Cache, k: nat)
    requires Valid(c) && Evictable(c, k) && c.order != [] && Resident(c, c.order[0]) && k !in c.order
    ensures Contents(WithOldest(c, k)) == Contents(c) - {c.order[0]}
  {
    OldestResidents(c, k);
    TailKeys(c.order);
    var c' := WithOldest(c, k);
    assert forall j :: j in Keys(c'.order) <==> j in c.order && j != c.order[0];
  }

  /** Stamps in use are below the clock, so a fresh stamp goes to the end of the order. */
  lemma LastStamped(c: Cache, c': Cache, rest: seq<nat>, k: nat)
    requires c'.order == rest + [k] && StampOf(c', k) == c.clock
    requires forall p, q {:trigger rest[p], rest[q]} :: 0 <= p < q < |rest| ==> StampOf(c, rest[p]) < StampOf(c, rest[q])
    requires forall j {:trigger StampOf(c', j)} :: j in rest ==> StampOf(c', j) == StampOf(c, j) < c.clock
    ensures Stamped(c')
  {
  }

  lemma FilledResidents(c: Cache, words: seq<int>)
    requires Valid(c) && c.locked.Some?
    ensures var c' := Filled(c, words);
      forall j :: j in c'.order ==> Resident(c', j) && (j in c.order ==> Resident(c, j) && StampOf(c', j) == StampOf(c, j) < c.clock && c'.index[j] != c.locked.value)
  {
    var c' := Filled(c, words);
    forall j | j in c'.order
      ensures Resident(c', j) && (j in c.order ==> Resident(c, j) && StampOf(c', j) == StampOf(c, j) < c.clock && c'.index[j] != c.locked.value)
    {
      if j in c.order {
        assert Resident(c, j);
      }
    }
  }

  lemma FilledValid(c: Cache, words: seq<int>)
    requires Valid(c) && c.locked.Some? && c.clock < MAX_STAMP
    ensures Valid(Filled(c, words))
  {
    var c' := Filled(c, words);
    FilledResidents(c, words);
    forall s | 0 <= s < |c.blocks| ensures SlotOk(c', s) {
      assert SlotOk(c, s);
    }
    assert Keys(c'.order) == Keys(c.order) + {c.pending};
    LastStamped(c, c', c.order, c.pending);
  }

  lemma FilledContents(c: Cache, words: seq<int>)
    requires Valid(c) && c.locked.Some?
    ensures Contents(Filled(c, words)) == Contents(c)[c.pending := words]
  {
    FilledResidents(c, words);
    assert Keys(Filled(c, words).order) == Keys(c.order) + {c.pending};
  }

  lemma WithoutPlaces(order: seq<nat>, k: nat, a: nat, b: nat) returns (p: nat, q: nat)
    requires Distinct(order) && k in order && a < b < |Without(order, k)|
    ensures p < q < |order| && Without(order, k)[a] == order[p] && Without(order, k)[b] == order[q]
  {
    var i :| 0 <= i < |order| && order[i] == k;
    WithoutAt(order, k, i);
    p, q := if a < i then a else a + 1, if b < i then b else b + 1;
  }

  lemma WithoutSorted(c: Cache, k: nat, a: nat, b: nat)
    requires Distinct(c.order) && Stamped(c) && k in c.order && a < b < |Without(c.order, k)|
    ensures StampOf(c, Without(c.order, k)[a]) < StampOf(c, Without(c.order, k)[b])
  {
    var a', b' := WithoutPlaces(c.order, k, a, b);
    assert StampOf(c, c.order[a']) < StampOf(c, c.order[b']);
  }

  /** A hit changes one block's words and stamp; everybody stays resident where he was. */
  lemma HitResident(c: Cache, k: nat, words: seq<int>, j: nat)
    requires Valid(c) && k in c.order && Resident(c, k) && j in c.order
    ensures var c' := Hit(c, k, words);
      Resident(c, j) && Resident(c', j) && (j != k ==> StampOf(c', j) == StampOf(c, j) < c.clock && c'.blocks[c.index[j]] == c.blocks[c.index[j]])
  {
    assert Resident(c, j);
  }

  lemma HitOrder(c: Cache, k: nat, words: seq<int>)
    requires Valid(c) && k in c.order && Resident(c, k)
    ensures var c' := Hit(c, k, words);
      Distinct(c'.order) && Keys(c'.order) == Keys(c.order) && |c'.order| == |c.order| && forall j :: j in c'.order <==> j in c.order
  {
    WithoutKeys(c.order, k);
    var rest := Without(c.order, k);
    assert forall j :: j in rest + [k] <==> j in c.order;
  }

  lemma HitSlots(c: Cache, k: nat, words: seq<int>)
    requires Valid(c) && k in c.order && Resident(c, k)
    ensures SlotsOk(Hit(c, k, words))
  {
    var c' := Hit(c, k, words);
    HitOrder(c, k, words);
    forall s | 0 <= s < |c.blocks| ensures SlotOk(c', s) {
      assert SlotOk(c, s);
    }
  }

  lemma HitStamps(c: Cache, k: nat, words: seq<int>)
    requires Valid(c) && k in c.order && Resident(c, k)
    ensures Stamped(Hit(c, k, words))
  {
    var rest := Without(c.order, k);
    WithoutKeys(c.order, k);
    forall p, q | 0 <= p < q < |rest| ensures StampOf(c, rest[p]) < StampOf(c, rest[q]) {
      WithoutSorted(c, k, p, q);
    }
    forall j | j in rest ensures StampOf(Hit(c, k, words), j) == StampOf(c, j) < c.clock {
      HitResident(c, k, words, j);
    }
    LastStamped(c, Hit(c, k, words), rest, k);
  }

  lemma HitValid(c: Cache, k: nat, words: seq<int>)
    requires Valid(c) && c.locked == None && k in c.index && c.clock < MAX_STAMP
    ensures k in c.order && Resident(c, k) && Valid(Hit(c, k, words))
  {
    assert k in Keys(c.order) && Resident(c, k);
    HitOrder(c, k, words);
    HitSlots(c, k, words);
    HitStamps(c, k, words);
    forall j | j in Hit(c, k, words).order ensures Resident(Hit(c, k, words), j) {
      HitResident(c, k, words, j);
    }
  }

  /** Key j is resident before and after, and afterwards has these words. */
  predicate HasAfter(c: Cache, c': Cache, j: nat, words: seq<int>) {
    Resident(c, j) && Resident(c', j) && c'.blocks[c'.index[j]].words == words
  }

  function HeldWords(c: Cache, j: nat): seq<int>
    requires Resident(c, j)
  {
    c.blocks[c.index[j]].words
  }

  /** The keys stay, and only k gets other words. */
  lemma OneChanged(c: Cache, c': Cache, k: nat, words: seq<int>)
    requires Keys(c'.order) == Keys(c.order) && k in c.order && HasAfter(c, c', k, words)
    requires forall j {:trigger Resident(c, j)} :: j in c.order && j != k ==> Resident(c, j) && HasAfter(c, c', j, HeldWords(c, j))
    ensures Contents(c') == Contents(c)[k := words]
  {
    assert k in Keys(c.order);
    forall j | j in Keys(c.order) ensures j in Contents(c') && j in Contents(c) && Contents(c')[j] == Contents(c)[k := words][j] {
      assert j == k || Resident(c, j);
    }
    assert forall j :: j in Contents(c') ==> j in Keys(c.order);
  }

  lemma HitContents(c: Cache, k: nat, words: seq<int>)
    requires Valid(c) && k in c.order && Resident(c, k)
    ensures Contents(Hit(c, k, words)) == Contents(c)[k := words]
  {
    HitOrder(c, k, words);
    forall j | j in c.order ensures Resident(c, j) && HasAfter(c, Hit(c, k, words), j, if j == k then words else HeldWords(c, j)) {
      HitResident(c, k, words, j);
    }
    OneChanged(c, Hit(c, k, words), k, words);
  }

  // ---- renews ----

  /** Where ServerRenew finds a key. */
  function Found(c: Cache, k: nat): Option<nat> {
    if k in c.index then Some(c.index[k]) else None
  }

  /** What ServerRenew does to the block it has found, some time later: the try-lock, the key check and the copy. */
  function Applied(c: Cache, slot: nat, k: nat, p: Patch): Cache {
    if slot < |c.blocks| && c.locked != Some(slot) && c.blocks[slot].key == k then
      c.(blocks := c.blocks[slot := c.blocks[slot].(words := Patched(c.blocks[slot].words, p))])
    else c
  }

  lemma AppliedValid(c: Cache, slot: nat, k: nat, p: Patch)
    requires Valid(c)
    ensures Valid(Applied(c, slot, k, p))
  {
    var c' := Applied(c, slot, k, p);
    assert forall s :: 0 <= s < |c.blocks| ==> c'.blocks[s].key == c.blocks[s].key && c'.blocks[s].lru == c.blocks[s].lru;
    forall j | j in c.order ensures Resident(c', j) && StampOf(c', j) == StampOf(c, j) {
      assert Resident(c, j);
    }
    forall s | 0 <= s < |c.blocks| ensures SlotOk(c', s) {
      assert SlotOk(c, s);
    }
  }

  /** The contents with p put into key k, if k is in this block. */
  function RenewedAt(c: Cache, slot: nat, k: nat, p: Patch): map<nat, seq<int>> {
    if k in Contents(c) && Found(c, k) == Some(slot) then Contents(c)[k := Patched(Contents(c)[k], p)] else Contents(c)
  }

  /**
  Whatever happened since the lookup: a renew patches the words of its own key and nothing else. It does
  nothing if the key has left the block, to whatever other key the block belongs now.
  */
  lemma AppliedContents(c: Cache, slot: nat, k: nat, p: Patch)
    requires Valid(c) && k != BAD_KEY
    ensures Contents(Applied(c, slot, k, p)) == RenewedAt(c, slot, k, p)
    ensures forall s :: 0 <= s < |c.blocks| && c.blocks[s].key != k ==> Applied(c, slot, k, p).blocks[s] == c.blocks[s]
  {
    if slot < |c.blocks| && c.locked != Some(slot) && c.blocks[slot].key == k {
      AppliedHere(c, slot, k, p);
    } else if k in Contents(c) {
      assert k in c.order && Resident(c, k);
    }
  }

  lemma AppliedHere(c: Cache, slot: nat, k: nat, p: Patch)
    requires Valid(c) && k != BAD_KEY && slot < |c.blocks| && c.locked != Some(slot) && c.blocks[slot].key == k
    ensures k in Contents(c) && Found(c, k) == Some(slot)
    ensures Contents(Applied(c, slot, k, p)) == Contents(c)[k := Patched(Contents(c)[k], p)]
  {
    var c' := Applied(c, slot, k, p);
    assert SlotOk(c, slot) && Resident(c, k) && k in Keys(c.order);
    var words := Patched(HeldWords(c, k), p);
    forall j | j in c.order ensures Resident(c, j) && HasAfter(c, c', j, if j == k then words else HeldWords(c, j)) {
      assert Resident(c, j);
    }
    OneChanged(c, c', k, words);
  }

  /** The same without the key check. */
  function Unchecked(c: Cache, slot: nat, p: Patch): Cache {
    if slot < |c.blocks| && c.locked != Some(slot) then
      c.(blocks := c.blocks[slot := c.blocks[slot].(words := Patched(c.blocks[slot].words, p))])
    else c
  }

  /** Without the check, the words go to whatever key the block belongs to by then. */
  lemma UncheckedContents(c: Cache, slot: nat, p: Patch)
    requires Valid(c) && slot < |c.blocks| && c.blocks[slot].key != BAD_KEY
    ensures Contents(Unchecked(c, slot, p)) == RenewedAt(c, slot, c.blocks[slot].key, p)
    ensures c.blocks[slot].key in Contents(c) && Found(c, c.blocks[slot].key) == Some(slot)
  {
    var k := c.blocks[slot].key;
    assert SlotOk(c, slot) && Resident(c, k);
    assert Unchecked(c, slot, p) == Applied(c, slot, k, p);
    AppliedContents(c, slot, k, p);
  }

  /**
  So the check matters: a cache of one block; a renew for key 0 looks the block up; then key 32 is used
  and takes the block over. With the check the renew does nothing now, without it key 32 is damaged.
  */
  lemma KeyCheckMatters() returns (c: Cache, c': Cache, slot: nat, p: Patch)
    ensures Valid(c) && Usable(c, 0) && Found(c, 0) == Some(slot)
    ensures Valid(c') && UsedFrom(c, 32, [5], c') && 32 in Contents(c') && 0 !in Contents(c')
    ensures Applied(c', slot, 0, p) == c'
    ensures 32 in Contents(Unchecked(c', slot, p)) && Contents(c')[32] == [5] && Contents(Unchecked(c', slot, p))[32] == [7]
  {
    var e := EmptyCache(1);
    EmptyValid(1);
    UseKeepsOrder(e, 0, [0]);
    c := Used(e, 0, [0]);
    UseKeepsOrder(c, 32, [5]);
    c' := Used(c, 32, [5]);
    slot, p := 0, Patch(0, [7]);
    UncheckedContents(c', slot, p);
  }

  // ---- a renew in two halves, among other operations ----

  /** One operation of the cache: a block is taken for a miss, a miss ends, a block is used, a renew is applied. */
  datatype CacheStep = Take(k: nat) | Fill(words: seq<int>) | Touch(k: nat, words: seq<int>) | Renew(slot: nat, k: nat, p: Patch)

  predicate CanDo(c: Cache, step: CacheStep) {
    match step
    case Take(k) =>
      c.locked == None && k !in c.index && k != BAD_KEY && (c.queue == [] ==> c.order != [] && Resident(c, c.order[0]))
    case Fill(_) => c.locked.Some? && c.locked.value < |c.blocks| && c.clock < MAX_STAMP
    case Touch(k, _) => c.locked == None && k in c.index && Resident(c, k) && c.clock < MAX_STAMP
    case Renew(_, k, _) => k != BAD_KEY
  }

  function Effect(c: Cache, step: CacheStep): Cache
    requires CanDo(c, step)
  {
    match step
    case Take(k) => if c.queue != [] then WithFree(c, k) else WithOldest(c, k)
    case Fill(words) => Filled(c, words)
    case Touch(k, words) => Hit(c, k, words)
    case Renew(slot, k, p) => Applied(c, slot, k, p)
  }

  lemma EffectValid(c: Cache, step: CacheStep)
    requires Valid(c) && CanDo(c, step)
    ensures Valid(Effect(c, step))
  {
    match step
    case Take(k) =>
      if c.queue != [] {
        WithFreeValid(c, k);
      } else {
        WithOldestValid(c, k);
      }
    case Fill(words) => FilledValid(c, words);
    case Touch(k, words) => HitValid(c, k, words);
    case Renew(slot, k, p) => AppliedValid(c, slot, k, p);
  }

  /** A key that stays resident stays in its block. */
  lemma StaysInBlock(c: Cache, step: CacheStep, k: nat)
    requires Valid(c) && CanDo(c, step) && k in c.order && k in Effect(c, step).order
    ensures Found(c, k).Some? && Found(Effect(c, step), k) == Found(c, k)
  {
    assert Resident(c, k);
    assert step.Take? ==> k != step.k;
  }

  ghost predicate Trace(cs: seq<Cache>, steps: seq<CacheStep>) {
    && |cs| == |steps| + 1
    && forall n {:trigger steps[n]} :: 0 <= n < |steps| ==> CanDo(cs[n], steps[n]) && cs[n + 1] == Effect(cs[n], steps[n])
  }

  lemma {:induction false} TraceValid(cs: seq<Cache>, steps: seq<CacheStep>, n: nat)
    requires Trace(cs, steps) && Valid(cs[0]) && n < |cs|
    ensures Valid(cs[n])
  {
    if n > 0 {
      TraceValid(cs, steps, n - 1);
      EffectValid(cs[n - 1], steps[n - 1]);
    }
  }

  lemma {:induction false} TraceStays(cs: seq<Cache>, steps: seq<CacheStep>, n: nat, k: nat, slot: nat)
    requires Trace(cs, steps) && Valid(cs[0]) && n < |cs| && Found(cs[0], k) == Some(slot)
    requires forall m :: 0 <= m <= n ==> k in cs[m].order
    ensures Found(cs[n], k) == Some(slot)
  {
    if n > 0 {
      TraceStays(cs, steps, n - 1, k, slot);
      TraceValid(cs, steps, n - 1);
      assert Effect(cs[n - 1], steps[n - 1]) == cs[n];
      StaysInBlock(cs[n - 1], steps[n - 1], k);
    }
  }

  /**
  A renew that looks the key up, is overtaken by any operations, and then applies itself, is as good as
  one in a single step: at the end, or at some moment in between when there was nothing to renew.
  */
  lemma RenewIsAtomic(cs: seq<Cache>, steps: seq<CacheStep>, k: nat, slot: nat, p: Patch)
    requires Trace(cs, steps) && Valid(cs[0]) && k != BAD_KEY && Found(cs[0], k) == Some(slot)
    ensures var c := cs[|steps|];
      || Applied(c, slot, k, p) == WithRenew(c, k, p)
      || (Applied(c, slot, k, p) == c && exists m :: 0 <= m <= |steps| && WithRenew(cs[m], k, p) == cs[m])
  {
    var c := cs[|steps|];
    TraceValid(cs, steps, |steps|);
    if slot < |c.blocks| {
      assert SlotOk(c, slot);
    }
    if forall m :: 0 <= m <= |steps| ==> k in cs[m].order {
      TraceStays(cs, steps, |steps|, k, slot);
      assert Resident(c, k);
    } else {
      var m :| 0 <= m <= |steps| && k !in cs[m].order;
      assert WithRenew(cs[m], k, p) == cs[m];
      if k in c.order {
        assert Resident(c, k);
      }
    }
  }

  /** A renew in one step is the second half for the block the first half finds. */
  lemma FoundIsResident(c: Cache, k: nat, p: Patch)
    requires Valid(c) && k != BAD_KEY
    ensures k in c.index ==> c.index[k] < |c.blocks|
    ensures WithRenew(c, k, p) == match Found(c, k) case None => c case Some(slot) => Applied(c, slot, k, p)
  {
    if k in c.index {
      assert k in Keys(c.order) || (c.locked.Some? && k == c.pending);
      if k in c.order {
        assert Resident(c, k);
      }
    }
  }

  lemma RenewedContents(c: Cache, k: nat, p: Patch)
    requires Valid(c) && k != BAD_KEY
    ensures Contents(WithRenew(c, k, p)) == if k in Contents(c) then Contents(c)[k := Patched(Contents(c)[k], p)] else Contents(c)
  {
    FoundIsResident(c, k, p);
    if k in c.index {
      AppliedContents(c, c.index[k], k, p);
    }
  }

  // ---- one use of a block: a get or a put ----

  /** c' is the cache after a use. */
  predicate UsedFrom(c: Cache, k: nat, words: seq<int>, c': Cache) {
    && (k in c.index ==> Resident(c, k))
    && (k !in c.index && c.queue == [] ==> c.order != [] && Resident(c, c.order[0]))
    && (k !in c.index && c.queue != [] ==> c.queue[0] < |c.blocks|)
    && c' == Used(c, k, words)
  }

  predicate Usable(c: Cache, k: nat) {
    c.locked == None && k != BAD_KEY && c.clock < MAX_STAMP
  }

  /** The cache after a get or put on key k that leaves `words` in its block. */
  function Used(c: Cache, k: nat, words: seq<int>): Cache
    requires k in c.index ==> Resident(c, k)
    requires k !in c.index && c.queue == [] ==> c.order != [] && Resident(c, c.order[0])
    requires k !in c.index && c.queue != [] ==> c.queue[0] < |c.blocks|
  {
    if k in c.index then Hit(c, k, words)
    else if c.queue != [] then Filled(WithFree(c, k), words)
    else Filled(WithOldest(c, k), words)
  }

  /** What a miss has to write back. */
  function Victim(c: Cache, k: nat): Option<nat> {
    if k !in c.order && |c.order| == |c.blocks| > 0 then Some(c.order[0]) else None
  }

  lemma Placement(c: Cache, k: nat)
    requires Valid(c) && Usable(c, k)
    ensures k in c.index <==> k in c.order
    ensures k in c.index ==> Resident(c, k)
    ensures k !in c.index && c.queue == [] ==> c.order != [] && Resident(c, c.order[0])
    ensures k !in c.index && c.queue != [] ==> c.queue[0] < |c.blocks|
    ensures k !in c.index ==> (c.queue == [] <==> |c.order| == |c.blocks|)
  {
    assert k in c.index <==> k in Keys(c.order);
    if k in c.order {
      assert Resident(c, k);
    } else if c.queue == [] {
      VictimResident(c, k);
    }
  }

  /** A use keeps the cache consistent; the order changes as in Recency, and only k and the victim are affected. */
  lemma UseKeepsOrder(c: Cache, k: nat, words: seq<int>)
    requires Valid(c) && Usable(c, k)
    ensures (k in c.index ==> Resident(c, k)) && (k !in c.index && c.queue == [] ==> c.order != [] && Resident(c, c.order[0]))
    ensures k !in c.index && c.queue != [] ==> c.queue[0] < |c.blocks|
    ensures Valid(Used(c, k, words)) && Used(c, k, words).locked == None && |Used(c, k, words).blocks| == |c.blocks|
    ensures Used(c, k, words).order == Touched(|c.blocks|, c.order, k) && Used(c, k, words).clock == c.clock + 1
  {
    Placement(c, k);
    if k in c.index {
      HitValid(c, k, words);
    } else if c.queue != [] {
      WithFreeValid(c, k);
      FilledValid(WithFree(c, k), words);
    } else {
      WithOldestValid(c, k);
      FilledValid(WithOldest(c, k), words);
    }
  }

  lemma UseKeepsContents(c: Cache, k: nat, words: seq<int>)
    requires Valid(c) && Usable(c, k)
    requires (k in c.index ==> Resident(c, k)) && (k !in c.index && c.queue == [] ==> c.order != [] && Resident(c, c.order[0]))
    requires k !in c.index && c.queue != [] ==> c.queue[0] < |c.blocks|
    ensures Contents(Used(c, k, words)) == (if Victim(c, k).Some? then Contents(c) - {Victim(c, k).value} else Contents(c))[k := words]
  {
    Placement(c, k);
    if k in c.index {
      HitContents(c, k, words);
    } else if c.queue != [] {
      WithFreeValid(c, k);
      FilledContents(WithFree(c, k), words);
    } else {
      WithOldestValid(c, k);
      WithOldestContents(c, k);
      FilledContents(WithOldest(c, k), words);
    }
  }

  // ---- the cache itself ----

  class BlockCache {
    const blocks: array<Slot>
    var queue: seq<nat>
    var index: map<nat, nat>
    var clock: nat
    var locked: Option<nat>
    ghost var pending: nat
    ghost var order: seq<nat>

    ghost function State(): Cache
      reads this, blocks
    {
      Cache(blocks[..], queue, index, clock, locked, pending, order)
    }

    constructor (size: nat)
      requires size > 0
      ensures State() == EmptyCache(size) && Valid(State()) && fresh(blocks)
    {
      blocks := new Slot[size](_ => Slot(BAD_KEY, 0, []));
      queue := seq(size, i => i);
      index := map[];
      clock := 0;
      locked := None;
      pending := BAD_KEY;
      order := [];
      new;
      EmptyValid(size);
    }

    /** The scan of getblock: the block in use with the smallest stamp, if any stamp is below the maximum. */
    method FindOldest() returns (mini: int)
      ensures mini == -1 ==> forall s :: 0 <= s < blocks.Length ==> blocks[s].key == BAD_KEY || blocks[s].lru >= MAX_STAMP
      ensures mini != -1 ==> 0 <= mini < blocks.Length && blocks[mini].key != BAD_KEY && blocks[mini].lru < MAX_STAMP
      ensures mini != -1 ==> forall s :: 0 <= s < blocks.Length && blocks[s].key != BAD_KEY ==> blocks[mini].lru <= blocks[s].lru
    {
      var minlru := MAX_STAMP;
      mini := -1;
      for i := 0 to blocks.Length
        invariant mini == -1 ==> minlru == MAX_STAMP
        invariant mini != -1 ==> 0 <= mini < i && blocks[mini].key != BAD_KEY && blocks[mini].lru == minlru < MAX_STAMP
        invariant forall s :: 0 <= s < i && blocks[s].key != BAD_KEY ==> minlru <= blocks[s].lru
      {
        if blocks[i].key != BAD_KEY && blocks[i].lru < minlru {
          minlru := blocks[i].lru;
          mini := i;
        }
      }
    }

    /** In a full cache the scan always finds a victim, and it is the key whose last use is oldest. */
    lemma ScanFindsFirst(mini: int, k: nat)
      requires Valid(State()) && Evictable(State(), k)
      requires mini == -1 ==> forall s :: 0 <= s < blocks.Length ==> blocks[s].key == BAD_KEY || blocks[s].lru >= MAX_STAMP
      requires mini != -1 ==> 0 <= mini < blocks.Length && blocks[mini].key != BAD_KEY && blocks[mini].lru < MAX_STAMP
      requires mini != -1 ==> forall s :: 0 <= s < blocks.Length && blocks[s].key != BAD_KEY ==> blocks[mini].lru <= blocks[s].lru
      ensures mini != -1 && order != [] && order[0] in index && index[order[0]] == mini && blocks[mini].key == order[0]
    {
      var c := State();
      VictimResident(c, k);
      assert blocks[index[order[0]]].lru < MAX_STAMP;
      assert mini != -1 && SlotOk(c, mini);
      var p :| 0 <= p < |order| && order[p] == blocks[mini].key;
      assert p > 0 ==> StampOf(c, c.order[0]) < StampOf(c, c.order[p]);
    }

    /**
    getblock for a key that is not in the index: a free block, or else the one used least recently,
    whose key has to be written back. The block comes back locked and indexed under its new key.
    */
    method GetBlock(k: nat) returns (slot: nat, victim: Option<nat>)
      requires Valid(State()) && Usable(State(), k) && k !in index
      modifies this, blocks
      ensures old(queue) == [] ==> old(order) != [] && old(order)[0] in old(index) && Resident(old(State()), old(order)[0])
      ensures State() == if old(queue) != [] then WithFree(old(State()), k) else WithOldest(old(State()), k)
      ensures locked == Some(slot) && slot < blocks.Length && victim == Victim(old(State()), k)
    {
      Placement(State(), k);
      if queue == [] {
        VictimResident(State(), k);
        var mini := FindOldest();
        ScanFindsFirst(mini, k);
        var oldkey := blocks[mini].key;
        slot, victim := mini, Some(oldkey);
        blocks[mini] := Slot(BAD_KEY, MAX_STAMP, blocks[mini].words);
        index := (index - {oldkey})[k := mini];
        order := order[1..];
      } else {
        slot, victim := queue[0], None;
        queue := queue[1..];
        index := index[k := slot];
      }
      locked := Some(slot);
      pending := k;
    }

    /**
    doget: returns the block's words. `fetched` is what ReadMiss receives if there is a miss; `victim`
    is the key then written back.
    */
    method Get(k: nat, fetched: seq<int>) returns (words: seq<int>, victim: Option<nat>)
      requires Valid(State()) && Usable(State(), k)
      modifies this, blocks
      ensures Valid(State()) && locked == None && order == Touched(blocks.Length, old(order), k) && clock == old(clock) + 1
      ensures victim == Victim(old(State()), k)
      ensures k in old(order) ==> k in Contents(old(State())) && words == Contents(old(State()))[k]
      ensures k !in old(order) ==> words == fetched
      ensures Contents(State()) == (if victim.Some? then Contents(old(State())) - {victim.value} else Contents(old(State())))[k := words]
    {
      ghost var c := State();
      Placement(c, k);
      if k in index {
        var slot := index[k];
        words, victim := blocks[slot].words, None;
        blocks[slot] := Slot(k, clock, words);
        order := Without(order, k) + [k];
      } else {
        var slot;
        slot, victim := GetBlock(k);
        words := fetched;
        blocks[slot] := Slot(k, clock, words);
        locked := None;
        order := order + [k];
      }
      clock := clock + 1;
      assert State() == Used(c, k, words);
      UseKeepsOrder(c, k, words);
      UseKeepsContents(c, k, words);
    }

    /** doput: on a hit the put goes into the copy; on a miss the home answers with the block it has stored the put in. */
    method Put(k: nat, p: Patch, fetched: seq<int>) returns (victim: Option<nat>)
      requires Valid(State()) && Usable(State(), k)
      modifies this, blocks
      ensures Valid(State()) && locked == None && order == Touched(blocks.Length, old(order), k) && clock == old(clock) + 1
      ensures victim == Victim(old(State()), k)
      ensures k in old(order) ==>
        k in Contents(old(State())) && Contents(State()) == Contents(old(State()))[k := Patched(Contents(old(State()))[k], p)]
      ensures k !in old(order) ==>
        Contents(State()) == (if victim.Some? then Contents(old(State())) - {victim.value} else Contents(old(State())))[k := fetched]
    {
      ghost var c := State();
      Placement(c, k);
      var words := fetched;
      if k in index {
        var slot := index[k];
        words, victim := Patched(blocks[slot].words, p), None;
        blocks[slot] := Slot(k, clock, words);
        order := Without(order, k) + [k];
      } else {
        var slot;
        slot, victim := GetBlock(k);
        blocks[slot] := Slot(k, clock, words);
        locked := None;
        order := order + [k];
      }
      clock := clock + 1;
      assert State() == Used(c, k, words);
      UseKeepsOrder(c, k, words);
      UseKeepsContents(c, k, words);
    }

    /** The first half of ServerRenew: where the index leads, if anywhere. */
    method FindForRenew(k: nat) returns (slot: Option<nat>)
      ensures slot == Found(State(), k)
    {
      slot := if k in index then Some(index[k]) else None;
    }

    /**
    The second half, any time later: gives up if the block is locked, and checks the block's key. The
    block may have been evicted and given to another key in between; the words go to key k or nowhere.
    */
    method ApplyRenew(slot: nat, k: nat, p: Patch)
      requires Valid(State()) && k != BAD_KEY && slot < blocks.Length
      modifies blocks
      ensures Valid(State()) && State() == Applied(old(State()), slot, k, p)
      ensures Contents(State()) == RenewedAt(old(State()), slot, k, p)
      ensures forall s :: 0 <= s < blocks.Length && old(blocks[s].key) != k ==> blocks[s] == old(blocks[s])
    {
      AppliedValid(State(), slot, k, p);
      AppliedContents(State(), slot, k, p);
      if locked != Some(slot) {
        if blocks[slot].key == k {
          blocks[slot] := blocks[slot].(words := Patched(blocks[slot].words, p));
        }
      }
    }

    /** ServerRenew without interruption, possibly in the middle of a miss. */
    method ServerRenew(k: nat, p: Patch)
      requires Valid(State()) && k != BAD_KEY
      modifies blocks
      ensures Valid(State()) && State() == WithRenew(old(State()), k, p)
      ensures Contents(State()) ==
        if k in Contents(old(State())) then Contents(old(State()))[k := Patched(Contents(old(State()))[k], p)] else Contents(old(State()))
    {
      RenewedContents(State(), k, p);
      FoundIsResident(State(), k, p);
      var slot := FindForRenew(k);
      if slot.Some? {
        ApplyRenew(slot.value, k, p);
      }
    }
  }

  /** A cache that has seen `uses` evicts the resident key whose last use is oldest. */
  lemma VictimLastUse(c: Cache, uses: seq<nat>, k: nat, other: nat)
    requires Valid(c) && c.order == After(|c.blocks|, uses) && Victim(c, k).Some?
    requires other in c.order && other != Victim(c, k).value
    ensures Victim(c, k).value in uses && other in uses && LastUse(uses, Victim(c, k).value) < LastUse(uses, other)
  {
    VictimIsOldest(|c.blocks|, uses, other);
  }
}
