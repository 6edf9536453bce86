/**
  The commit pipeline (commit.go) in queue mode: any number of Commit calls, interleaved at every
  atomic operation on the ring queue, the packed head/tail word, the applied flags and visibleSeqNum.
 */
module CommitPipeline {
  import opened Common

  /** A batch and the call that commits it. */
  datatype Id = Id(n: nat)

  /** The next atomic operation of a Commit call. */
  datatype Pc =
    | AtSem                              // p.sem <- struct{}{}
    | AtLock                             // p.mu.Lock()
    | EnqLoad                            // enqueue: load headTail
    | EnqSlot(h: nat)                    // enqueue: wait for the slot to be nil
    | EnqStore(h: nat)                   // enqueue: store the batch
    | EnqBump(h: nat)                    // enqueue: add one to the head
    | AtSeq                              // take a sequence number
    | AtWrite                            // write to the log, unlock
    | AtApply                            // apply to the memtable
    | AtFlag                             // publish: set applied
    | DqLoad                             // dequeue: load headTail
    | DqSlot(h: nat, t: nat)             // dequeue: load the slot at the tail
    | DqFlag(h: nat, t: nat, b: Id)      // dequeue: load the applied flag
    | DqCas(h: nat, t: nat, b: Id)       // dequeue: advance the tail
    | DqNil(t: nat, b: Id)               // dequeue: clear the slot
    | RLoad(b: Id)                       // publish: load visibleSeqNum
    | RCas(b: Id, cur: nat)              // publish: raise visibleSeqNum
    | RDone(b: Id)                       // publish: t.commit.Done()
    | AtWait                             // b.commit.Wait()
    | Returned
    | Panicked

  /** The batch is in the queue or has left it. */
  predicate Enqueued(pc: Pc) {
    !(pc.AtSem? || pc.AtLock? || pc.EnqLoad? || pc.EnqSlot? || pc.EnqStore? || pc.EnqBump? || pc.Panicked?)
  }

  predicate Flagged(pc: Pc) {
    Enqueued(pc) && !(pc.AtSeq? || pc.AtWrite? || pc.AtApply? || pc.AtFlag?)
  }

  /** The batch has been written to the log. */
  predicate Logged(pc: Pc) { Enqueued(pc) && !(pc.AtSeq? || pc.AtWrite?) }

  /** The batch has been put in the memtable. */
  predicate Inserted(pc: Pc) { Logged(pc) && !pc.AtApply? }

  predicate Critical(pc: Pc) {
    pc.EnqLoad? || pc.EnqSlot? || pc.EnqStore? || pc.EnqBump? || pc.AtSeq? || pc.AtWrite? || pc.Panicked?
  }

  /** Where the batches go: the log, in the order of the writes, and the memtable. */
  datatype Store = Store(wal: seq<Id>, mem: set<Id>)

  /**
    What the calls share. head and tail count all enqueues and dequeues; the machine word holds both
    modulo 2^32. hist lists the batches in queue order, so the head is |hist|; ends[k] is the
    sequence number before hist[k] and ends[|hist|] the one after the last batch.
   */
  datatype Shared = Shared(
    count: map<Id, nat>, syncWal: set<Id>, inSem: set<Id>, mutex: Option<Id>,
    hist: seq<Id>, ends: seq<nat>, tail: nat, slots: seq<Option<Id>>,
    log: nat, visible: nat, seqNum: map<Id, nat>,
    applied: set<Id>, published: set<Id>, synced: set<Id>, store: Store)

  datatype State = State(pc: map<Id, Pc>, sh: Shared)

  datatype Event =
    | Start(i: Id, n: nat, sync: bool)   // a new Commit call
    | Run(i: Id, stale: bool)            // the next operation of call i; stale: see DqFlag
    | WalSync(i: Id)                     // the log writer reports the batch synced

  function Slot(k: nat): (r: nat)
    ensures r < SLOTS
  {
    k % SLOTS
  }

  /** pack: the head in the upper, the tail in the lower 32 bits. */
  function Pack(head: nat, tail: nat): nat {
    (head % WORD) * WORD + tail % WORD
  }

  function Unpack(ptrs: nat): (nat, nat) {
    (ptrs / WORD % WORD, ptrs % WORD)
  }

  lemma UnpackPack(head: nat, tail: nat)
    ensures Unpack(Pack(head, tail)) == (head % WORD, tail % WORD)
  {
  }

  function At(s: State, i: Id, pc: Pc): State { s.(pc := s.pc[i := pc]) }

  function Moved(s: State, i: Id, pc: Pc, sh: Shared): State { State(s.pc[i := pc], sh) }

  predicate Sized(sh: Shared) {
    |sh.slots| == SLOTS && |sh.ends| == |sh.hist| + 1 && sh.tail <= |sh.hist|
  }

  /** The batches a call refers to exist. */
  predicate Names(sh: Shared, pc: Pc) {
    match pc
    case DqNil(_, b) => b in sh.seqNum && b in sh.count
    case RLoad(b) => b in sh.seqNum && b in sh.count
    case RCas(b, _) => b in sh.seqNum && b in sh.count
    case RDone(b) => b in sh.seqNum && b in sh.count
    case _ => true
  }

  function End(sh: Shared, b: Id): nat
    requires b in sh.seqNum && b in sh.count
  {
    sh.seqNum[b] + sh.count[b]
  }

  /** Call i can do its next operation. */
  predicate CanRun(s: State, i: Id, stale: bool) {
    && Sized(s.sh) && i in s.pc && i in s.sh.count && Names(s.sh, s.pc[i])
    && match s.pc[i]
       case AtSem => |s.sh.inSem| < SLOTS - 1
       case AtLock => s.sh.mutex == None
       case EnqSlot(h) => s.sh.slots[Slot(h)] == None
       // A call is not overtaken by 2^32 others between loading the word and swapping it.
       case DqCas(h, _, _) => |s.sh.hist| < h + WORD
       case DqFlag(_, _, b) => stale ==> b in s.pc && s.pc[b].Returned?
       case AtWait => i in s.sh.published && (i in s.sh.syncWal ==> i in s.sh.synced)
       case Returned => false
       case Panicked => false
       case _ => true
  }

  function Step(s: State, i: Id, stale: bool): (r: State)
    requires CanRun(s, i, stale)
    ensures i in r.pc && r.pc == s.pc[i := r.pc[i]] && s.sh.published <= r.sh.published
    ensures r.sh.hist == s.sh.hist || (s.pc[i].EnqBump? && r.sh.hist == s.sh.hist + [i])
    ensures r.sh.tail == s.sh.tail || (s.pc[i].DqCas? && r.pc[i].DqNil? && r.sh.tail == s.sh.tail + 1)
    ensures r.sh.applied == s.sh.applied || r.pc[i].DqLoad?
  {
    var sh := s.sh;
    match s.pc[i]
    case AtSem => Moved(s, i, AtLock, sh.(inSem := sh.inSem + {i}))
    case AtLock => Moved(s, i, EnqLoad, sh.(mutex := Some(i)))
    case EnqLoad => At(s, i, if (sh.tail + SLOTS) % WORD == |sh.hist| % WORD then Panicked else EnqSlot(|sh.hist|))
    case EnqSlot(h) => At(s, i, EnqStore(h))
    case EnqStore(h) => Moved(s, i, EnqBump(h), Stored(sh, h, i))
    case EnqBump(h) => Moved(s, i, AtSeq, Bumped(sh, i))
    case AtSeq => Moved(s, i, AtWrite, Numbered(sh, i))
    case AtWrite => Moved(s, i, AtApply, sh.(mutex := None, store := sh.store.(wal := sh.store.wal + [i])))
    case AtApply => Moved(s, i, AtFlag, sh.(store := sh.store.(mem := sh.store.mem + {i})))
    case AtFlag => Moved(s, i, DqLoad, sh.(applied := sh.applied + {i}))
    case DqLoad => At(s, i, if sh.tail % WORD == |sh.hist| % WORD then AtWait else DqSlot(|sh.hist|, sh.tail))
    case DqSlot(h, t) => At(s, i, match sh.slots[Slot(t)] case None => AtWait case Some(b) => DqFlag(h, t, b))
    // The batch of a call that has returned may be reset and reused, so its flag may read either way.
    case DqFlag(h, t, b) => At(s, i, if b in sh.applied && !stale then DqCas(h, t, b) else AtWait)
    case DqCas(h, t, b) =>
      if Pack(h, t) == Pack(|sh.hist|, sh.tail) then Moved(s, i, DqNil(t, b), sh.(tail := sh.tail + 1))
      else At(s, i, DqLoad)
    case DqNil(t, b) => Moved(s, i, RLoad(b), sh.(slots := sh.slots[Slot(t) := None]))
    case RLoad(b) => At(s, i, if End(sh, b) <= sh.visible then RDone(b) else RCas(b, sh.visible))
    case RCas(b, cur) =>
      if sh.visible == cur then Moved(s, i, RDone(b), sh.(visible := End(sh, b))) else At(s, i, RLoad(b))
    case RDone(b) => Moved(s, i, DqLoad, sh.(published := sh.published + {b}))
    case AtWait => Moved(s, i, Returned, sh.(inSem := sh.inSem - {i}))
  }

  function Stored(sh: Shared, h: nat, i: Id): Shared
    requires Sized(sh)
  {
    sh.(slots := sh.slots[Slot(h) := Some(i)])
  }

  function Bumped(sh: Shared, i: Id): Shared
    requires Sized(sh) && i in sh.count
  {
    sh.(hist := sh.hist + [i], ends := sh.ends + [sh.ends[|sh.hist|] + sh.count[i]])
  }

  function Numbered(sh: Shared, i: Id): Shared
    requires i in sh.count
  {
    sh.(seqNum := sh.seqNum[i := sh.log], log := sh.log + sh.count[i])
  }

  predicate Enabled(s: State, e: Event) {
    match e
    case Start(i, _, _) => i !in s.pc
    case WalSync(i) => i in s.sh.syncWal && i in s.sh.store.wal
    case Run(i, stale) => CanRun(s, i, stale)
  }

  function Apply(s: State, e: Event): State
    requires Enabled(s, e)
  {
    match e
    case Start(i, n, sync) => Moved(s, i, AtSem, Started(s.sh, i, n, sync))
    case WalSync(i) => s.(sh := s.sh.(synced := s.sh.synced + {i}))
    case Run(i, stale) => Step(s, i, stale)
  }

  function Started(sh: Shared, i: Id, n: nat, sync: bool): Shared {
    sh.(count := sh.count[i := n], syncWal := if sync then sh.syncWal + {i} else sh.syncWal)
  }

  // ----- The invariant -----

  /** Batch b has been dequeued. */
  ghost predicate Taken(hist: seq<Id>, tail: nat, b: Id) {
    exists k :: 0 <= k < tail && k < |hist| && hist[k] == b
  }

  /** (h, t) was the word of a non-empty queue. */
  predicate Loaded(sh: Shared, h: nat, t: nat) {
    t < h <= |sh.hist| && t <= sh.tail && h - t < SLOTS
  }

  /** What call i knows at each point. */
  ghost predicate CallOk(sh: Shared, i: Id, pc: Pc)
    requires Sized(sh)
  {
    Names(sh, pc) &&
    match pc
    case EnqSlot(h) => h == |sh.hist|
    case EnqStore(h) => h == |sh.hist| && sh.slots[Slot(h)] == None
    case EnqBump(h) => h == |sh.hist| && sh.slots[Slot(h)] == Some(i)
    case AtSeq => 0 < |sh.hist| && sh.hist[|sh.hist| - 1] == i
    case DqSlot(h, t) => Loaded(sh, h, t)
    case DqFlag(h, t, b) => Loaded(sh, h, t) && (t == sh.tail ==> b == sh.hist[t])
    case DqCas(h, t, b) => Loaded(sh, h, t) && (t == sh.tail ==> b == sh.hist[t] && b in sh.applied)
    case DqNil(t, b) => t < sh.tail && sh.hist[t] == b && sh.slots[Slot(t)] == Some(b)
    case RLoad(b) => Taken(sh.hist, sh.tail, b)
    case RCas(b, cur) => Taken(sh.hist, sh.tail, b) && cur < End(sh, b)
    case RDone(b) => Taken(sh.hist, sh.tail, b) && End(sh, b) <= sh.visible
    case Returned => i in sh.published && (i in sh.syncWal ==> i in sh.synced)
    case Panicked => false
    case _ => true
  }

  ghost predicate Calls(s: State)
    requires Sized(s.sh)
  {
    forall i :: i in s.pc ==> CallOk(s.sh, i, s.pc[i])
  }

  /** The ring holds the batches from tail to head in order; those before the tail have been applied. */
  ghost predicate Queue(hist: seq<Id>, tail: nat, slots: seq<Option<Id>>, applied: set<Id>)
    requires |slots| == SLOTS && tail <= |hist|
  {
    && (forall k, l :: 0 <= k < l < |hist| ==> hist[k] != hist[l])
    && (forall k :: tail <= k < |hist| ==> slots[Slot(k)] == Some(hist[k]))
    && (forall k :: 0 <= k < tail ==> hist[k] in applied)
  }

  /** Sequence numbers follow queue order; only the last batch may still be without one. */
  ghost predicate Numbers(hist: seq<Id>, ends: seq<nat>, count: map<Id, nat>, seqNum: map<Id, nat>, log: nat)
    requires |ends| == |hist| + 1
  {
    && (forall k :: 0 <= k < |hist| ==> hist[k] in count && ends[k + 1] == ends[k] + count[hist[k]])
    && (forall k :: 0 <= k < |hist| && hist[k] in seqNum ==> seqNum[hist[k]] == ends[k])
    && (forall k :: 0 <= k < |hist| - 1 ==> hist[k] in seqNum)
    && log == ends[if LastUnnumbered(hist, seqNum) then |hist| - 1 else |hist|]
  }

  predicate LastUnnumbered(hist: seq<Id>, seqNum: map<Id, nat>) {
    |hist| > 0 && hist[|hist| - 1] !in seqNum
  }

  ghost predicate PublishedOk(sh: Shared, b: Id) {
    Taken(sh.hist, sh.tail, b) && b in sh.seqNum && b in sh.count && End(sh, b) <= sh.visible
  }

  /** visibleSeqNum is never beyond the first batch still queued, nor short of a published one. */
  ghost predicate Ratchet(sh: Shared)
    requires Sized(sh)
  {
    && sh.ends[0] <= sh.visible <= sh.ends[sh.tail]
    && (forall b :: b in sh.published ==> PublishedOk(sh, b))
  }

  /** Where call i stands decides what the shared state says of its batch. */
  ghost predicate Agrees(sh: Shared, i: Id, pc: Pc) {
    && i in sh.count
    && (i in sh.hist <==> Enqueued(pc))
    && (i in sh.seqNum <==> Enqueued(pc) && !pc.AtSeq?)
    && (i in sh.applied <==> Flagged(pc))
    && (i in sh.inSem <==> !pc.AtSem? && !pc.Returned?)
    && (sh.mutex == Some(i) <==> Critical(pc))
  }

  ghost predicate Agreed(s: State) {
    && (forall i :: i in s.pc ==> Agrees(s.sh, i, s.pc[i]))
    && (forall i :: i in s.sh.count || i in s.sh.hist || i in s.sh.seqNum || i in s.sh.applied || i in s.sh.inSem ==> i in s.pc)
    && (s.sh.mutex.Some? ==> s.sh.mutex.value in s.pc)
    && |s.sh.inSem| < SLOTS
  }

  ghost predicate SharedOk(sh: Shared) {
    && Sized(sh) && Queue(sh.hist, sh.tail, sh.slots, sh.applied)
    && Numbers(sh.hist, sh.ends, sh.count, sh.seqNum, sh.log) && Ratchet(sh)
  }

  ghost predicate Base(s: State) {
    SharedOk(s.sh) && Agreed(s) && Calls(s)
  }

  // ----- The queue is never full -----

  lemma {:induction false} DistinctCard(q: seq<Id>, u: set<Id>)
    requires forall k, l :: 0 <= k < l < |q| ==> q[k] != q[l]
    requires forall k :: 0 <= k < |q| ==> q[k] in u
    ensures |q| <= |u|
  {
    if q != [] {
      var n := |q| - 1;
      DistinctCard(q[..n], u - {q[n]});
    }
  }

  /** A batch in the queue belongs to a call that has not returned, so it holds the semaphore. */
  lemma QueuedHoldsSem(s: State, k: nat)
    requires Sized(s.sh) && Queue(s.sh.hist, s.sh.tail, s.sh.slots, s.sh.applied) && Ratchet(s.sh) && Agreed(s) && Calls(s) && s.sh.tail <= k < |s.sh.hist|
    ensures s.sh.hist[k] in s.sh.inSem
  {
    var b := s.sh.hist[k];
    assert b in s.sh.hist && CallOk(s.sh, b, s.pc[b]) && Agrees(s.sh, b, s.pc[b]);
    assert b in s.sh.published ==> PublishedOk(s.sh, b);
  }

  lemma QueueBounded(s: State)
    requires Sized(s.sh) && Queue(s.sh.hist, s.sh.tail, s.sh.slots, s.sh.applied) && Ratchet(s.sh) && Agreed(s) && Calls(s)
    ensures |s.sh.hist| - s.sh.tail < SLOTS
  {
    forall k | s.sh.tail <= k < |s.sh.hist|
      ensures s.sh.hist[k] in s.sh.inSem
    {
      QueuedHoldsSem(s, k);
    }
    DistinctCard(s.sh.hist[s.sh.tail..], s.sh.inSem);
  }

  lemma ModSmall(a: nat, d: nat)
    requires 0 < d < WORD
    ensures (a + d) % WORD != a % WORD
  {
  }

  /** enqueue never finds the queue full, and an empty queue is seen as empty. */
  lemma WordsTell(s: State)
    requires Sized(s.sh) && Queue(s.sh.hist, s.sh.tail, s.sh.slots, s.sh.applied) && Ratchet(s.sh) && Agreed(s) && Calls(s)
    ensures (s.sh.tail + SLOTS) % WORD != |s.sh.hist| % WORD
    ensures s.sh.tail % WORD == |s.sh.hist| % WORD <==> s.sh.tail == |s.sh.hist|
    ensures |s.sh.hist| - s.sh.tail < SLOTS
  {
    QueueBounded(s);
    var h, t := |s.sh.hist|, s.sh.tail;
    ModSmall(h, t + SLOTS - h);
    if t < h {
      ModSmall(t, h - t);
    }
  }

  /** Equal words mean equal counters as long as the call was not overtaken. */
  lemma WordIsExact(sh: Shared, h: nat, t: nat)
    requires sh.tail <= |sh.hist| < h + WORD && Loaded(sh, h, t)
    ensures Pack(h, t) == Pack(|sh.hist|, sh.tail) <==> h == |sh.hist| && t == sh.tail
  {
    UnpackPack(h, t);
    UnpackPack(|sh.hist|, sh.tail);
    if h < |sh.hist| {
      ModSmall(h, |sh.hist| - h);
    } else if t < sh.tail {
      ModSmall(t, sh.tail - t);
    }
  }

  // ----- Every step keeps the invariant -----

  /** Moving call i on without changing what its position says about the batch keeps everything. */
  lemma MoveKeeps(s: State, i: Id, pc: Pc)
    requires Base(s) && i in s.pc && Agrees(s.sh, i, pc) && CallOk(s.sh, i, pc)
    ensures Base(At(s, i, pc))
  {
  }

  /** What is left to check of a step that also changes the shared state. */
  ghost predicate OthersFit(s: State, i: Id, sh: Shared)
    requires Sized(sh)
  {
    && (forall j :: j in s.pc && j != i ==> Agrees(sh, j, s.pc[j]) && CallOk(sh, j, s.pc[j]))
    && (forall j :: j in sh.count || j in sh.hist || j in sh.seqNum || j in sh.applied || j in sh.inSem ==> j in s.pc || j == i)
    && (sh.mutex.Some? ==> sh.mutex.value in s.pc || sh.mutex.value == i)
    && |sh.inSem| < SLOTS
  }

  lemma SharedKeeps(s: State, i: Id, pc: Pc, sh: Shared)
    requires SharedOk(sh) && OthersFit(s, i, sh) && Agrees(sh, i, pc) && CallOk(sh, i, pc)
    ensures Base(Moved(s, i, pc, sh))
  {
  }

  // How one call's knowledge survives each kind of change by another.

  lemma CallStays(sh: Shared, sh': Shared, j: Id, pc: Pc)
    requires Sized(sh) && CallOk(sh, j, pc)
    requires sh' == sh.(inSem := sh'.inSem, mutex := sh'.mutex, store := sh'.store)
    ensures CallOk(sh', j, pc)
  {
  }

  lemma CallAfterStore(sh: Shared, j: Id, pc: Pc, h: nat, i: Id)
    requires Sized(sh) && CallOk(sh, j, pc) && !Critical(pc) && sh.slots[Slot(h)] == None
    ensures CallOk(Stored(sh, h, i), j, pc)
  {
  }

  lemma TakenAfterBump(hist: seq<Id>, tail: nat, b: Id, i: Id)
    requires Taken(hist, tail, b)
    ensures Taken(hist + [i], tail, b)
  {
    var k :| 0 <= k < tail && k < |hist| && hist[k] == b;
    assert (hist + [i])[k] == b;
  }

  lemma CallAfterBump(sh: Shared, j: Id, pc: Pc, i: Id)
    requires Sized(sh) && CallOk(sh, j, pc) && !Critical(pc) && i in sh.count
    ensures Sized(Bumped(sh, i)) && CallOk(Bumped(sh, i), j, pc)
  {
    match pc
    case RLoad(b) => TakenAfterBump(sh.hist, sh.tail, b, i);
    case RCas(b, _) => TakenAfterBump(sh.hist, sh.tail, b, i);
    case RDone(b) => TakenAfterBump(sh.hist, sh.tail, b, i);
    case _ =>
  }

  lemma CallAfterNumber(sh: Shared, j: Id, pc: Pc, i: Id)
    requires Sized(sh) && CallOk(sh, j, pc) && i in sh.count && i !in sh.seqNum
    ensures CallOk(Numbered(sh, i), j, pc)
  {
  }

  lemma CallAfterFlag(sh: Shared, j: Id, pc: Pc, i: Id)
    requires Sized(sh) && CallOk(sh, j, pc)
    ensures CallOk(sh.(applied := sh.applied + {i}), j, pc)
  {
  }

  lemma TakenAfterTake(hist: seq<Id>, tail: nat, b: Id)
    requires Taken(hist, tail, b)
    ensures Taken(hist, tail + 1, b)
  {
    var k :| 0 <= k < tail && k < |hist| && hist[k] == b;
    assert hist[k] == b;
  }

  lemma CallAfterTake(sh: Shared, j: Id, pc: Pc)
    requires Sized(sh) && CallOk(sh, j, pc) && sh.tail < |sh.hist|
    ensures Sized(sh.(tail := sh.tail + 1)) && CallOk(sh.(tail := sh.tail + 1), j, pc)
  {
    match pc
    case RLoad(b) => TakenAfterTake(sh.hist, sh.tail, b);
    case RCas(b, _) => TakenAfterTake(sh.hist, sh.tail, b);
    case RDone(b) => TakenAfterTake(sh.hist, sh.tail, b);
    case _ =>
  }

  lemma CallAfterNil(sh: Shared, j: Id, pc: Pc, t: nat, b: Id)
    requires Sized(sh) && CallOk(sh, j, pc) && sh.slots[Slot(t)] == Some(b)
    requires (pc.EnqBump? ==> j != b) && (pc.DqNil? ==> pc.b != b)
    ensures CallOk(sh.(slots := sh.slots[Slot(t) := None]), j, pc)
  {
  }

  lemma CallAfterRaise(sh: Shared, j: Id, pc: Pc, v: nat)
    requires Sized(sh) && CallOk(sh, j, pc) && sh.visible <= v
    ensures CallOk(sh.(visible := v), j, pc)
  {
  }

  lemma CallAfterDone(sh: Shared, j: Id, pc: Pc, b: Id)
    requires Sized(sh) && CallOk(sh, j, pc)
    ensures CallOk(sh.(published := sh.published + {b}), j, pc)
    ensures CallOk(sh.(synced := sh.synced + {b}), j, pc)
  {
  }

  lemma CallAfterStart(sh: Shared, j: Id, pc: Pc, i: Id, n: nat, sync: bool)
    requires Sized(sh) && CallOk(sh, j, pc) && i !in sh.count && i != j
    ensures CallOk(Started(sh, i, n, sync), j, pc)
  {
  }

  // What each step leaves for the other calls.

  lemma StoreOthers(s: State, i: Id, h: nat)
    requires Sized(s.sh) && Agreed(s) && Calls(s) && i in s.pc && s.pc[i] == EnqStore(h)
    ensures var sh := Stored(s.sh, h, i); Sized(sh) && OthersFit(s, i, sh) && Agrees(sh, i, EnqBump(h))
  {
    var sh := Stored(s.sh, h, i);
    assert Agrees(s.sh, i, s.pc[i]) && CallOk(s.sh, i, s.pc[i]);
    forall j | j in s.pc && j != i
      ensures Agrees(sh, j, s.pc[j]) && CallOk(sh, j, s.pc[j])
    {
      assert Agrees(s.sh, j, s.pc[j]);
      CallAfterStore(s.sh, j, s.pc[j], h, i);
    }
  }

  lemma BumpOthers(s: State, i: Id, h: nat)
    requires Sized(s.sh) && Agreed(s) && Calls(s) && i in s.pc && s.pc[i] == EnqBump(h) && i in s.sh.count
    ensures var sh := Bumped(s.sh, i); Sized(sh) && OthersFit(s, i, sh) && Agrees(sh, i, AtSeq)
  {
    var sh := Bumped(s.sh, i);
    assert Agrees(s.sh, i, s.pc[i]) && CallOk(s.sh, i, s.pc[i]);
    forall j | j in s.pc && j != i
      ensures Agrees(sh, j, s.pc[j]) && CallOk(sh, j, s.pc[j])
    {
      assert Agrees(s.sh, j, s.pc[j]);
      CallAfterBump(s.sh, j, s.pc[j], i);
    }
  }

  lemma NumberOthers(s: State, i: Id)
    requires Sized(s.sh) && Agreed(s) && Calls(s) && i in s.pc && s.pc[i] == AtSeq && i in s.sh.count
    ensures var sh := Numbered(s.sh, i); Sized(sh) && OthersFit(s, i, sh) && Agrees(sh, i, AtWrite)
  {
    var sh := Numbered(s.sh, i);
    assert Agrees(s.sh, i, s.pc[i]) && CallOk(s.sh, i, s.pc[i]);
    forall j | j in s.pc && j != i
      ensures Agrees(sh, j, s.pc[j]) && CallOk(sh, j, s.pc[j])
    {
      assert Agrees(s.sh, j, s.pc[j]);
      CallAfterNumber(s.sh, j, s.pc[j], i);
    }
  }

  lemma FlagOthers(s: State, i: Id)
    requires Sized(s.sh) && Agreed(s) && Calls(s) && i in s.pc && s.pc[i] == AtFlag
    ensures var sh := s.sh.(applied := s.sh.applied + {i}); Sized(sh) && OthersFit(s, i, sh) && Agrees(sh, i, DqLoad)
  {
    var sh := s.sh.(applied := s.sh.applied + {i});
    assert Agrees(s.sh, i, s.pc[i]) && CallOk(s.sh, i, s.pc[i]);
    forall j | j in s.pc && j != i
      ensures Agrees(sh, j, s.pc[j]) && CallOk(sh, j, s.pc[j])
    {
      assert Agrees(s.sh, j, s.pc[j]);
      CallAfterFlag(s.sh, j, s.pc[j], i);
    }
  }

  lemma TakeOthers(s: State, i: Id, h: nat, t: nat, b: Id)
    requires Sized(s.sh) && Agreed(s) && Calls(s) && i in s.pc && s.pc[i] == DqCas(h, t, b) && s.sh.tail < |s.sh.hist|
    ensures var sh := s.sh.(tail := s.sh.tail + 1); Sized(sh) && OthersFit(s, i, sh) && Agrees(sh, i, DqNil(t, b))
  {
    hide CallOk;
    var sh := s.sh.(tail := s.sh.tail + 1);
    assert Agrees(s.sh, i, s.pc[i]) && CallOk(s.sh, i, s.pc[i]);
    forall j | j in s.pc && j != i
      ensures Agrees(sh, j, s.pc[j]) && CallOk(sh, j, s.pc[j])
    {
      assert Agrees(s.sh, j, s.pc[j]);
      CallAfterTake(s.sh, j, s.pc[j]);
    }
  }

  lemma RaiseOthers(s: State, i: Id, b: Id, v: nat)
    requires Sized(s.sh) && Agreed(s) && Calls(s) && i in s.pc && s.pc[i] == RCas(b, s.sh.visible) && s.sh.visible <= v
    ensures var sh := s.sh.(visible := v); Sized(sh) && OthersFit(s, i, sh) && Agrees(sh, i, RDone(b))
  {
    var sh := s.sh.(visible := v);
    assert Agrees(s.sh, i, s.pc[i]) && CallOk(s.sh, i, s.pc[i]);
    forall j | j in s.pc && j != i
      ensures Agrees(sh, j, s.pc[j]) && CallOk(sh, j, s.pc[j])
    {
      assert Agrees(s.sh, j, s.pc[j]);
      CallAfterRaise(s.sh, j, s.pc[j], v);
    }
  }

  lemma DoneOthers(s: State, i: Id, b: Id)
    requires Sized(s.sh) && Agreed(s) && Calls(s) && i in s.pc && s.pc[i] == RDone(b)
    ensures var sh := s.sh.(published := s.sh.published + {b}); Sized(sh) && OthersFit(s, i, sh) && Agrees(sh, i, DqLoad)
  {
    var sh := s.sh.(published := s.sh.published + {b});
    assert Agrees(s.sh, i, s.pc[i]) && CallOk(s.sh, i, s.pc[i]);
    forall j | j in s.pc && j != i
      ensures Agrees(sh, j, s.pc[j]) && CallOk(sh, j, s.pc[j])
    {
      assert Agrees(s.sh, j, s.pc[j]);
      CallAfterDone(s.sh, j, s.pc[j], b);
    }
  }

  lemma NilOthers(s: State, i: Id, t: nat, b: Id)
    requires Sized(s.sh) && Agreed(s) && Calls(s) && i in s.pc && s.pc[i] == DqNil(t, b)
    requires forall j :: j in s.pc && j != i && s.pc[j].DqNil? ==> s.pc[j].b != b
    ensures var sh := s.sh.(slots := s.sh.slots[Slot(t) := None]); Sized(sh) && OthersFit(s, i, sh) && Agrees(sh, i, RLoad(b))
  {
    var sh := s.sh.(slots := s.sh.slots[Slot(t) := None]);
    assert Agrees(s.sh, i, s.pc[i]) && CallOk(s.sh, i, s.pc[i]);
    assert b in s.sh.hist;
    forall j | j in s.pc && j != i
      ensures Agrees(sh, j, s.pc[j]) && CallOk(sh, j, s.pc[j])
    {
      assert Agrees(s.sh, j, s.pc[j]);
      CallAfterNil(s.sh, j, s.pc[j], t, b);
    }
  }

  lemma StartOthers(s: State, i: Id, n: nat, sync: bool)
    requires Sized(s.sh) && Agreed(s) && Calls(s) && i !in s.pc
    ensures var sh := Started(s.sh, i, n, sync); Sized(sh) && OthersFit(s, i, sh) && Agrees(sh, i, AtSem)
  {
    var sh := Started(s.sh, i, n, sync);
    forall j | j in s.pc
      ensures Agrees(sh, j, s.pc[j]) && CallOk(sh, j, s.pc[j])
    {
      assert Agrees(s.sh, j, s.pc[j]);
      CallAfterStart(s.sh, j, s.pc[j], i, n, sync);
    }
    assert s.sh.mutex != Some(i);
  }

  lemma BookOthers(s: State, i: Id, sh: Shared)
    requires Sized(s.sh) && Agreed(s) && Calls(s) && i in s.pc && |sh.inSem| < SLOTS
    requires sh == s.sh.(inSem := sh.inSem, mutex := sh.mutex, store := sh.store)
    requires forall j :: j != i ==> (j in sh.inSem <==> j in s.sh.inSem) && (sh.mutex == Some(j) <==> s.sh.mutex == Some(j))
    ensures OthersFit(s, i, sh)
  {
    forall j | j in s.pc && j != i
      ensures Agrees(sh, j, s.pc[j]) && CallOk(sh, j, s.pc[j])
    {
      assert Agrees(s.sh, j, s.pc[j]);
      CallStays(s.sh, sh, j, s.pc[j]);
    }
  }

  // What each step leaves of the shared state.

  lemma StoreShared(sh: Shared, h: nat, i: Id)
    requires SharedOk(sh) && sh.slots[Slot(h)] == None
    ensures SharedOk(Stored(sh, h, i))
  {
    var sh' := Stored(sh, h, i);
    forall b | b in sh.published
      ensures PublishedOk(sh', b)
    {
      assert PublishedOk(sh, b);
    }
  }

  lemma BumpShared(sh: Shared, i: Id)
    requires SharedOk(sh) && i in sh.count && i !in sh.hist && i !in sh.seqNum
    requires sh.slots[Slot(|sh.hist|)] == Some(i) && !LastUnnumbered(sh.hist, sh.seqNum)
    ensures SharedOk(Bumped(sh, i))
  {
    var sh' := Bumped(sh, i);
    forall b | b in sh.published
      ensures PublishedOk(sh', b)
    {
      assert PublishedOk(sh, b);
      TakenAfterBump(sh.hist, sh.tail, b, i);
    }
    BumpNumbers(sh, i);
    BumpQueue(sh, i);
  }

  lemma BumpNumbers(sh: Shared, i: Id)
    requires Sized(sh) && Numbers(sh.hist, sh.ends, sh.count, sh.seqNum, sh.log)
    requires i in sh.count && i !in sh.seqNum && !LastUnnumbered(sh.hist, sh.seqNum)
    ensures var sh' := Bumped(sh, i); Numbers(sh'.hist, sh'.ends, sh'.count, sh'.seqNum, sh'.log)
  {
  }

  lemma BumpQueue(sh: Shared, i: Id)
    requires Sized(sh) && Queue(sh.hist, sh.tail, sh.slots, sh.applied) && i in sh.count && i !in sh.hist
    requires sh.slots[Slot(|sh.hist|)] == Some(i)
    ensures var sh' := Bumped(sh, i); Queue(sh'.hist, sh'.tail, sh'.slots, sh'.applied)
  {
  }

  lemma NumberShared(sh: Shared, i: Id)
    requires SharedOk(sh) && i in sh.count && i !in sh.seqNum && 0 < |sh.hist| && sh.hist[|sh.hist| - 1] == i
    ensures SharedOk(Numbered(sh, i))
  {
    var sh' := Numbered(sh, i);
    forall b | b in sh.published
      ensures PublishedOk(sh', b)
    {
      assert PublishedOk(sh, b);
    }
    NumberNumbers(sh, i);
  }

  lemma NumberNumbers(sh: Shared, i: Id)
    requires Sized(sh) && Numbers(sh.hist, sh.ends, sh.count, sh.seqNum, sh.log)
    requires Queue(sh.hist, sh.tail, sh.slots, sh.applied)
    requires i in sh.count && i !in sh.seqNum && 0 < |sh.hist| && sh.hist[|sh.hist| - 1] == i
    ensures var sh' := Numbered(sh, i); Numbers(sh'.hist, sh'.ends, sh'.count, sh'.seqNum, sh'.log)
  {
  }

  lemma FlagShared(sh: Shared, i: Id)
    requires SharedOk(sh)
    ensures SharedOk(sh.(applied := sh.applied + {i}))
  {
    forall b | b in sh.published
      ensures PublishedOk(sh.(applied := sh.applied + {i}), b)
    {
      assert PublishedOk(sh, b);
    }
  }

  lemma TakeShared(sh: Shared)
    requires SharedOk(sh) && sh.tail < |sh.hist| && sh.hist[sh.tail] in sh.applied
    ensures SharedOk(sh.(tail := sh.tail + 1))
  {
    var sh' := sh.(tail := sh.tail + 1);
    forall b | b in sh.published
      ensures PublishedOk(sh', b)
    {
      assert PublishedOk(sh, b);
      TakenAfterTake(sh.hist, sh.tail, b);
    }
    EndsGrow(sh, sh.tail, sh.tail + 1);
  }

  lemma NilShared(sh: Shared, t: nat, b: Id)
    requires SharedOk(sh) && t < sh.tail && sh.hist[t] == b && sh.slots[Slot(t)] == Some(b)
    ensures SharedOk(sh.(slots := sh.slots[Slot(t) := None]))
  {
    forall c | c in sh.published
      ensures PublishedOk(sh.(slots := sh.slots[Slot(t) := None]), c)
    {
      assert PublishedOk(sh, c);
    }
  }

  lemma {:induction false} EndsGrow(sh: Shared, k: nat, l: nat)
    requires Sized(sh) && Numbers(sh.hist, sh.ends, sh.count, sh.seqNum, sh.log) && k <= l <= |sh.hist|
    ensures sh.ends[k] <= sh.ends[l]
    decreases l
  {
    if k < l {
      EndsGrow(sh, k, l - 1);
      assert sh.ends[l - 1 + 1] == sh.ends[l - 1] + sh.count[sh.hist[l - 1]];
    }
  }

  /** A dequeued batch ends at or before the first one still in the queue. */
  lemma TakenEnds(sh: Shared, b: Id)
    requires Sized(sh) && Numbers(sh.hist, sh.ends, sh.count, sh.seqNum, sh.log)
    requires Taken(sh.hist, sh.tail, b) && b in sh.seqNum && b in sh.count
    ensures End(sh, b) <= sh.ends[sh.tail]
  {
    var k :| 0 <= k < sh.tail && k < |sh.hist| && sh.hist[k] == b;
    EndsGrow(sh, k + 1, sh.tail);
  }

  lemma RaiseShared(sh: Shared, b: Id)
    requires SharedOk(sh) && Taken(sh.hist, sh.tail, b) && b in sh.seqNum && b in sh.count && sh.visible <= End(sh, b)
    ensures SharedOk(sh.(visible := End(sh, b)))
  {
    TakenEnds(sh, b);
    forall c | c in sh.published
      ensures PublishedOk(sh.(visible := End(sh, b)), c)
    {
      assert PublishedOk(sh, c);
    }
  }

  lemma DoneShared(sh: Shared, b: Id)
    requires SharedOk(sh) && PublishedOk(sh, b)
    ensures SharedOk(sh.(published := sh.published + {b}))
  {
    forall c | c in sh.published + {b}
      ensures PublishedOk(sh.(published := sh.published + {b}), c)
    {
      assert PublishedOk(sh, c);
    }
  }

  /** Fields that none of the shared predicates mention may change freely. */
  lemma BookShared(sh: Shared, sh': Shared)
    requires SharedOk(sh) && sh' == sh.(inSem := sh'.inSem, mutex := sh'.mutex, synced := sh'.synced, store := sh'.store)
    ensures SharedOk(sh')
  {
    forall b | b in sh.published
      ensures PublishedOk(sh', b)
    {
      assert PublishedOk(sh, b);
    }
  }

  lemma StartShared(sh: Shared, i: Id, n: nat, sync: bool)
    requires SharedOk(sh) && i !in sh.count
    ensures SharedOk(Started(sh, i, n, sync))
  {
    forall b | b in sh.published
      ensures PublishedOk(Started(sh, i, n, sync), b)
    {
      assert PublishedOk(sh, b);
    }
  }

  // One step of a call, by where it stands.

  /** No two calls clear the slot of the same batch. */
  ghost predicate OneClears(pc: map<Id, Pc>) {
    forall i, j :: i in pc && j in pc && i != j && pc[i].DqNil? && pc[j].DqNil? ==> pc[i].b != pc[j].b
  }

  lemma SemKeeps(s: State, i: Id)
    requires Base(s) && CanRun(s, i, false) && s.pc[i] == AtSem
    ensures Base(Step(s, i, false))
  {
    var sh := s.sh.(inSem := s.sh.inSem + {i});
    assert Agrees(s.sh, i, s.pc[i]);
    BookOthers(s, i, sh);
    BookShared(s.sh, sh);
    SharedKeeps(s, i, AtLock, sh);
  }

  lemma LockKeeps(s: State, i: Id)
    requires Base(s) && CanRun(s, i, false) && s.pc[i] == AtLock
    ensures Base(Step(s, i, false))
  {
    var sh := s.sh.(mutex := Some(i));
    assert Agrees(s.sh, i, s.pc[i]);
    BookOthers(s, i, sh);
    BookShared(s.sh, sh);
    SharedKeeps(s, i, EnqLoad, sh);
  }

  lemma StoreKeeps(s: State, i: Id, h: nat)
    requires Base(s) && CanRun(s, i, false) && s.pc[i] == EnqStore(h)
    ensures Base(Step(s, i, false))
  {
    assert CallOk(s.sh, i, s.pc[i]);
    StoreOthers(s, i, h);
    StoreShared(s.sh, h, i);
    SharedKeeps(s, i, EnqBump(h), Stored(s.sh, h, i));
  }

  /** The last batch in the queue is numbered before the lock is released to the next one. */
  lemma LastIsNumbered(s: State, i: Id)
    requires Agreed(s) && s.sh.mutex == Some(i) && i in s.pc && !s.pc[i].AtSeq?
    ensures !LastUnnumbered(s.sh.hist, s.sh.seqNum)
  {
    if |s.sh.hist| > 0 {
      var l := s.sh.hist[|s.sh.hist| - 1];
      assert l in s.sh.hist && Agrees(s.sh, l, s.pc[l]);
    }
  }

  lemma BumpKeeps(s: State, i: Id, h: nat)
    requires Base(s) && CanRun(s, i, false) && s.pc[i] == EnqBump(h)
    ensures Base(Step(s, i, false))
  {
    hide Names;
    assert CallOk(s.sh, i, s.pc[i]) && Agrees(s.sh, i, s.pc[i]);
    LastIsNumbered(s, i);
    BumpOthers(s, i, h);
    BumpShared(s.sh, i);
    SharedKeeps(s, i, AtSeq, Bumped(s.sh, i));
  }

  lemma NumberKeeps(s: State, i: Id)
    requires Base(s) && CanRun(s, i, false) && s.pc[i] == AtSeq
    ensures Base(Step(s, i, false))
  {
    assert CallOk(s.sh, i, s.pc[i]) && Agrees(s.sh, i, s.pc[i]);
    NumberOthers(s, i);
    NumberShared(s.sh, i);
    SharedKeeps(s, i, AtWrite, Numbered(s.sh, i));
  }

  lemma WriteKeeps(s: State, i: Id)
    requires Base(s) && CanRun(s, i, false) && s.pc[i] == AtWrite
    ensures Base(Step(s, i, false))
  {
    var sh := s.sh.(mutex := None, store := s.sh.store.(wal := s.sh.store.wal + [i]));
    assert Agrees(s.sh, i, s.pc[i]);
    BookOthers(s, i, sh);
    BookShared(s.sh, sh);
    SharedKeeps(s, i, AtApply, sh);
  }

  lemma FlagKeeps(s: State, i: Id)
    requires Base(s) && CanRun(s, i, false) && s.pc[i] == AtFlag
    ensures Base(Step(s, i, false))
  {
    FlagOthers(s, i);
    FlagShared(s.sh, i);
    SharedKeeps(s, i, DqLoad, s.sh.(applied := s.sh.applied + {i}));
  }

  lemma WaitKeeps(s: State, i: Id)
    requires Base(s) && CanRun(s, i, false) && s.pc[i] == AtWait
    ensures Base(Step(s, i, false))
  {
    hide SharedOk;
    var sh := s.sh.(inSem := s.sh.inSem - {i});
    assert Agrees(s.sh, i, s.pc[i]);
    BookOthers(s, i, sh);
    BookShared(s.sh, sh);
    SharedKeeps(s, i, Returned, sh);
  }

  // The steps that change nothing shared.

  lemma EnqueueLoads(s: State, i: Id)
    requires Base(s) && CanRun(s, i, false) && s.pc[i] == EnqLoad
    ensures Base(Step(s, i, false))
  {
    hide LastUnnumbered;
    WordsTell(s);
    assert Step(s, i, false) == At(s, i, EnqSlot(|s.sh.hist|));
    EnqueueLoaded(s, i);
  }

  lemma EnqueueLoaded(s: State, i: Id)
    requires Base(s) && i in s.pc && s.pc[i] == EnqLoad
    ensures Base(At(s, i, EnqSlot(|s.sh.hist|)))
  {
    assert Agrees(s.sh, i, s.pc[i]);
    MoveKeeps(s, i, EnqSlot(|s.sh.hist|));
  }

  lemma EnqueueReadsSlot(s: State, i: Id, h: nat)
    requires Base(s) && CanRun(s, i, false) && s.pc[i] == EnqSlot(h)
    ensures Base(Step(s, i, false))
  {
    assert CallOk(s.sh, i, s.pc[i]) && Agrees(s.sh, i, s.pc[i]);
    MoveKeeps(s, i, EnqStore(h));
  }

  lemma ApplyKeeps(s: State, i: Id)
    requires Base(s) && CanRun(s, i, false) && s.pc[i] == AtApply
    ensures Base(Step(s, i, false))
  {
    var sh := s.sh.(store := s.sh.store.(mem := s.sh.store.mem + {i}));
    assert Agrees(s.sh, i, s.pc[i]);
    BookOthers(s, i, sh);
    BookShared(s.sh, sh);
    SharedKeeps(s, i, AtFlag, sh);
  }

  lemma DequeueLoads(s: State, i: Id)
    requires Base(s) && CanRun(s, i, false) && s.pc[i] == DqLoad
    ensures Base(Step(s, i, false))
  {
    assert CallOk(s.sh, i, s.pc[i]) && Agrees(s.sh, i, s.pc[i]);
    WordsTell(s);
    hide Base, Agreed, Calls, SharedOk;
    MoveKeeps(s, i, if s.sh.tail == |s.sh.hist| then AtWait else DqSlot(|s.sh.hist|, s.sh.tail));
  }

  lemma DequeueReadsSlot(s: State, i: Id, h: nat, t: nat)
    requires Base(s) && CanRun(s, i, false) && s.pc[i] == DqSlot(h, t)
    ensures Base(Step(s, i, false))
  {
    assert CallOk(s.sh, i, s.pc[i]) && Agrees(s.sh, i, s.pc[i]);
    hide Base, Agreed, Calls, SharedOk;
    if s.sh.slots[Slot(t)] == None {
      MoveKeeps(s, i, AtWait);
    } else {
      MoveKeeps(s, i, DqFlag(h, t, s.sh.slots[Slot(t)].value));
    }
  }

  lemma DequeueReadsFlag(s: State, i: Id, stale: bool, h: nat, t: nat, b: Id)
    requires Base(s) && CanRun(s, i, stale) && s.pc[i] == DqFlag(h, t, b)
    ensures Base(Step(s, i, stale))
  {
    assert CallOk(s.sh, i, s.pc[i]) && Agrees(s.sh, i, s.pc[i]);
    hide Base, Agreed, Calls, SharedOk;
    MoveKeeps(s, i, if b in s.sh.applied && !stale then DqCas(h, t, b) else AtWait);
  }

  lemma PublishReads(s: State, i: Id, b: Id)
    requires Base(s) && CanRun(s, i, false) && s.pc[i] == RLoad(b)
    ensures Base(Step(s, i, false))
  {
    assert CallOk(s.sh, i, s.pc[i]) && Agrees(s.sh, i, s.pc[i]);
    hide Base, Agreed, Calls, SharedOk;
    MoveKeeps(s, i, if End(s.sh, b) <= s.sh.visible then RDone(b) else RCas(b, s.sh.visible));
  }

  /** The swap succeeds exactly on the word that was loaded. */
  lemma DequeueIs(s: State, i: Id, h: nat, t: nat, b: Id)
    requires CanRun(s, i, false) && s.pc[i] == DqCas(h, t, b) && Loaded(s.sh, h, t)
    ensures Step(s, i, false) ==
      if t == s.sh.tail && h == |s.sh.hist| then Moved(s, i, DqNil(t, b), s.sh.(tail := s.sh.tail + 1)) else At(s, i, DqLoad)
  {
    WordIsExact(s.sh, h, t);
  }

  lemma RetryKeeps(s: State, i: Id)
    requires Base(s) && i in s.pc && s.pc[i].DqCas?
    ensures Base(At(s, i, DqLoad))
  {
    assert Agrees(s.sh, i, s.pc[i]);
    MoveKeeps(s, i, DqLoad);
  }

  lemma DequeueKeeps(s: State, i: Id, h: nat, t: nat, b: Id)
    requires Base(s) && CanRun(s, i, false) && s.pc[i] == DqCas(h, t, b)
    ensures Base(Step(s, i, false))
  {
    assert CallOk(s.sh, i, s.pc[i]);
    DequeueIs(s, i, h, t, b);
    if t == s.sh.tail && h == |s.sh.hist| {
      TakeKeeps(s, i, h, t, b);
    } else {
      RetryKeeps(s, i);
    }
  }

  lemma TakeKeeps(s: State, i: Id, h: nat, t: nat, b: Id)
    requires Base(s) && i in s.pc && s.pc[i] == DqCas(h, t, b) && t == s.sh.tail < |s.sh.hist|
    ensures Base(Moved(s, i, DqNil(t, b), s.sh.(tail := s.sh.tail + 1)))
  {
    hide Agrees;
    assert CallOk(s.sh, i, s.pc[i]);
    TakenNames(s, b);
    TakeOthers(s, i, h, t, b);
    TakeShared(s.sh);
    SharedKeeps(s, i, DqNil(t, b), s.sh.(tail := s.sh.tail + 1));
  }

  /** An applied batch has its sequence number. */
  lemma TakenNames(s: State, b: Id)
    requires Agreed(s) && b in s.sh.applied
    ensures b in s.sh.seqNum && b in s.sh.count
  {
    assert Agrees(s.sh, b, s.pc[b]);
  }

  lemma ClearKeeps(s: State, i: Id, t: nat, b: Id)
    requires Base(s) && OneClears(s.pc) && CanRun(s, i, false) && s.pc[i] == DqNil(t, b)
    ensures Base(Step(s, i, false))
  {
    assert CallOk(s.sh, i, s.pc[i]);
    NilOthers(s, i, t, b);
    NilShared(s.sh, t, b);
    var sh := s.sh.(slots := s.sh.slots[Slot(t) := None]);
    assert s.sh.hist[t] == b;
    SharedKeeps(s, i, RLoad(b), sh);
  }

  lemma RaiseKeeps(s: State, i: Id, b: Id, cur: nat)
    requires Base(s) && CanRun(s, i, false) && s.pc[i] == RCas(b, cur)
    ensures Base(Step(s, i, false))
  {
    assert CallOk(s.sh, i, s.pc[i]) && Agrees(s.sh, i, s.pc[i]);
    if s.sh.visible == cur {
      var v := End(s.sh, b);
      RaiseOthers(s, i, b, v);
      RaiseShared(s.sh, b);
      SharedKeeps(s, i, RDone(b), s.sh.(visible := v));
    } else {
      MoveKeeps(s, i, RLoad(b));
    }
  }

  lemma DoneKeeps(s: State, i: Id, b: Id)
    requires Base(s) && CanRun(s, i, false) && s.pc[i] == RDone(b)
    ensures Base(Step(s, i, false))
  {
    assert CallOk(s.sh, i, s.pc[i]);
    DoneOthers(s, i, b);
    DoneShared(s.sh, b);
    SharedKeeps(s, i, DqLoad, s.sh.(published := s.sh.published + {b}));
  }

  lemma StepKeeps(s: State, i: Id, stale: bool)
    requires Base(s) && OneClears(s.pc) && CanRun(s, i, stale)
    ensures Base(Step(s, i, stale))
  {
    match s.pc[i]
    case AtSem => SemKeeps(s, i);
    case AtLock => LockKeeps(s, i);
    case EnqStore(h) => StoreKeeps(s, i, h);
    case EnqBump(h) => BumpKeeps(s, i, h);
    case AtSeq => NumberKeeps(s, i);
    case AtWrite => WriteKeeps(s, i);
    case AtFlag => FlagKeeps(s, i);
    case DqCas(h, t, b) => DequeueKeeps(s, i, h, t, b);
    case DqNil(t, b) => ClearKeeps(s, i, t, b);
    case RCas(b, cur) => RaiseKeeps(s, i, b, cur);
    case RDone(b) => DoneKeeps(s, i, b);
    case AtWait => WaitKeeps(s, i);
    case DqLoad => DequeueLoads(s, i);
    case DqSlot(h, t) => DequeueReadsSlot(s, i, h, t);
    case DqFlag(h, t, b) => DequeueReadsFlag(s, i, stale, h, t, b);
    case RLoad(b) => PublishReads(s, i, b);
    case EnqLoad => EnqueueLoads(s, i);
    case EnqSlot(h) => EnqueueReadsSlot(s, i, h);
    case AtApply => ApplyKeeps(s, i);
  }

  lemma StartKeeps(s: State, i: Id, n: nat, sync: bool)
    requires Base(s) && i !in s.pc
    ensures Base(Moved(s, i, AtSem, Started(s.sh, i, n, sync)))
  {
    StartOthers(s, i, n, sync);
    StartShared(s.sh, i, n, sync);
    SharedKeeps(s, i, AtSem, Started(s.sh, i, n, sync));
  }

  lemma SyncKeeps(s: State, i: Id)
    requires Base(s)
    ensures Base(s.(sh := s.sh.(synced := s.sh.synced + {i})))
  {
    var sh := s.sh.(synced := s.sh.synced + {i});
    BookShared(s.sh, sh);
    forall j | j in s.pc
      ensures Agrees(sh, j, s.pc[j]) && CallOk(sh, j, s.pc[j])
    {
      assert Agrees(s.sh, j, s.pc[j]);
      CallAfterDone(s.sh, j, s.pc[j], i);
    }
  }

  /** Whoever takes batch b off the queue is the first to clear its slot. */
  lemma TakenOnce(s: State, i: Id, h: nat, t: nat, b: Id, j: Id)
    requires Base(s) && i in s.pc && s.pc[i] == DqCas(h, t, b) && t == s.sh.tail && j in s.pc && s.pc[j].DqNil?
    ensures s.pc[j].b != b
  {
    assert CallOk(s.sh, i, s.pc[i]) && CallOk(s.sh, j, s.pc[j]);
  }

  /** Only a successful swap brings a call to clearing a slot. */
  lemma ClearsAfterTake(s: State, i: Id, stale: bool)
    requires CanRun(s, i, stale) && Step(s, i, stale).pc[i].DqNil?
    ensures s.pc[i].DqCas? && Step(s, i, stale).pc[i].b == s.pc[i].b && CanRun(s, i, false) && Step(s, i, stale) == Step(s, i, false)
  {
  }

  lemma OneStillClears(s: State, i: Id, stale: bool)
    requires Base(s) && OneClears(s.pc) && CanRun(s, i, stale)
    ensures OneClears(Step(s, i, stale).pc)
  {
    var pc' := Step(s, i, stale).pc[i];
    if pc'.DqNil? {
      ClearsAfterTake(s, i, stale);
      TakeIsFront(s, i);
      forall j | j in s.pc && j != i && s.pc[j].DqNil?
        ensures s.pc[j].b != pc'.b
      {
        TakenOnce(s, i, s.pc[i].h, s.pc[i].t, s.pc[i].b, j);
      }
    }
    MovedClears(s.pc, i, pc');
  }

  lemma MovedClears(pc: map<Id, Pc>, i: Id, pc': Pc)
    requires OneClears(pc)
    requires pc'.DqNil? ==> forall j :: j in pc && j != i && pc[j].DqNil? ==> pc[j].b != pc'.b
    ensures OneClears(pc[i := pc'])
  {
  }

  /** A successful swap of the word takes the batch at the front, applied, as the call saw it. */
  lemma TakeIsFront(s: State, i: Id)
    requires Base(s) && CanRun(s, i, false) && s.pc[i].DqCas? && Step(s, i, false).pc[i].DqNil?
    ensures s.pc[i].t == s.sh.tail < |s.sh.hist| && s.sh.hist[s.sh.tail] == s.pc[i].b && s.pc[i].b in s.sh.applied
  {
    assert CallOk(s.sh, i, s.pc[i]);
    WordIsExact(s.sh, s.pc[i].h, s.pc[i].t);
  }

  // ----- No lost publish -----

  /** The call is in the publish loop and has not missed the batch now at the front. */
  predicate Watching(tail: nat, pc: Pc) {
    match pc
    case DqLoad => true
    case DqSlot(_, t) => t == tail
    case DqFlag(_, t, _) => t == tail
    case DqCas(_, t, _) => t == tail
    case DqNil(_, _) => true
    case RLoad(_) => true
    case RCas(_, _) => true
    case RDone(_) => true
    case _ => false
  }

  /** The call has taken batch b off the queue and not yet released its waiter. */
  predicate Finishing(pc: Pc, b: Id) {
    match pc
    case DqNil(_, c) => c == b
    case RLoad(c) => c == b
    case RCas(c, _) => c == b
    case RDone(c) => c == b
    case _ => false
  }

  ghost predicate Watched(pc: map<Id, Pc>, tail: nat) {
    exists i :: i in pc && Watching(tail, pc[i])
  }

  ghost predicate Finished(pc: map<Id, Pc>, b: Id) {
    exists i :: i in pc && Finishing(pc[i], b)
  }

  /** An applied batch at the front of the queue has a call in the publish loop that will see it. */
  ghost predicate FrontWatched(pc: map<Id, Pc>, hist: seq<Id>, tail: nat, applied: set<Id>) {
    tail < |hist| && hist[tail] in applied ==> Watched(pc, tail)
  }

  /** A dequeued batch is published, or the call that took it is on its way to do so. */
  ghost predicate NoneDropped(pc: map<Id, Pc>, hist: seq<Id>, tail: nat, published: set<Id>) {
    forall k :: 0 <= k < tail && k < |hist| ==> hist[k] in published || Finished(pc, hist[k])
  }

  predicate Numbering(pc: Pc) { pc.AtSeq? || pc.AtWrite? }

  /** The batch that is in the queue but not yet in the log: the one of the call that holds the lock. */
  function Unlogged(pc: map<Id, Pc>, mutex: Option<Id>): seq<Id> {
    if mutex.Some? && mutex.value in pc && Numbering(pc[mutex.value]) then [mutex.value] else []
  }

  /** Where a call stands decides where its batch has been stored; the log follows the queue. */
  ghost predicate Traced(pc: map<Id, Pc>, mutex: Option<Id>, hist: seq<Id>, store: Store, synced: set<Id>) {
    && (forall i :: i in pc ==> (i in store.wal <==> Logged(pc[i])) && (i in store.mem <==> Inserted(pc[i])))
    && (forall i :: i in store.wal || i in store.mem ==> i in pc)
    && (forall i :: i in synced ==> i in store.wal)
    && hist == store.wal + Unlogged(pc, mutex)
  }

  ghost predicate Inv(s: State) {
    && Base(s) && OneClears(s.pc) && Traced(s.pc, s.sh.mutex, s.sh.hist, s.sh.store, s.sh.synced)
    && FrontWatched(s.pc, s.sh.hist, s.sh.tail, s.sh.applied)
    && NoneDropped(s.pc, s.sh.hist, s.sh.tail, s.sh.published)
  }

  lemma MoveTraces(pc: map<Id, Pc>, mutex: Option<Id>, hist: seq<Id>, store: Store, synced: set<Id>, i: Id, pc': Pc)
    requires Traced(pc, mutex, hist, store, synced) && i in pc && Logged(pc') == Logged(pc[i]) && Inserted(pc') == Inserted(pc[i])
    requires mutex == Some(i) ==> Numbering(pc') == Numbering(pc[i])
    ensures Traced(pc[i := pc'], mutex, hist, store, synced)
  {
  }

  lemma LockTraces(pc: map<Id, Pc>, hist: seq<Id>, store: Store, synced: set<Id>, i: Id)
    requires Traced(pc, None, hist, store, synced) && i in pc && pc[i] == AtLock
    ensures Traced(pc[i := EnqLoad], Some(i), hist, store, synced)
  {
  }

  lemma BumpTraces(pc: map<Id, Pc>, hist: seq<Id>, store: Store, synced: set<Id>, i: Id)
    requires Traced(pc, Some(i), hist, store, synced) && i in pc && pc[i].EnqBump?
    ensures Traced(pc[i := AtSeq], Some(i), hist + [i], store, synced)
  {
  }

  lemma WriteTraces(pc: map<Id, Pc>, hist: seq<Id>, store: Store, synced: set<Id>, i: Id)
    requires Traced(pc, Some(i), hist, store, synced) && i in pc && pc[i] == AtWrite
    ensures Traced(pc[i := AtApply], None, hist, store.(wal := store.wal + [i]), synced)
  {
  }

  lemma InsertTraces(pc: map<Id, Pc>, mutex: Option<Id>, hist: seq<Id>, store: Store, synced: set<Id>, i: Id)
    requires Traced(pc, mutex, hist, store, synced) && i in pc && pc[i] == AtApply && mutex != Some(i)
    ensures Traced(pc[i := AtFlag], mutex, hist, store.(mem := store.mem + {i}), synced)
  {
  }

  /** The other steps neither store a batch nor pass the lock on. */
  lemma StepStores(s: State, i: Id, stale: bool)
    requires CanRun(s, i, stale) && !(s.pc[i].AtLock? || s.pc[i].EnqBump? || s.pc[i].AtWrite? || s.pc[i].AtApply?)
    ensures var sh := Step(s, i, stale).sh;
      sh.mutex == s.sh.mutex && sh.hist == s.sh.hist && sh.store == s.sh.store && sh.synced == s.sh.synced
    ensures var pc := Step(s, i, stale).pc[i];
      Logged(pc) == Logged(s.pc[i]) && Inserted(pc) == Inserted(s.pc[i]) && Numbering(pc) == Numbering(s.pc[i])
  {
  }

  lemma StepTraces(s: State, i: Id, stale: bool)
    requires Agreed(s) && CanRun(s, i, stale) && Traced(s.pc, s.sh.mutex, s.sh.hist, s.sh.store, s.sh.synced)
    ensures var r := Step(s, i, stale); Traced(r.pc, r.sh.mutex, r.sh.hist, r.sh.store, r.sh.synced)
  {
    hide Traced;
    assert Agrees(s.sh, i, s.pc[i]);
    match s.pc[i]
    case AtLock => LockTraces(s.pc, s.sh.hist, s.sh.store, s.sh.synced, i);
    case EnqBump(_) => BumpTraces(s.pc, s.sh.hist, s.sh.store, s.sh.synced, i);
    case AtWrite => WriteTraces(s.pc, s.sh.hist, s.sh.store, s.sh.synced, i);
    case AtApply => InsertTraces(s.pc, s.sh.mutex, s.sh.hist, s.sh.store, s.sh.synced, i);
    case _ =>
      StepStores(s, i, stale);
      MoveTraces(s.pc, s.sh.mutex, s.sh.hist, s.sh.store, s.sh.synced, i, Step(s, i, stale).pc[i]);
  }

  lemma StartTraces(s: State, i: Id)
    requires Agreed(s) && i !in s.pc && Traced(s.pc, s.sh.mutex, s.sh.hist, s.sh.store, s.sh.synced)
    ensures Traced(s.pc[i := AtSem], s.sh.mutex, s.sh.hist, s.sh.store, s.sh.synced)
  {
  }

  lemma WatchMoves(pc: map<Id, Pc>, tail: nat, i: Id, pc': Pc)
    requires Watched(pc, tail) && (i in pc && Watching(tail, pc[i]) ==> Watching(tail, pc'))
    ensures Watched(pc[i := pc'], tail)
  {
    var w :| w in pc && Watching(tail, pc[w]);
    var moved := pc[i := pc'];
    assert w in moved && Watching(tail, moved[w]);
  }

  lemma WatchStarts(pc: map<Id, Pc>, tail: nat, i: Id, pc': Pc)
    requires Watching(tail, pc')
    ensures Watched(pc[i := pc'], tail)
  {
    var moved := pc[i := pc'];
    assert i in moved && Watching(tail, moved[i]);
  }

  /** A call that has seen the front batch, applied, does not leave the loop without taking it. */
  lemma WatcherStays(s: State, i: Id, stale: bool)
    requires Base(s) && CanRun(s, i, stale) && s.sh.tail < |s.sh.hist| && s.sh.hist[s.sh.tail] in s.sh.applied
    requires Watching(s.sh.tail, s.pc[i])
    ensures Watching(Step(s, i, stale).sh.tail, Step(s, i, stale).pc[i])
  {
    match s.pc[i]
    case DqLoad => WatcherLoads(s, i);
    case DqSlot(h, t) => WatcherReadsSlot(s, i, h, t);
    case DqFlag(h, t, b) => WatcherReadsFlag(s, i, stale, h, t, b);
    case _ => PublisherWatches(s, i, stale);
  }

  lemma WatcherLoads(s: State, i: Id)
    requires Base(s) && CanRun(s, i, false) && s.sh.tail < |s.sh.hist| && s.pc[i] == DqLoad
    ensures Step(s, i, false).pc[i] == DqSlot(|s.sh.hist|, s.sh.tail) && Step(s, i, false).sh == s.sh
  {
    WordsTell(s);
  }

  lemma WatcherReadsSlot(s: State, i: Id, h: nat, t: nat)
    requires Base(s) && CanRun(s, i, false) && s.sh.tail < |s.sh.hist| && s.pc[i] == DqSlot(h, t) && t == s.sh.tail
    ensures Step(s, i, false).pc[i] == DqFlag(h, t, s.sh.hist[t]) && Step(s, i, false).sh == s.sh
  {
    assert CallOk(s.sh, i, s.pc[i]);
  }

  /** From the swap on, the call comes back to the loop whatever happens. */
  lemma PublisherWatches(s: State, i: Id, stale: bool)
    requires CanRun(s, i, stale) && (s.pc[i].DqCas? || s.pc[i].DqNil? || s.pc[i].RLoad? || s.pc[i].RCas? || s.pc[i].RDone?)
    ensures Watching(Step(s, i, stale).sh.tail, Step(s, i, stale).pc[i])
  {
  }

  lemma WatcherReadsFlag(s: State, i: Id, stale: bool, h: nat, t: nat, b: Id)
    requires Base(s) && CanRun(s, i, stale) && s.sh.tail < |s.sh.hist| && s.sh.hist[s.sh.tail] in s.sh.applied
    requires s.pc[i] == DqFlag(h, t, b) && t == s.sh.tail
    ensures Step(s, i, stale).pc[i] == DqCas(h, t, b)
  {
    assert CallOk(s.sh, i, s.pc[i]);
    if stale {
      FrontNotReturned(s, b);
    }
  }

  /** The batch at the front is not that of a call that has returned. */
  lemma FrontNotReturned(s: State, b: Id)
    requires Base(s) && s.sh.tail < |s.sh.hist| && b == s.sh.hist[s.sh.tail] && b in s.pc
    ensures !s.pc[b].Returned?
  {
    assert CallOk(s.sh, b, s.pc[b]);
    assert b in s.sh.published ==> PublishedOk(s.sh, b);
  }

  /** Steps other than these leave the front of the queue as it was. */
  lemma FrontStays(s: State, i: Id, stale: bool)
    requires Base(s) && CanRun(s, i, stale) && !Watching(s.sh.tail, Step(s, i, stale).pc[i])
    ensures var s' := Step(s, i, stale);
      && s'.sh.tail == s.sh.tail
      && (s'.sh.tail < |s'.sh.hist| && s'.sh.hist[s.sh.tail] in s'.sh.applied
          ==> s.sh.tail < |s.sh.hist| && s.sh.hist[s.sh.tail] in s.sh.applied)
  {
    hide CallOk, SharedOk;
    if s.pc[i].EnqBump? {
      assert Agrees(s.sh, i, s.pc[i]);
    }
  }

  lemma StepWatched(s: State, i: Id, stale: bool)
    requires Inv(s) && CanRun(s, i, stale)
    ensures var s' := Step(s, i, stale); FrontWatched(s'.pc, s'.sh.hist, s'.sh.tail, s'.sh.applied)
  {
    var s' := Step(s, i, stale);
    if Watching(s'.sh.tail, s'.pc[i]) {
      WatchStarts(s.pc, s'.sh.tail, i, s'.pc[i]);
    } else {
      FrontStays(s, i, stale);
      if s.sh.tail < |s.sh.hist| && s.sh.hist[s.sh.tail] in s.sh.applied {
        if Watching(s.sh.tail, s.pc[i]) {
          WatcherStays(s, i, stale);
          assert false;
        }
        WatchMoves(s.pc, s.sh.tail, i, s'.pc[i]);
      }
    }
  }

  lemma FinishMoves(pc: map<Id, Pc>, b: Id, i: Id, pc': Pc)
    requires Finished(pc, b) && (i in pc && Finishing(pc[i], b) ==> Finishing(pc', b))
    ensures Finished(pc[i := pc'], b)
  {
    var f :| f in pc && Finishing(pc[f], b);
    var moved := pc[i := pc'];
    assert f in moved && Finishing(moved[f], b);
  }

  /** Where a finishing call goes next. */
  lemma FinisherStays(s: State, i: Id, stale: bool, b: Id)
    requires CanRun(s, i, stale) && Finishing(s.pc[i], b)
    ensures var s' := Step(s, i, stale); Finishing(s'.pc[i], b) || b in s'.sh.published
  {
  }

  lemma TakesFinish(s: State, i: Id, stale: bool, k: nat)
    requires Base(s) && CanRun(s, i, stale)
    ensures var s' := Step(s, i, stale);
      && s.sh.published <= s'.sh.published
      && (k < s'.sh.tail && k < |s'.sh.hist| ==>
            (k < s.sh.tail && s'.sh.hist[k] == s.sh.hist[k]) || Finishing(s'.pc[i], s'.sh.hist[k]))
  {
    hide CallOk, SharedOk;
    if s.pc[i].DqCas? && Step(s, i, stale).pc[i].DqNil? {
      TakeIsFront(s, i);
    }
  }

  lemma FinishStarts(pc: map<Id, Pc>, b: Id, i: Id, pc': Pc)
    requires Finishing(pc', b)
    ensures Finished(pc[i := pc'], b)
  {
    var moved := pc[i := pc'];
    assert i in moved && Finishing(moved[i], b);
  }

  lemma StepDropsNone(s: State, i: Id, stale: bool)
    requires Inv(s) && CanRun(s, i, stale)
    ensures var s' := Step(s, i, stale); NoneDropped(s'.pc, s'.sh.hist, s'.sh.tail, s'.sh.published)
  {
    var s' := Step(s, i, stale);
    forall k | 0 <= k < s'.sh.tail && k < |s'.sh.hist|
      ensures s'.sh.hist[k] in s'.sh.published || Finished(s'.pc, s'.sh.hist[k])
    {
      var b := s'.sh.hist[k];
      TakesFinish(s, i, stale, k);
      if Finishing(s'.pc[i], b) {
        FinishStarts(s.pc, b, i, s'.pc[i]);
      } else if Finishing(s.pc[i], b) {
        FinisherStays(s, i, stale, b);
      } else if b !in s.sh.published {
        FinishMoves(s.pc, b, i, s'.pc[i]);
      }
    }
  }

  lemma EventKeeps(s: State, e: Event)
    requires Inv(s) && Enabled(s, e)
    ensures Inv(Apply(s, e))
  {
    match e
    case Run(i, stale) =>
      StepKeeps(s, i, stale);
      StepTraces(s, i, stale);
      OneStillClears(s, i, stale);
      StepWatched(s, i, stale);
      StepDropsNone(s, i, stale);
    case WalSync(i) => SyncKeeps(s, i);
    case Start(i, n, sync) =>
      StartKeeps(s, i, n, sync);
      StartTraces(s, i);
      StartWatches(s, i);
  }

  lemma StartWatches(s: State, i: Id)
    requires i !in s.pc && OneClears(s.pc) && Sized(s.sh)
    requires FrontWatched(s.pc, s.sh.hist, s.sh.tail, s.sh.applied) && NoneDropped(s.pc, s.sh.hist, s.sh.tail, s.sh.published)
    ensures var pc := s.pc[i := AtSem];
      && OneClears(pc) && FrontWatched(pc, s.sh.hist, s.sh.tail, s.sh.applied)
      && NoneDropped(pc, s.sh.hist, s.sh.tail, s.sh.published)
  {
    MovedClears(s.pc, i, AtSem);
    if Watched(s.pc, s.sh.tail) {
      WatchMoves(s.pc, s.sh.tail, i, AtSem);
    }
    forall k | 0 <= k < s.sh.tail && k < |s.sh.hist| && s.sh.hist[k] !in s.sh.published
      ensures Finished(s.pc[i := AtSem], s.sh.hist[k])
    {
      FinishMoves(s.pc, s.sh.hist[k], i, AtSem);
    }
  }

  // ----- Whole runs -----

  function Init(first: nat): State {
    State(map[], Shared(map[], {}, {}, None, [], [first], 0, seq(SLOTS, k => None), first, first, map[], {}, {}, {}, Store([], {})))
  }

  /** A run: every event was possible when it happened. */
  predicate Possible(s: State, events: seq<Event>)
    decreases |events|
  {
    events == [] || (Enabled(s, events[0]) && Possible(Apply(s, events[0]), events[1..]))
  }

  function After(s: State, events: seq<Event>): State
    requires Possible(s, events)
    decreases |events|
  {
    if events == [] then s else After(Apply(s, events[0]), events[1..])
  }

  lemma {:induction false} RunKeeps(s: State, events: seq<Event>)
    requires Inv(s) && Possible(s, events)
    ensures Inv(After(s, events))
    decreases |events|
  {
    if events != [] {
      EventKeeps(s, events[0]);
      RunKeeps(Apply(s, events[0]), events[1..]);
    }
  }

  lemma InitHolds(first: nat)
    ensures Inv(Init(first))
  {
  }

  ghost predicate Reachable(s: State) {
    exists first: nat, events: seq<Event> :: Possible(Init(first), events) && s == After(Init(first), events)
  }

  lemma ReachableHolds(s: State)
    requires Reachable(s)
    ensures Inv(s)
  {
    var first: nat, events: seq<Event> :| Possible(Init(first), events) && s == After(Init(first), events);
    InitHolds(first);
    RunKeeps(Init(first), events);
  }

  // ----- What the pipeline promises -----

  /** A call that has returned is visible to readers, and durable when it asked for that. */
  lemma ReturnedIsVisible(s: State, i: Id)
    requires Reachable(s) && i in s.pc && s.pc[i] == Returned
    ensures i in s.sh.seqNum && i in s.sh.count && End(s.sh, i) <= s.sh.visible
    ensures i in s.sh.applied && (i in s.sh.syncWal ==> i in s.sh.synced)
    ensures i in s.sh.store.mem && i in s.sh.store.wal
  {
    ReachableHolds(s);
    assert CallOk(s.sh, i, s.pc[i]) && Agrees(s.sh, i, s.pc[i]) && PublishedOk(s.sh, i);
  }

  /** A batch is flagged, and so published, only when it is in the log and in the memtable; synced only when in the log. */
  lemma FlaggedIsStored(s: State, i: Id)
    requires Reachable(s)
    ensures i in s.sh.applied || i in s.sh.published ==> i in s.sh.store.mem
    ensures i in s.sh.store.mem || i in s.sh.synced ==> i in s.sh.store.wal
    ensures i in s.sh.store.wal ==> i in s.sh.seqNum
  {
    ReachableHolds(s);
    assert i in s.pc ==> Agrees(s.sh, i, s.pc[i]);
    if i in s.sh.published {
      assert PublishedOk(s.sh, i);
    }
  }

  /** The log has the batches in the order of their sequence numbers. */
  lemma LogInOrder(s: State, k: nat, l: nat)
    requires Reachable(s) && k < l < |s.sh.store.wal|
    ensures var a, b := s.sh.store.wal[k], s.sh.store.wal[l];
      a in s.sh.seqNum && a in s.sh.count && b in s.sh.seqNum && End(s.sh, a) <= s.sh.seqNum[b]
  {
    ReachableHolds(s);
    var a, b := s.sh.store.wal[k], s.sh.store.wal[l];
    assert s.sh.hist[k] == a && s.sh.hist[l] == b;
    assert Agrees(s.sh, a, s.pc[a]) && Agrees(s.sh, b, s.pc[b]);
    EndsGrow(s.sh, k + 1, l);
  }

  /** Readers never see part of a batch that is not in the memtable or not flagged. */
  lemma VisibleStopsShort(s: State, i: Id)
    requires Reachable(s) && i in s.sh.seqNum && (i !in s.sh.store.mem || i !in s.sh.applied)
    ensures s.sh.visible <= s.sh.seqNum[i]
  {
    ReachableHolds(s);
    assert Agrees(s.sh, i, s.pc[i]);
    var k :| 0 <= k < |s.sh.hist| && s.sh.hist[k] == i;
    EndsGrow(s.sh, s.sh.tail, k);
  }

  lemma VisibleOnlyGrows(s: State, e: Event)
    requires Reachable(s) && Enabled(s, e)
    ensures s.sh.visible <= Apply(s, e).sh.visible
  {
    hide Reachable, SharedOk, Agreed;
    BaseHolds(s);
    if e.Run? {
      assert CallOk(s.sh, e.i, s.pc[e.i]);
      VisibleSteps(s, e.i, e.stale);
    }
  }

  lemma BaseHolds(s: State)
    requires Reachable(s)
    ensures Base(s)
  {
    ReachableHolds(s);
  }

  lemma VisibleSteps(s: State, i: Id, stale: bool)
    requires CanRun(s, i, stale) && (s.pc[i].RCas? ==> s.pc[i].cur < End(s.sh, s.pc[i].b))
    ensures s.sh.visible <= Step(s, i, stale).sh.visible
  {
  }

  /** The sequence numbers of two batches do not overlap. */
  lemma NumbersDisjoint(s: State, i: Id, j: Id)
    requires Reachable(s) && i != j && i in s.sh.seqNum && j in s.sh.seqNum
    ensures i in s.sh.count && j in s.sh.count
    ensures End(s.sh, i) <= s.sh.seqNum[j] || End(s.sh, j) <= s.sh.seqNum[i]
  {
    hide Sized, Names, Step, Traced, CallOk, Calls;
    ReachableHolds(s);
    assert Agrees(s.sh, i, s.pc[i]) && Agrees(s.sh, j, s.pc[j]);
    var k :| 0 <= k < |s.sh.hist| && s.sh.hist[k] == i;
    var l :| 0 <= l < |s.sh.hist| && s.sh.hist[l] == j;
    if k < l {
      EndsGrow(s.sh, k + 1, l);
    } else {
      EndsGrow(s.sh, l + 1, k);
    }
  }

  lemma NeverPanics(s: State, i: Id)
    requires Reachable(s) && i in s.pc
    ensures !s.pc[i].Panicked?
  {
    ReachableHolds(s);
    assert CallOk(s.sh, i, s.pc[i]);
  }

  /** The call is between taking its place in the queue and waiting; it never blocks there. */
  predicate Busy(pc: Pc) {
    Enqueued(pc) && !pc.AtWait? && !pc.Returned?
  }

  /**
    No waiter is stranded: as long as a waiting batch is unpublished, some call is still working
    towards it, and none of its operations can block.
   */
  lemma NoneStranded(s: State, i: Id) returns (j: Id)
    requires Reachable(s) && i in s.pc && s.pc[i] == AtWait && i !in s.sh.published
    ensures j in s.pc && Busy(s.pc[j]) && (CanRun(s, j, false) || s.pc[j].DqCas?)
    ensures Finishing(s.pc[j], i) || Watching(s.sh.tail, s.pc[j]) || (s.sh.tail < |s.sh.hist| && j == s.sh.hist[s.sh.tail])
  {
    ReachableHolds(s);
    j := Worker(s, i);
    BusyRuns(s, j);
  }

  /** Who is working towards a batch whose call waits. */
  lemma Worker(s: State, i: Id) returns (j: Id)
    requires Sized(s.sh) && Agreed(s) && i in s.pc && s.pc[i] == AtWait && i !in s.sh.published
    requires FrontWatched(s.pc, s.sh.hist, s.sh.tail, s.sh.applied) && NoneDropped(s.pc, s.sh.hist, s.sh.tail, s.sh.published)
    ensures j in s.pc && Busy(s.pc[j])
    ensures Finishing(s.pc[j], i) || Watching(s.sh.tail, s.pc[j]) || (s.sh.tail < |s.sh.hist| && j == s.sh.hist[s.sh.tail])
  {
    assert Agrees(s.sh, i, s.pc[i]);
    var k :| 0 <= k < |s.sh.hist| && s.sh.hist[k] == i;
    if k < s.sh.tail {
      j :| j in s.pc && Finishing(s.pc[j], i);
    } else if s.sh.hist[s.sh.tail] in s.sh.applied {
      j :| j in s.pc && Watching(s.sh.tail, s.pc[j]);
    } else {
      j := s.sh.hist[s.sh.tail];
      assert j in s.sh.hist && Agrees(s.sh, j, s.pc[j]);
    }
  }

  /** Between the queue and the wait, nothing blocks. */
  lemma BusyRuns(s: State, j: Id)
    requires Sized(s.sh) && Agreed(s) && Calls(s) && j in s.pc
    ensures j in s.sh.count && (Busy(s.pc[j]) ==> CanRun(s, j, false) || s.pc[j].DqCas?)
  {
    assert Agrees(s.sh, j, s.pc[j]) && CallOk(s.sh, j, s.pc[j]);
  }

  predicate Quiet(pc: map<Id, Pc>) {
    forall i :: i in pc ==> pc[i] == AtSem || pc[i] == AtWait || pc[i] == Returned
  }

  /** When no call is working, everything numbered has been published. */
  lemma QuietMeansPublished(s: State)
    requires Reachable(s) && Quiet(s.pc)
    ensures s.sh.visible == s.sh.log && (forall i :: i in s.sh.seqNum ==> i in s.sh.published)
  {
    ReachableHolds(s);
    QuietIsEmpty(s);
    forall i | i in s.sh.seqNum
      ensures i in s.sh.published
    {
      assert Agrees(s.sh, i, s.pc[i]);
      QuietPublishes(s, i);
    }
    QuietIsLevel(s);
  }

  lemma QuietPublishes(s: State, b: Id)
    requires Sized(s.sh) && NoneDropped(s.pc, s.sh.hist, s.sh.tail, s.sh.published) && Quiet(s.pc)
    requires s.sh.tail == |s.sh.hist| && b in s.sh.hist
    ensures b in s.sh.published
  {
    var k :| 0 <= k < |s.sh.hist| && s.sh.hist[k] == b;
    assert s.sh.hist[k] in s.sh.published || Finished(s.pc, s.sh.hist[k]);
  }

  lemma QuietIsLevel(s: State)
    requires Inv(s) && Quiet(s.pc) && s.sh.tail == |s.sh.hist|
    ensures s.sh.visible == s.sh.log
  {
    if |s.sh.hist| > 0 {
      var l := s.sh.hist[|s.sh.hist| - 1];
      assert l in s.sh.hist && Agrees(s.sh, l, s.pc[l]);
      QuietPublishes(s, l);
      assert PublishedOk(s.sh, l);
    }
  }

  lemma QuietIsEmpty(s: State)
    requires Inv(s) && Quiet(s.pc)
    ensures s.sh.tail == |s.sh.hist|
  {
    if s.sh.tail < |s.sh.hist| {
      QuietFlags(s, s.sh.hist[s.sh.tail]);
      QuietUnwatched(s.pc, s.sh.tail);
      assert false;
    }
  }

  lemma QuietFlags(s: State, b: Id)
    requires Agreed(s) && Quiet(s.pc) && b in s.sh.hist
    ensures b in s.sh.applied
  {
    assert Agrees(s.sh, b, s.pc[b]);
  }

  lemma QuietUnwatched(pc: map<Id, Pc>, tail: nat)
    requires Quiet(pc)
    ensures !Watched(pc, tail)
  {
  }
}
