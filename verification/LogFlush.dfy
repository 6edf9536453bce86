/**
  How the log reaches the disk (internal/record/log_writer.go): the writer fills blocks and queues
  waiters without the flusher's lock, while the flush loop writes, syncs and releases them. Every
  interleaving of their steps is covered, with writes and syncs that may fail.
 */
module LogFlush {
  import opened Common
  import opened LogFormat

  datatype BlockId = BlockId(n: nat)

  /** bytes[..written] is announced to the flush loop; padding goes behind it. */
  datatype Blk = Blk(bytes: Bytes, written: nat, flushed: nat)

  /** A slice of a block's buffer, read when it is written out. */
  datatype Ref = Ref(id: BlockId, from: nat, to: nat)

  datatype WriterPc = Idle | Bumping(w: nat) | Signalling | Closed | Panicked

  /**
    The next step of the flush loop. Up to Data it holds the lock, except while it waits. h and t are the
    two halves of the queue's word as it was loaded.
   */
  datatype FlushPc =
    | Look
    | Decide(seen: nat)
    | Closing
    | Register                                                       // ready.Wait: join the waiters
    | Unlocking
    | Recheck
    | Asleep
    | Grab
    | Load(pend: seq<BlockId>)
    | Data(pend: seq<BlockId>, h: nat, t: nat)
    | PopErr(h: nat, t: nat)
    | Blocks(pend: seq<BlockId>, d: Ref, h: nat, t: nat)             // flushPending, without the lock
    | Tail(d: Ref, h: nat, t: nat)
    | Sync(h: nat, t: nat)
    | Pop(h: nat, t: nat, good: bool)
    | Finish(bad: bool, sync: bool)
    | Arming                                                         // after setBlocked: start the sync timer
    | Exited

  predicate Holds(pc: FlushPc) {
    pc.Look? || pc.Decide? || pc.Closing? || pc.Register? || pc.Unlocking? || pc.Grab? || pc.Load? || pc.Data? || pc.PopErr? || pc.Arming?
  }

  /**
    The packed word and the ring of slots. order lists every waiter pushed, and marks[k] is how much had
    been emitted before the k-th push. served lists the waiters released, tail of them, and results
    whether each got no error.
   */
  datatype SyncQueue = SyncQueue(
    slots: seq<Option<nat>>, word: nat, order: seq<nat>, marks: seq<nat>, tail: nat, served: seq<nat>, results: seq<bool>)

  /**
    What has been written. settled is how much that was at the last sync, or when a writer that cannot
    sync came to that point; synced is how much a sync has put on disk.
   */
  datatype Disk = Disk(file: Bytes, settled: nat, synced: nat, syncer: bool)

  /** timers counts the callbacks of the sync timer that have yet to signal; waiting: the loop is to sleep. */
  datatype Control = Control(blocked: bool, armed: bool, timers: nat, waiting: bool, bad: bool, close: bool)

  /** stream lists every byte emitted. */
  datatype State = State(
    blocks: map<BlockId, Blk>, cur: BlockId, pending: seq<BlockId>, free: set<BlockId>,
    stream: Bytes, disk: Disk, q: SyncQueue, ctl: Control, writer: WriterPc, flush: FlushPc)

  datatype Event =
    | Emit(data: Bytes)                     // announce more bytes of the current block
    | Queue(next: BlockId, pad: Bytes)      // queueBlock
    | Push(w: nat)                          // syncQueue.push: check and fill the slot
    | Bump                                  // syncQueue.push: publish it
    | Signal                                // ready.Signal after a push
    | Close                                 // Close after its trailer has been emitted
    | TimerClear                            // the sync timer fires and lets syncing go on
    | TimerSignal                           // and wakes the flush loop
    | Flush(ok: bool, part: Bytes, block: bool) // the flush loop: did the I/O work, what a failed write left

  function Slot(k: nat): (r: nat)
    ensures r < SLOTS
  {
    k % SLOTS
  }

  // ----- The packed word -----

  const LONG := 0x1_0000_0000_0000_0000

  /** unpack: the head in the upper half of the 64-bit word, the tail in the lower. */
  function High(word: nat): (r: nat)
    ensures r < WORD
  {
    word / WORD % WORD
  }

  function Low(word: nat): (r: nat)
    ensures r < WORD
  {
    word % WORD
  }

  /** push adds one to the upper half, pop adds one to the whole word. */
  function Pushed(word: nat): nat { (word + WORD) % LONG }

  function Bumped(word: nat): nat { (word + 1) % LONG }

  /** The word after so many pushes and pops. */
  function Packed(pushes: nat, pops: nat): nat { (pushes * WORD + pops) % LONG }

  predicate QueueEmpty(s: State) { s.ctl.blocked || High(s.q.word) == Low(s.q.word) }

  predicate Enabled(s: State, e: Event) {
    && s.cur in s.blocks && |s.q.slots| == SLOTS
    && match e
       case Emit(data) => s.writer.Idle? && |s.blocks[s.cur].bytes| + |data| <= BLOCK
       case Queue(next, pad) =>
         && s.writer.Idle? && !Holds(s.flush) && |s.blocks[s.cur].bytes| + |pad| == BLOCK
         && (next in s.free || next !in s.blocks)
       case Push(w) => s.writer.Idle?
       case Bump => s.writer.Bumping?
       case Signal => s.writer.Signalling?
       case Close => s.writer.Idle? && !Holds(s.flush)
       case TimerClear => s.ctl.armed
       case TimerSignal => s.ctl.timers > 0
       case Flush(_, _, _) => CanFlush(s)
  }

  predicate CanFlush(s: State) {
    match s.flush
    case Asleep => !s.ctl.waiting
    case Exited => false
    case Blocks(pend, d, _, _) => pend == [] || (pend[0] in s.blocks && s.blocks[pend[0]].flushed <= |s.blocks[pend[0]].bytes|)
    case Tail(d, _, _) => d.id in s.blocks && d.from <= d.to <= |s.blocks[d.id].bytes|
    case _ => true
  }

  function Apply(s: State, e: Event): State
    requires Enabled(s, e)
  {
    var b := s.blocks[s.cur];
    match e
    case Emit(data) =>
      s.(blocks := s.blocks[s.cur := Blk(b.bytes + data, |b.bytes + data|, b.flushed)], stream := s.stream + data)
    case Queue(next, pad) => QueueBlock(s, next, pad)
    case Push(w) =>
      if (Low(s.q.word) + SLOTS) % WORD == High(s.q.word) then s.(writer := Panicked)
      else s.(q := s.q.(slots := s.q.slots[Slot(High(s.q.word)) := Some(w)]), writer := Bumping(w))
    case Bump => Publish(s)
    case Signal => s.(ctl := s.ctl.(waiting := false), writer := Idle)
    case Close => s.(ctl := s.ctl.(close := true, waiting := false), writer := Closed)
    case TimerClear => s.(ctl := s.ctl.(blocked := false, armed := false, timers := s.ctl.timers + 1))
    case TimerSignal => s.(ctl := s.ctl.(waiting := false, timers := s.ctl.timers - 1))
    case Flush(ok, part, block) => FlushStep(s, ok, part, block)
  }

  /** The head is moved: the waiter counts as pushed. */
  function Publish(s: State): State
    requires s.writer.Bumping?
  {
    s.(q := s.q.(word := Pushed(s.q.word), order := s.q.order + [s.writer.w], marks := s.q.marks + [|s.stream|]), writer := Signalling)
  }

  function QueueBlock(s: State, next: BlockId, pad: Bytes): State
    requires s.cur in s.blocks
  {
    var b := s.blocks[s.cur];
    s.(blocks := s.blocks[s.cur := b.(bytes := b.bytes + pad)][next := Blk([], 0, 0)], cur := next,
       pending := s.pending + [s.cur], free := s.free - {next}, stream := s.stream + pad, ctl := s.ctl.(waiting := false))
  }

  /** The steps that write or follow a round of writing, and those that release waiters. */
  predicate Writes(pc: FlushPc) { pc.Blocks? || pc.Tail? || pc.Sync? || pc.Finish? }

  predicate Pops(pc: FlushPc) { pc.Pop? || pc.PopErr? }

  function FlushStep(s: State, ok: bool, part: Bytes, block: bool): (r: State)
    requires s.cur in s.blocks && |s.q.slots| == SLOTS && CanFlush(s)
    ensures r.stream == s.stream && r.q.marks == s.q.marks && s.q.tail <= r.q.tail <= s.q.tail + 1
  {
    if Pops(s.flush) then Popping(s) else if Writes(s.flush) then Flushing(s, ok, part, block) else Looping(s)
  }

  /** The loop itself, with the lock but for its wait. */
  function Looping(s: State): (r: State)
    requires s.cur in s.blocks && CanFlush(s) && !Pops(s.flush) && !Writes(s.flush)
    ensures r.stream == s.stream && r.q == s.q
  {
    var b := s.blocks[s.cur];
    match s.flush
    case Look => s.(flush := Decide(b.written))
    case Decide(seen) =>
      s.(flush := if s.pending != [] || seen > b.flushed || !QueueEmpty(s) then Grab else if s.ctl.close then Closing else Register)
    case Closing => s.(ctl := s.ctl.(blocked := false), flush := if High(s.q.word) == Low(s.q.word) then Exited else Grab)
    case Register => s.(ctl := s.ctl.(waiting := true), flush := Unlocking)
    case Unlocking => s.(flush := Recheck)
    case Recheck => s.(ctl := s.ctl.(waiting := s.ctl.waiting && QueueEmpty(s)), flush := Asleep)
    case Asleep => s.(flush := Look)
    case Grab => s.(pending := [], flush := Load(s.pending))
    case Load(pend) => s.(flush := if s.ctl.blocked then Data(pend, 0, 0) else Data(pend, High(s.q.word), Low(s.q.word)))
    case Data(_, _, _) => TakeData(s)
    case Arming => s.(ctl := s.ctl.(armed := true), flush := Look)
  }

  /** All that is written counts as safe now. */
  function Settle(d: Disk): Disk { d.(settled := |d.file|, synced := if d.syncer then |d.file| else d.synced) }

  /** flushPending and what follows it. */
  function Flushing(s: State, ok: bool, part: Bytes, block: bool): (r: State)
    requires CanFlush(s) && Writes(s.flush)
    ensures r.stream == s.stream && r.q == s.q
  {
    match s.flush
    case Blocks(pend, d, h, t) =>
      if pend == [] then s.(flush := Tail(d, h, t))
      else if ok then WriteBlock(s)
      else s.(disk := s.disk.(file := s.disk.file + part), flush := Failed(h, t))
    case Tail(d, h, t) =>
      if d.from == d.to then s.(flush := Sync(h, t))
      else if ok then WriteTail(s)
      else s.(disk := s.disk.(file := s.disk.file + part), flush := Failed(h, t))
    case Sync(h, t) =>
      if h == t then s.(flush := Finish(false, false))
      else if ok || !s.disk.syncer then s.(disk := Settle(s.disk), flush := Pop(h, t, true))
      else s.(flush := Pop(h, t, false))
    case Finish(bad, sync) =>
      s.(ctl := s.ctl.(bad := bad, blocked := if bad then false else s.ctl.blocked || (sync && block)), flush := if !bad && sync && block then Arming else Look)
  }

  /** syncQueue.pop: one turn of its loop. An empty slot ends it with an error. */
  function Popping(s: State): (r: State)
    requires |s.q.slots| == SLOTS && Pops(s.flush)
    ensures r.stream == s.stream && r.q.marks == s.q.marks && r.q.order == s.q.order && s.q.tail <= r.q.tail <= s.q.tail + 1
  {
    if s.flush.h == s.flush.t then s.(flush := Popped(s.flush, false))
    else if s.q.slots[Slot(s.flush.t)] == None then s.(flush := Popped(s.flush, true))
    else s.(q := Release(s.q, s.flush.t, s.flush.Pop? && s.flush.good), flush := Onward(s.flush))
  }

  /** What follows pop, which may have failed; after an earlier error nobody looks. */
  function Popped(pc: FlushPc, failed: bool): FlushPc
    requires Pops(pc)
  {
    match pc
    case Pop(_, _, good) => Finish(failed || !good, true)
    case PopErr(_, _) => Look
  }

  /** Where pop goes on after a waiter. */
  function Onward(pc: FlushPc): FlushPc
    requires Pops(pc)
  {
    match pc
    case Pop(h, t, good) => Pop(h, (t + 1) % WORD, good)
    case PopErr(h, t) => PopErr(h, (t + 1) % WORD)
  }

  /** Takes what the current block has now; after an error only the waiters are served. */
  function TakeData(s: State): State
    requires s.cur in s.blocks && s.flush.Data?
  {
    var b := s.blocks[s.cur];
    s.(blocks := s.blocks[s.cur := b.(flushed := b.written)],
       flush := if s.ctl.bad then PopErr(s.flush.h, s.flush.t)
                else Blocks(s.flush.pend, Ref(s.cur, b.flushed, b.written), s.flush.h, s.flush.t))
  }

  /** flushBlock: writes what is left of a full block and frees it. */
  function WriteBlock(s: State): State
    requires s.flush.Blocks? && s.flush.pend != [] && CanFlush(s)
  {
    var i := s.flush.pend[0];
    s.(disk := s.disk.(file := s.disk.file + s.blocks[i].bytes[s.blocks[i].flushed..]), blocks := s.blocks[i := Blk([], 0, 0)],
       free := s.free + {i}, flush := Blocks(s.flush.pend[1..], s.flush.d, s.flush.h, s.flush.t))
  }

  function WriteTail(s: State): State
    requires s.flush.Tail? && CanFlush(s)
  {
    var d := s.flush.d;
    s.(disk := s.disk.(file := s.disk.file + s.blocks[d.id].bytes[d.from..d.to]), flush := Sync(s.flush.h, s.flush.t))
  }

  function Failed(h: nat, t: nat): FlushPc {
    if h == t then Finish(true, false) else Pop(h, t, false)
  }

  /** Hands the waiter at the tail its result. */
  function Release(q: SyncQueue, t: nat, good: bool): SyncQueue
    requires |q.slots| == SLOTS && q.slots[Slot(t)].Some?
  {
    q.(slots := q.slots[Slot(t) := None], word := Bumped(q.word), tail := q.tail + 1,
       served := q.served + [q.slots[Slot(t)].value], results := q.results + [good])
  }

  // ----- The invariant -----

  /** An I/O error has happened. */
  predicate Broken(bad: bool, pc: FlushPc) {
    bad || (pc.Pop? && !pc.good) || (pc.Finish? && pc.bad)
  }

  /** Blocks the flush loop has taken off the pending list. */
  function Held(pc: FlushPc): seq<BlockId> {
    match pc
    case Load(pend) => pend
    case Data(pend, _, _) => pend
    case Blocks(pend, _, _, _) => pend
    case _ => []
  }

  /** Every block has one owner. */
  ghost predicate Owned(blocks: map<BlockId, Blk>, ids: seq<BlockId>, free: set<BlockId>) {
    && (forall i, j :: 0 <= i < j < |ids| ==> ids[i] != ids[j])
    && (forall i :: 0 <= i < |ids| ==> ids[i] in blocks && ids[i] !in free)
  }

  ghost predicate InOrder(b: Blk) {
    b.flushed <= b.written <= |b.bytes|
  }

  ghost predicate BlocksOk(blocks: map<BlockId, Blk>, cur: BlockId) {
    && cur in blocks && blocks[cur].written == |blocks[cur].bytes|
    && (forall i :: i in blocks ==> InOrder(blocks[i]))
  }

  /** What is left to write of a list of blocks, in order. */
  function Tails(blocks: map<BlockId, Blk>, ids: seq<BlockId>): Bytes {
    if ids == [] then []
    else (if ids[0] in blocks && blocks[ids[0]].flushed <= |blocks[ids[0]].bytes| then blocks[ids[0]].bytes[blocks[ids[0]].flushed..] else [])
         + Tails(blocks, ids[1..])
  }

  /** The slice of the current block taken by this round. */
  function Slice(blocks: map<BlockId, Blk>, pc: FlushPc): Bytes {
    match pc
    case Blocks(_, d, _, _) => if RefOk(blocks, d) then blocks[d.id].bytes[d.from..d.to] else []
    case Tail(d, _, _) => if RefOk(blocks, d) then blocks[d.id].bytes[d.from..d.to] else []
    case _ => []
  }

  predicate RefOk(blocks: map<BlockId, Blk>, d: Ref) {
    d.id in blocks && d.from <= d.to <= |blocks[d.id].bytes|
  }

  /** The slice in flight is of a block that cannot be reused yet, up to where it counts as flushed. */
  ghost predicate SliceOk(blocks: map<BlockId, Blk>, cur: BlockId, pending: seq<BlockId>, pc: FlushPc) {
    pc.Blocks? || pc.Tail? ==> RefOk(blocks, pc.d) && (pc.d.id == cur || pc.d.id in pending) && blocks[pc.d.id].flushed == pc.d.to
  }

  /** No block is pending while the flush loop holds the lock and has just taken them. */
  ghost predicate Grabbed(pending: seq<BlockId>, pc: FlushPc) {
    pc.Load? || pc.Data? ==> pending == []
  }

  ghost predicate Own(s: State) {
    && Owned(s.blocks, [s.cur] + s.pending + Held(s.flush), s.free)
    && BlocksOk(s.blocks, s.cur)
    && SliceOk(s.blocks, s.cur, s.pending, s.flush)
    && Grabbed(s.pending, s.flush)
  }

  /** Everything emitted and not yet in the file, in order. */
  function Unwritten(blocks: map<BlockId, Blk>, cur: BlockId, pending: seq<BlockId>, pc: FlushPc): Bytes {
    Tails(blocks, Held(pc)) + Slice(blocks, pc) + Tails(blocks, pending) + Tails(blocks, [cur])
  }

  /** As long as nothing failed, the file is the stream without its unwritten end. */
  ghost predicate Flow(s: State) {
    Broken(s.ctl.bad, s.flush) || s.stream == s.disk.file + Unwritten(s.blocks, s.cur, s.pending, s.flush)
  }

  // ----- Lists of blocks -----

  lemma {:induction false} TailsStay(blocks: map<BlockId, Blk>, ids: seq<BlockId>, i: BlockId, b: Blk)
    requires i !in ids
    ensures Tails(blocks[i := b], ids) == Tails(blocks, ids)
    decreases |ids|
  {
    if ids != [] {
      TailsStay(blocks, ids[1..], i, b);
    }
  }

  lemma {:induction false} TailsAppend(blocks: map<BlockId, Blk>, ids: seq<BlockId>, i: BlockId)
    ensures Tails(blocks, ids + [i]) == Tails(blocks, ids) + Tails(blocks, [i])
    decreases |ids|
  {
    if ids != [] {
      TailsAppend(blocks, ids[1..], i);
      assert (ids + [i])[1..] == ids[1..] + [i];
    } else {
      assert [] + [i] == [i];
    }
  }

  lemma OneTail(blocks: map<BlockId, Blk>, i: BlockId)
    requires i in blocks && blocks[i].flushed <= |blocks[i].bytes|
    ensures Tails(blocks, [i]) == blocks[i].bytes[blocks[i].flushed..]
  {
  }

  /** The three kinds of owner do not share a block. */
  lemma Apart(s: State)
    requires Owned(s.blocks, [s.cur] + s.pending + Held(s.flush), s.free)
    ensures s.cur !in s.pending && s.cur !in Held(s.flush) && s.cur in s.blocks && s.cur !in s.free
    ensures forall i :: i in s.pending ==> i in s.blocks && i !in s.free && i !in Held(s.flush)
    ensures forall i :: i in Held(s.flush) ==> i in s.blocks && i !in s.free
  {
    ApartOwners(s.blocks, s.cur, s.pending, Held(s.flush), s.free);
  }

  lemma ApartOwners(blocks: map<BlockId, Blk>, cur: BlockId, pending: seq<BlockId>, held: seq<BlockId>, free: set<BlockId>)
    requires Owned(blocks, [cur] + pending + held, free)
    ensures cur !in pending && cur !in held && cur in blocks && cur !in free
    ensures forall i :: i in pending ==> i in blocks && i !in free && i !in held
    ensures forall i :: i in held ==> i in blocks && i !in free
  {
    var ids, n := [cur] + pending + held, 1 + |pending|;
    assert forall k :: 0 <= k < |pending| ==> ids[1 + k] == pending[k];
    assert forall k :: 0 <= k < |held| ==> ids[n + k] == held[k];
    assert ids[0] == cur;
  }

  // ----- The writer's steps -----

  lemma EmitFlows(s: State, data: Bytes)
    requires Own(s) && Flow(s) && Enabled(s, Emit(data))
    ensures Own(Apply(s, Emit(data))) && Flow(Apply(s, Emit(data)))
  {
    Apart(s);
    var b := s.blocks[s.cur];
    var b' := Blk(b.bytes + data, |b.bytes + data|, b.flushed);
    var s' := Apply(s, Emit(data));
    TailsStay(s.blocks, s.pending, s.cur, b');
    TailsStay(s.blocks, Held(s.flush), s.cur, b');
    OneTail(s.blocks, s.cur);
    OneTail(s'.blocks, s.cur);
    assert b'.bytes[b.flushed..] == b.bytes[b.flushed..] + data;
    SliceStays(s.blocks, s.cur, b', s.flush);
  }

  /** More bytes behind a slice do not change it. */
  lemma SliceStays(blocks: map<BlockId, Blk>, i: BlockId, b: Blk, pc: FlushPc)
    requires i in blocks && blocks[i].bytes <= b.bytes && (pc.Blocks? || pc.Tail? ==> RefOk(blocks, pc.d))
    ensures Slice(blocks[i := b], pc) == Slice(blocks, pc) && (pc.Blocks? || pc.Tail? ==> RefOk(blocks[i := b], pc.d))
  {
  }

  lemma QueueOwns(s: State, next: BlockId, pad: Bytes)
    requires Own(s) && !Holds(s.flush) && (next in s.free || next !in s.blocks)
    ensures Own(QueueBlock(s, next, pad))
  {
    Apart(s);
    var s' := QueueBlock(s, next, pad);
    QueueDistinct(s.blocks, s.cur, s.pending, Held(s.flush), s.free, next, s'.blocks);
    QueueSlice(s, next, pad);
  }

  lemma QueueDistinct(blocks: map<BlockId, Blk>, cur: BlockId, pending: seq<BlockId>, held: seq<BlockId>, free: set<BlockId>,
                      next: BlockId, blocks': map<BlockId, Blk>)
    requires Owned(blocks, [cur] + pending + held, free) && (next in free || next !in blocks)
    requires blocks'.Keys == blocks.Keys + {next}
    ensures Owned(blocks', [next] + (pending + [cur]) + held, free - {next})
  {
    var ids, ids' := [cur] + pending + held, [next] + (pending + [cur]) + held;
    var n := 1 + |pending|;
    assert forall k :: 0 < k < n ==> ids'[k] == ids[k];
    assert ids'[n] == ids[0];
    assert forall k :: n < k < |ids'| ==> ids'[k] == ids[k - 1];
    assert next !in ids;
  }

  lemma QueueSlice(s: State, next: BlockId, pad: Bytes)
    requires Own(s) && !Holds(s.flush) && next != s.cur && next !in s.pending
    ensures var s' := QueueBlock(s, next, pad); SliceOk(s'.blocks, s'.cur, s'.pending, s'.flush)
    ensures s.flush.Blocks? || s.flush.Tail? ==> s.flush.d.id != next
  {
  }

  lemma QueueFlows(s: State, next: BlockId, pad: Bytes)
    requires Own(s) && Flow(s) && !Holds(s.flush) && (next in s.free || next !in s.blocks)
    ensures Flow(QueueBlock(s, next, pad))
  {
    Apart(s);
    var b := s.blocks[s.cur];
    var mid := s.blocks[s.cur := b.(bytes := b.bytes + pad)];
    PadTails(s.blocks, s.cur, s.pending, Held(s.flush), pad);
    SliceStays(s.blocks, s.cur, b.(bytes := b.bytes + pad), s.flush);
    QueueSlice(s, next, pad);
    NextTails(mid, next, s.pending + [s.cur], Held(s.flush), s.flush);
    TailsAppend(mid, s.pending, s.cur);
    PadMoves(s.disk.file, Tails(s.blocks, Held(s.flush)), Slice(s.blocks, s.flush), Tails(s.blocks, s.pending), Tails(s.blocks, [s.cur]), pad);
  }

  lemma PadMoves(f: Bytes, h: Bytes, d: Bytes, p: Bytes, c: Bytes, pad: Bytes)
    ensures f + (h + d + p + c) + pad == f + (h + d + (p + (c + pad)) + [])
  {
  }

  lemma FrontMoves(f: Bytes, x: Bytes, h: Bytes, d: Bytes, p: Bytes, c: Bytes)
    ensures f + ((x + h) + d + p + c) == (f + x) + (h + d + p + c)
  {
  }

  /** Padding shows only in the block it is added to. */
  lemma PadTails(blocks: map<BlockId, Blk>, cur: BlockId, pending: seq<BlockId>, held: seq<BlockId>, pad: Bytes)
    requires cur in blocks && cur !in pending && cur !in held && blocks[cur].flushed <= |blocks[cur].bytes|
    ensures var mid := blocks[cur := blocks[cur].(bytes := blocks[cur].bytes + pad)];
      && Tails(mid, pending) == Tails(blocks, pending) && Tails(mid, held) == Tails(blocks, held)
      && Tails(mid, [cur]) == Tails(blocks, [cur]) + pad
  {
    var b := blocks[cur];
    var b' := b.(bytes := b.bytes + pad);
    TailsStay(blocks, pending, cur, b');
    TailsStay(blocks, held, cur, b');
    OneTail(blocks, cur);
    OneTail(blocks[cur := b'], cur);
    assert b'.bytes[b.flushed..] == b.bytes[b.flushed..] + pad;
  }

  /** A fresh block adds nothing. */
  lemma NextTails(blocks: map<BlockId, Blk>, next: BlockId, pending: seq<BlockId>, held: seq<BlockId>, pc: FlushPc)
    requires next !in pending && next !in held && (pc.Blocks? || pc.Tail? ==> pc.d.id != next)
    ensures var new' := blocks[next := Blk([], 0, 0)];
      && Tails(new', pending) == Tails(blocks, pending) && Tails(new', held) == Tails(blocks, held)
      && Tails(new', [next]) == [] && Slice(new', pc) == Slice(blocks, pc)
  {
    TailsStay(blocks, pending, next, Blk([], 0, 0));
    TailsStay(blocks, held, next, Blk([], 0, 0));
    OneTail(blocks[next := Blk([], 0, 0)], next);
    SliceApart(blocks, next, Blk([], 0, 0), pc);
  }

  lemma SliceApart(blocks: map<BlockId, Blk>, i: BlockId, b: Blk, pc: FlushPc)
    requires pc.Blocks? || pc.Tail? ==> pc.d.id != i
    ensures Slice(blocks[i := b], pc) == Slice(blocks, pc)
  {
  }

  // ----- The flush loop's steps -----

  lemma GrabFlows(s: State)
    requires Own(s) && Flow(s) && s.flush.Grab?
    ensures var s' := s.(pending := [], flush := Load(s.pending)); Own(s') && Flow(s')
  {
    assert [s.cur] + s.pending + [] == [s.cur] + [] + s.pending;
  }

  lemma DataFlows(s: State, s': State)
    requires Own(s) && Flow(s) && s.flush.Data? && s' == TakeData(s)
    ensures Own(s') && Flow(s')
  {
    DataOwns(s, s');
    if !s.ctl.bad {
      DataTails(s, s');
    }
  }

  /** What was left of the current block is now the slice. */
  lemma DataTails(s: State, s': State)
    requires Own(s) && s.flush.Data? && s' == TakeData(s) && !s.ctl.bad
    ensures Tails(s'.blocks, Held(s'.flush)) == Tails(s.blocks, Held(s.flush))
    ensures Slice(s'.blocks, s'.flush) == Tails(s.blocks, [s.cur]) && Tails(s'.blocks, [s.cur]) == [] && s'.pending == []
  {
    Apart(s);
    var b := s.blocks[s.cur];
    TailsStay(s.blocks, Held(s.flush), s.cur, b.(flushed := b.written));
    OneTail(s.blocks, s.cur);
    OneTail(s'.blocks, s.cur);
    assert b.bytes[b.flushed..b.written] == b.bytes[b.flushed..];
  }

  lemma DataOwns(s: State, s': State)
    requires Own(s) && s.flush.Data? && s' == TakeData(s)
    ensures Own(s')
  {
    Apart(s);
    var ids := [s.cur] + s.pending + Held(s.flush);
    assert ids[0] == s.cur;
    assert s.ctl.bad ==> [s.cur] + s.pending + [] == [s.cur];
  }

  lemma BlockOwns(s: State, s': State)
    requires Own(s) && s.flush.Blocks? && s.flush.pend != [] && CanFlush(s) && s' == WriteBlock(s)
    ensures Own(s')
  {
    Apart(s);
    var i := s.flush.pend[0];
    var ids, ids' := [s.cur] + s.pending + Held(s.flush), [s.cur] + s.pending + s.flush.pend[1..];
    var n := 1 + |s.pending|;
    assert ids[n] == i;
    assert forall k :: 0 <= k < n ==> ids'[k] == ids[k];
    assert forall k :: n <= k < |ids'| ==> ids'[k] == ids[k + 1];
    assert i !in ids';
  }

  lemma BlockFlows(s: State, s': State)
    requires Own(s) && Flow(s) && s.flush.Blocks? && s.flush.pend != [] && CanFlush(s) && s' == WriteBlock(s)
    ensures Flow(s')
  {
    Apart(s);
    var i := s.flush.pend[0];
    var e := Blk([], 0, 0);
    HeldOnce(s);
    TailsStay(s.blocks, s.pending, i, e);
    TailsStay(s.blocks, s.flush.pend[1..], i, e);
    TailsStay(s.blocks, [s.cur], i, e);
    SliceApart(s.blocks, i, e, s.flush);
    assert Slice(s'.blocks, s'.flush) == Slice(s'.blocks, s.flush);
    var x := s.blocks[i].bytes[s.blocks[i].flushed..];
    assert Tails(s.blocks, s.flush.pend) == x + Tails(s.blocks, s.flush.pend[1..]);
    FrontMoves(s.disk.file, x, Tails(s.blocks, s.flush.pend[1..]), Slice(s.blocks, s.flush), Tails(s.blocks, s.pending), Tails(s.blocks, [s.cur]));
  }

  lemma HeldOnce(s: State)
    requires Own(s) && s.flush.Blocks? && s.flush.pend != []
    ensures s.flush.pend[0] !in s.flush.pend[1..] && s.flush.pend[0] != s.flush.d.id && s.flush.pend[0] != s.cur
  {
    Apart(s);
    var ids := [s.cur] + s.pending + Held(s.flush);
    var n := 1 + |s.pending|;
    assert forall k :: 0 <= k < |s.flush.pend| ==> ids[n + k] == s.flush.pend[k];
  }

  lemma TailFlows(s: State, s': State)
    requires Own(s) && Flow(s) && s.flush.Tail? && CanFlush(s) && s' == WriteTail(s)
    ensures Own(s') && Flow(s')
  {
    assert Slice(s.blocks, s.flush) == s.blocks[s.flush.d.id].bytes[s.flush.d.from..s.flush.d.to];
  }

  // ----- The sync queue -----

  /** The first slot after the waiters that have been put in. */
  function Filled(order: seq<nat>, writer: WriterPc): nat { |order| + if writer.Bumping? then 1 else 0 }

  /** The k-th waiter, if only its slot is filled so far too. */
  function Waiter(order: seq<nat>, writer: WriterPc, k: nat): nat {
    if k < |order| then order[k] else if writer.Bumping? then writer.w else 0
  }

  /** The head as the word shows it: past 2^32 pops one too many. */
  function Seen(pushes: nat, pops: nat): nat { pushes + if pops < WORD then 0 else 1 }

  /**
    From tail up to g the slots hold the waiters in order. At first that is all of them, and the other
    slots are empty. When the pops carry into the head, the next push skips slot g, and nothing will ever
    fill it.
   */
  ghost predicate Ring(q: SyncQueue, writer: WriterPc, g: nat) {
    && |q.slots| == SLOTS && q.tail <= g <= Filled(q.order, writer)
    && (forall k :: q.tail <= k < g ==> q.slots[Slot(k)] == Some(Waiter(q.order, writer, k)))
    && if q.tail < WORD then Whole(q, writer, g) else Gapped(q, writer, g)
  }

  ghost predicate Whole(q: SyncQueue, writer: WriterPc, g: nat)
    requires |q.slots| == SLOTS
  {
    && q.tail <= |q.order| && g == Filled(q.order, writer) <= q.tail + SLOTS
    && (forall k :: g <= k < q.tail + SLOTS ==> q.slots[Slot(k)] == None)
  }

  ghost predicate Gapped(q: SyncQueue, writer: WriterPc, g: nat)
    requires |q.slots| == SLOTS
  {
    WORD <= |q.order| && Filled(q.order, writer) < q.tail + SLOTS && g < WORD + SLOTS && q.slots[Slot(g)] == None
  }

  /** The 32-bit difference of the two halves. */
  function Ahead(h: nat, t: nat): nat
    requires t < WORD
  {
    (h + WORD - t) % WORD
  }

  /** The number of waiters released once this round is done, or 0 if it serves none. */
  function Due(h: nat, t: nat, tail: nat): nat {
    if h == t || t >= WORD then 0 else tail + Ahead(h, t)
  }

  /** The waiters this round serves. */
  ghost predicate Span(pc: FlushPc, tail: nat, head: nat) {
    pc.Data? || pc.PopErr? || pc.Blocks? || pc.Tail? || pc.Sync? || pc.Pop? ==>
      pc.h < WORD && pc.t < WORD && (pc.h == pc.t || (pc.t == tail % WORD && (tail < WORD ==> Due(pc.h, pc.t, tail) <= head)))
  }

  /** Nothing is written after an error. */
  ghost predicate Healthy(pc: FlushPc, bad: bool) {
    && (pc.Blocks? || pc.Tail? || pc.Sync? || pc.Pop? || pc.Finish? || pc.Arming? ==> !bad)
    && (pc.PopErr? ==> bad)
  }

  /** How much was emitted before a waiter came; one whose push is not over came last. */
  function MarkAt(marks: seq<nat>, emitted: nat, k: nat): nat { if k < |marks| then marks[k] else emitted }

  ghost predicate Marks(q: SyncQueue, writer: WriterPc, emitted: nat, settled: nat) {
    && |q.marks| == |q.order| && |q.results| == |q.served| == q.tail
    && (forall k :: 0 <= k < |q.marks| ==> q.marks[k] <= emitted)
    && (forall k :: 0 <= k < q.tail && q.results[k] ==> MarkAt(q.marks, emitted, k) <= settled)
    && (forall k :: 0 <= k < q.tail ==> q.served[k] == Waiter(q.order, writer, k))
  }

  /** How much the file will have once this round has written its share. */
  function Reach(file: Bytes, blocks: map<BlockId, Blk>, pc: FlushPc): nat {
    |file| + |Tails(blocks, Held(pc))| + |Slice(blocks, pc)|
  }

  /** Of the waiters still in the ring before g, those due have nothing emitted before them above n. */
  ghost predicate AllBelow(q: SyncQueue, emitted: nat, due: nat, g: nat, n: nat) {
    forall k :: q.tail <= k < due && k < g ==> MarkAt(q.marks, emitted, k) <= n
  }

  /** What was emitted before a waiter came is in the file before its turn comes. */
  ghost predicate Cover(s: State, g: nat) {
    && (s.flush.Blocks? || s.flush.Tail? || s.flush.Sync? ==>
          AllBelow(s.q, |s.stream|, Due(s.flush.h, s.flush.t, s.q.tail), g, Reach(s.disk.file, s.blocks, s.flush)))
    && (s.flush.Pop? && s.flush.good ==> AllBelow(s.q, |s.stream|, Due(s.flush.h, s.flush.t, s.q.tail), g, s.disk.settled))
  }

  ghost predicate Durable(file: Bytes, stream: Bytes, settled: nat) {
    settled <= |file| && settled <= |stream| && file[..settled] == stream[..settled]
  }

  /** The loop sleeps only if nobody needs it, or somebody is about to wake it. */
  ghost predicate Wake(s: State) {
    && (s.flush.Register? ==> s.pending == [] && !s.ctl.close)
    && ((s.flush.Unlocking? || s.flush.Recheck? || s.flush.Asleep?) && s.ctl.waiting ==> s.pending == [] && !s.ctl.close)
    && (s.flush.Asleep? && s.ctl.waiting && !QueueEmpty(s) ==> s.writer.Signalling? || s.ctl.timers > 0)
  }

  /** After Close the loop runs until nothing is left. */
  ghost predicate Shut(s: State) {
    && s.cur in s.blocks
    && (s.ctl.close <==> s.writer.Closed?)
    && (s.flush.Decide? && s.ctl.close ==> s.flush.seen == s.blocks[s.cur].written)
    && (s.flush.Closing? || s.flush.Exited? ==> s.ctl.close && s.pending == [] && s.blocks[s.cur].flushed == s.blocks[s.cur].written)
    && (s.flush.Exited? ==> |s.q.order| == s.q.tail)
  }

  /** The word counts pushes and pops. */
  ghost predicate Counted(q: SyncQueue) {
    |q.slots| == SLOTS && q.word == Packed(|q.order|, q.tail)
  }

  /** A blocked queue has its timer set, and an error stops the writing. */
  ghost predicate Timed(s: State) {
    && (s.ctl.blocked ==> s.ctl.armed || s.flush.Arming?)
    && Healthy(s.flush, s.ctl.bad) && (s.disk.syncer ==> s.disk.synced == s.disk.settled)
  }

  ghost predicate Inv(s: State, g: nat) {
    && Counted(s.q) && Timed(s) && Own(s) && Flow(s) && Cover(s, g) && Wake(s) && Shut(s)
    && Ring(s.q, s.writer, g) && Span(s.flush, s.q.tail, |s.q.order|)
    && Marks(s.q, s.writer, |s.stream|, s.disk.settled)
    && Durable(s.disk.file, s.stream, s.disk.settled)
  }

  // ----- The word's halves -----

  lemma PackedSteps(p: nat, t: nat)
    ensures Pushed(Packed(p, t)) == Packed(p + 1, t) && Bumped(Packed(p, t)) == Packed(p, t + 1)
  {
    var x := p * WORD + t;
    assert (p + 1) * WORD + t == x + WORD && p * WORD + (t + 1) == x + 1;
    assert x == x / LONG * LONG + x % LONG;
  }

  /** What the two halves read as: the overflow of the tail goes into the head. */
  lemma Halves(p: nat, t: nat)
    ensures Low(Packed(p, t)) == t % WORD && High(Packed(p, t)) == (p + t / WORD) % WORD
  {
    var x := p * WORD + t;
    var q, r := x / LONG, x % LONG;
    assert x == (q * WORD) * WORD + r;
    assert x == (p + t / WORD) * WORD + t % WORD;
    assert r / WORD == p + t / WORD - q * WORD && r % WORD == t % WORD;
  }

  /** What the code makes of the word, as long as the head it shows is no further ahead than there are slots. */
  lemma WordTells(p: nat, t: nat)
    requires t <= Seen(p, t) <= t + SLOTS && t < 2 * WORD
    ensures var w, v := Packed(p, t), Seen(p, t);
      && Low(w) == t % WORD && High(w) == v % WORD && Slot(High(w)) == Slot(v) && Slot(Low(w)) == Slot(t)
      && (High(w) == Low(w) <==> v == t) && ((Low(w) + SLOTS) % WORD == High(w) <==> v == t + SLOTS)
      && Due(High(w), Low(w), t) == if v == t then 0 else v
  {
    hide High, Low, Packed, Slot, Ahead;
    Halves(p, t);
    var v := Seen(p, t);
    SlotLow(v);
    SlotLow(t);
    Apart32(t, v);
    Apart32(v, t + SLOTS);
    LowAdds(t, SLOTS);
  }

  lemma LowAdds(a: nat, d: nat)
    ensures (a % WORD + d) % WORD == (a + d) % WORD
  {
    assert a + d == a / WORD * WORD + (a % WORD + d);
  }

  lemma SlotLow(k: nat)
    ensures Slot(k % WORD) == Slot(k)
  {
    assert k == k / WORD * WORD + k % WORD;
    assert k == (k / WORD * (WORD / SLOTS)) * SLOTS + k % WORD;
  }

  /** Two numbers not far apart are told apart by their lower halves, and so is how far. */
  lemma Apart32(a: nat, b: nat)
    requires a <= b < a + WORD
    ensures a % WORD == b % WORD <==> a == b
    ensures Ahead(b % WORD, a % WORD) == b - a
  {
    if a != b {
      Wraps(a, b - a);
    }
    assert b % WORD == (a % WORD + (b - a)) % WORD;
    var x := a % WORD + (b - a);
    assert b % WORD == if x < WORD then x else x - WORD;
  }

  lemma QueueTells(s: State, g: nat)
    requires Counted(s.q) && Ring(s.q, s.writer, g)
    ensures var q, v := s.q, Seen(|s.q.order|, s.q.tail);
      && q.tail <= v <= q.tail + SLOTS && q.tail < 2 * WORD
      && Low(q.word) == q.tail % WORD && High(q.word) == v % WORD && Slot(High(q.word)) == Slot(v)
      && (High(q.word) == Low(q.word) <==> v == q.tail) && ((Low(q.word) + SLOTS) % WORD == High(q.word) <==> v == q.tail + SLOTS)
      && Due(High(q.word), Low(q.word), q.tail) == if v == q.tail then 0 else v
  {
    hide High, Low, Packed, Slot, Due;
    WordTells(|s.q.order|, s.q.tail);
  }

  lemma Wraps(a: nat, d: nat)
    requires 0 < d < WORD
    ensures (a + d) % WORD != a % WORD
  {
  }

  lemma EmitKeeps(s: State, g: nat, data: Bytes)
    requires Inv(s, g) && Enabled(s, Emit(data))
    ensures Inv(Apply(s, Emit(data)), g)
  {
    EmitFlows(s, data);
    EmitReach(s, data);
    LaterMarks(s, g, s.stream + data);
    assert (s.stream + data)[..s.disk.settled] == s.stream[..s.disk.settled];
  }

  /** What is emitted after a push does not count for it. */
  lemma LaterMarks(s: State, g: nat, stream: Bytes)
    requires Marks(s.q, s.writer, |s.stream|, s.disk.settled) && s.writer.Idle? && Ring(s.q, s.writer, g) && s.stream <= stream
    ensures Marks(s.q, s.writer, |stream|, s.disk.settled)
    ensures forall due, n :: AllBelow(s.q, |s.stream|, due, g, n) ==> AllBelow(s.q, |stream|, due, g, n)
  {
    assert forall k :: 0 <= k < g ==> MarkAt(s.q.marks, |stream|, k) == MarkAt(s.q.marks, |s.stream|, k);
  }

  lemma EmitReach(s: State, data: Bytes)
    requires Own(s) && Enabled(s, Emit(data))
    ensures Reach(s.disk.file, Apply(s, Emit(data)).blocks, s.flush) == Reach(s.disk.file, s.blocks, s.flush)
  {
    Apart(s);
    var b := s.blocks[s.cur];
    var b' := Blk(b.bytes + data, |b.bytes + data|, b.flushed);
    TailsStay(s.blocks, Held(s.flush), s.cur, b');
    SliceStays(s.blocks, s.cur, b', s.flush);
  }

  lemma QueueKeeps(s: State, g: nat, next: BlockId, pad: Bytes)
    requires Inv(s, g) && Enabled(s, Queue(next, pad))
    ensures Inv(Apply(s, Queue(next, pad)), g)
  {
    QueueOwns(s, next, pad);
    QueueFlows(s, next, pad);
    QueueReach(s, next, pad);
    LaterMarks(s, g, s.stream + pad);
    assert (s.stream + pad)[..s.disk.settled] == s.stream[..s.disk.settled];
  }

  lemma QueueReach(s: State, next: BlockId, pad: Bytes)
    requires Own(s) && !Holds(s.flush) && (next in s.free || next !in s.blocks)
    ensures Reach(s.disk.file, QueueBlock(s, next, pad).blocks, s.flush) == Reach(s.disk.file, s.blocks, s.flush)
  {
    Apart(s);
    var b := s.blocks[s.cur];
    PadTails(s.blocks, s.cur, s.pending, Held(s.flush), pad);
    SliceStays(s.blocks, s.cur, b.(bytes := b.bytes + pad), s.flush);
    QueueSlice(s, next, pad);
    NextTails(s.blocks[s.cur := b.(bytes := b.bytes + pad)], next, s.pending + [s.cur], Held(s.flush), s.flush);
  }

  lemma SlotsApart(k: nat, l: nat)
    requires k < l < k + SLOTS
    ensures Slot(k) != Slot(l)
  {
    assert Slot(l) == (Slot(k) + (l - k)) % SLOTS;
  }

  /** Where the ring ends after an event. */
  function Grown(s: State, e: Event, g: nat): nat {
    if e.Push? && s.q.tail < WORD && |s.q.order| < s.q.tail + SLOTS then g + 1 else g
  }

  lemma PushRing(q: SyncQueue, writer: WriterPc, g: nat, w: nat)
    requires Ring(q, writer, g) && writer.Idle? && Seen(|q.order|, q.tail) < q.tail + SLOTS
    ensures var q' := q.(slots := q.slots[Slot(Seen(|q.order|, q.tail)) := Some(w)]);
      Ring(q', Bumping(w), if q.tail < WORD then g + 1 else g)
  {
    var v := Seen(|q.order|, q.tail);
    forall k | q.tail <= k < q.tail + SLOTS && k != v
      ensures Slot(k) != Slot(v)
    {
      if k < v {
        SlotsApart(k, v);
      } else {
        SlotsApart(v, k);
      }
    }
  }

  lemma PushKeeps(s: State, g: nat, w: nat)
    requires Inv(s, g) && Enabled(s, Push(w))
    ensures Inv(Apply(s, Push(w)), Grown(s, Push(w), g))
  {
    hide Ring, Cover, Marks;
    QueueTells(s, g);
    var v := Seen(|s.q.order|, s.q.tail);
    if v < s.q.tail + SLOTS {
      PushRing(s.q, s.writer, g, w);
      StoredKeeps(s, g, s.q.slots[Slot(v) := Some(w)], w, Grown(s, Push(w), g));
    } else {
      PanicKeeps(s, g);
    }
  }

  lemma PanicKeeps(s: State, g: nat)
    requires Inv(s, g) && s.writer.Idle?
    ensures Inv(s.(writer := Panicked), g)
  {
  }

  lemma StoredKeeps(s: State, g: nat, slots: seq<Option<nat>>, w: nat, g': nat)
    requires Inv(s, g) && s.writer.Idle? && Ring(s.q.(slots := slots), Bumping(w), g')
    requires g' == if s.q.tail < WORD then g + 1 else g
    ensures Inv(s.(q := s.q.(slots := slots), writer := Bumping(w)), g')
  {
  }

  lemma BumpRing(q: SyncQueue, w: nat, g: nat, word: nat, mark: nat)
    requires Ring(q, Bumping(w), g)
    ensures Ring(q.(word := word, order := q.order + [w], marks := q.marks + [mark]), Signalling, g)
  {
  }

  lemma BumpMarks(s: State, g: nat)
    requires Marks(s.q, s.writer, |s.stream|, s.disk.settled) && Cover(s, g) && Span(s.flush, s.q.tail, |s.q.order|) && s.writer.Bumping?
    requires s.q.tail <= g <= |s.q.order| + 1
    ensures var s' := Publish(s);
      && Marks(s'.q, s'.writer, |s.stream|, s.disk.settled) && Cover(s', g) && Span(s'.flush, s'.q.tail, |s'.q.order|)
  {
    var q' := Publish(s).q;
    assert forall k :: 0 <= k < g ==> MarkAt(q'.marks, |s.stream|, k) == MarkAt(s.q.marks, |s.stream|, k);
    assert forall k :: 0 <= k < g ==> Waiter(q'.order, Signalling, k) == Waiter(s.q.order, s.writer, k);
  }

  lemma BumpKeeps(s: State, g: nat)
    requires Inv(s, g) && Enabled(s, Bump)
    ensures Inv(Apply(s, Bump), g)
  {
    BumpRing(s.q, s.writer.w, g, Pushed(s.q.word), |s.stream|);
    BumpMarks(s, g);
    PackedSteps(|s.q.order|, s.q.tail);
  }

  lemma SignalKeeps(s: State, g: nat, e: Event)
    requires Inv(s, g) && Enabled(s, e) && (e.Signal? || e.Close? || e.TimerClear? || e.TimerSignal?)
    ensures Inv(Apply(s, e), g)
  {
  }

  // ----- The flush loop keeps the invariant -----

  lemma LookKeeps(s: State, g: nat)
    requires Inv(s, g) && CanFlush(s)
    requires s.flush.Look? || s.flush.Decide? || s.flush.Closing? || s.flush.Register? || s.flush.Unlocking? || s.flush.Recheck? || s.flush.Asleep? || s.flush.Arming?
    ensures Inv(Looping(s), g)
  {
    QueueTells(s, g);
  }

  lemma GrabKeeps(s: State, g: nat)
    requires Inv(s, g) && s.flush.Grab?
    ensures Inv(Looping(s), g)
  {
    GrabFlows(s);
  }

  lemma LoadKeeps(s: State, g: nat)
    requires Inv(s, g) && s.flush.Load?
    ensures Inv(Looping(s), g)
  {
    QueueTells(s, g);
  }

  lemma DataKeeps(s: State, g: nat)
    requires Inv(s, g) && s.flush.Data?
    ensures Inv(TakeData(s), g)
  {
    var s' := TakeData(s);
    DataFlows(s, s');
    OneTail(s'.blocks, s'.cur);
    assert !s.ctl.bad ==> Unwritten(s'.blocks, s'.cur, s'.pending, s'.flush) == Tails(s'.blocks, Held(s'.flush)) + Slice(s'.blocks, s'.flush);
  }

  lemma WriteKeeps(s: State, g: nat)
    requires Inv(s, g) && s.flush.Blocks? && s.flush.pend != [] && CanFlush(s)
    ensures Inv(WriteBlock(s), g)
  {
    var s' := WriteBlock(s);
    BlockOwns(s, s');
    BlockFlows(s, s');
    WriteReaches(s);
    HeldOnce(s);
    assert s'.disk.file[..s.disk.settled] == s.disk.file[..s.disk.settled];
  }

  lemma WriteReaches(s: State)
    requires Own(s) && s.flush.Blocks? && s.flush.pend != [] && CanFlush(s)
    ensures var s' := WriteBlock(s); Reach(s'.disk.file, s'.blocks, s'.flush) == Reach(s.disk.file, s.blocks, s.flush)
  {
    var s' := WriteBlock(s);
    var i := s.flush.pend[0];
    HeldOnce(s);
    TailsStay(s.blocks, s.flush.pend[1..], i, Blk([], 0, 0));
    SliceApart(s.blocks, i, Blk([], 0, 0), s.flush);
    assert Slice(s'.blocks, s'.flush) == Slice(s'.blocks, s.flush);
  }

  lemma TailKeeps(s: State, g: nat)
    requires Inv(s, g) && s.flush.Tail? && CanFlush(s)
    ensures Inv(WriteTail(s), g) && (s.flush.d.from == s.flush.d.to ==> Inv(s.(flush := Sync(s.flush.h, s.flush.t)), g))
  {
    TailFlows(s, WriteTail(s));
    assert WriteTail(s).disk.file[..s.disk.settled] == s.disk.file[..s.disk.settled];
    if s.flush.d.from == s.flush.d.to {
      assert s.disk.file + Slice(s.blocks, s.flush) == s.disk.file;
      assert WriteTail(s) == s.(flush := Sync(s.flush.h, s.flush.t));
    }
  }

  /** A write that failed, with whatever it left in the file. */
  lemma FailKeeps(s: State, g: nat, part: Bytes)
    requires Inv(s, g) && (s.flush.Blocks? || s.flush.Tail?)
    ensures Inv(s.(disk := s.disk.(file := s.disk.file + part), flush := Failed(s.flush.h, s.flush.t)), g)
  {
    assert (s.disk.file + part)[..s.disk.settled] == s.disk.file[..s.disk.settled];
    LessOwned(s.blocks, s.cur, s.pending, Held(s.flush), s.free);
  }

  lemma LessOwned(blocks: map<BlockId, Blk>, cur: BlockId, pending: seq<BlockId>, held: seq<BlockId>, free: set<BlockId>)
    requires Owned(blocks, [cur] + pending + held, free)
    ensures Owned(blocks, [cur] + pending + [], free)
  {
    var ids, ids' := [cur] + pending + held, [cur] + pending + [];
    assert forall k :: 0 <= k < |ids'| ==> ids'[k] == ids[k];
  }

  lemma SyncedKeeps(s: State, g: nat)
    requires Inv(s, g) && s.flush.Sync?
    ensures Inv(s.(disk := Settle(s.disk), flush := Pop(s.flush.h, s.flush.t, true)), g)
  {
    assert s.stream[..|s.disk.file|] == s.disk.file;
  }

  lemma UnsyncedKeeps(s: State, g: nat)
    requires Inv(s, g) && s.flush.Sync?
    ensures Inv(s.(flush := Finish(false, false)), g) && Inv(s.(flush := Pop(s.flush.h, s.flush.t, false)), g)
  {
  }

  lemma ReleaseRing(q: SyncQueue, writer: WriterPc, g: nat, good: bool)
    requires Ring(q, writer, g) && q.tail < g && (q.tail < WORD ==> q.tail < |q.order|)
    ensures q.slots[Slot(q.tail)] == Some(Waiter(q.order, writer, q.tail)) && Ring(Release(q, q.tail, good), writer, g)
  {
    forall k | q.tail < k < q.tail + SLOTS
      ensures Slot(k) != Slot(q.tail)
    {
      SlotsApart(q.tail, k);
    }
    assert Slot(q.tail + SLOTS) == Slot(q.tail);
  }

  /** A waiter in the slot whose turn it is is the one whose turn it is; up to 2^32 pops it is always there. */
  lemma PopFinds(s: State, g: nat)
    requires Inv(s, g) && Pops(s.flush) && s.flush.h != s.flush.t
    ensures Slot(s.flush.t) == Slot(s.q.tail) && s.q.tail < Due(s.flush.h, s.flush.t, s.q.tail)
    ensures s.q.tail < WORD ==> s.q.tail < |s.q.order| && s.q.tail < g
    ensures s.q.slots[Slot(s.q.tail)].Some? <==> s.q.tail < g
  {
    SlotLow(s.q.tail);
    AheadSome(s.flush.h, s.flush.t);
  }

  lemma AheadSome(h: nat, t: nat)
    requires h < WORD && t < WORD && h != t
    ensures 0 < Ahead(h, t) && Ahead(h, (t + 1) % WORD) == Ahead(h, t) - 1
  {
  }

  /** One waiter fewer to serve. */
  lemma DueStays(pc: FlushPc, tail: nat)
    requires Pops(pc) && pc.h < WORD && pc.t < WORD && pc.h != pc.t && pc.t == tail % WORD
    ensures Onward(pc).t == (tail + 1) % WORD && Onward(pc).h == pc.h
    ensures Due(pc.h, Onward(pc).t, tail + 1) <= Due(pc.h, pc.t, tail)
  {
    AheadSome(pc.h, pc.t);
  }

  lemma ReleaseCounts(q: SyncQueue, t: nat, good: bool)
    requires Counted(q) && q.slots[Slot(t)].Some?
    ensures Counted(Release(q, t, good))
  {
    PackedSteps(|q.order|, q.tail);
  }

  lemma ReleaseMarks(q: SyncQueue, writer: WriterPc, emitted: nat, settled: nat, good: bool)
    requires Marks(q, writer, emitted, settled) && |q.slots| == SLOTS && q.slots[Slot(q.tail)] == Some(Waiter(q.order, writer, q.tail))
    requires good ==> MarkAt(q.marks, emitted, q.tail) <= settled
    ensures Marks(Release(q, q.tail, good), writer, emitted, settled)
  {
  }

  lemma ReleaseKeeps(s: State, g: nat, good: bool)
    requires Inv(s, g) && Pops(s.flush) && s.flush.h != s.flush.t && s.q.tail < g && good == (s.flush.Pop? && s.flush.good)
    ensures s.q.slots[Slot(s.flush.t)].Some? && Inv(s.(q := Release(s.q, s.flush.t, good), flush := Onward(s.flush)), g)
  {
    PopFinds(s, g);
    DueStays(s.flush, s.q.tail);
    ReleaseRing(s.q, s.writer, g, good);
    ReleaseMarks(s.q, s.writer, |s.stream|, s.disk.settled, good);
    ReleaseCounts(s.q, s.q.tail, good);
    ReleasedKeeps(s, g, Release(s.q, s.q.tail, good), Onward(s.flush));
  }

  /** Releasing a waiter touches nothing but the queue. */
  lemma ReleasedKeeps(s: State, g: nat, q: SyncQueue, pc: FlushPc)
    requires Inv(s, g) && Pops(s.flush) && Pops(pc) && Counted(q) && q.tail == s.q.tail + 1
    requires q.order == s.q.order && q.marks == s.q.marks
    requires Ring(q, s.writer, g) && Span(pc, q.tail, |q.order|) && Marks(q, s.writer, |s.stream|, s.disk.settled)
    requires pc.Pop? == s.flush.Pop? && (pc.Pop? ==> pc.good == s.flush.good)
    requires Due(pc.h, pc.t, q.tail) <= Due(s.flush.h, s.flush.t, s.q.tail)
    ensures Inv(s.(q := q, flush := pc), g)
  {
  }

  lemma PoppedKeeps(s: State, g: nat, failed: bool)
    requires Inv(s, g) && Pops(s.flush)
    ensures Inv(s.(flush := Popped(s.flush, failed)), g)
  {
  }

  lemma PopKeeps(s: State, g: nat)
    requires Inv(s, g) && Pops(s.flush)
    ensures Inv(Popping(s), g)
  {
    hide Flow, Cover, Marks, Own;
    if s.flush.h == s.flush.t {
      PoppedKeeps(s, g, false);
    } else {
      PopFinds(s, g);
      if s.q.tail < g {
        ReleaseKeeps(s, g, s.flush.Pop? && s.flush.good);
      } else {
        PoppedKeeps(s, g, true);
      }
    }
  }

  lemma FinishKeeps(s: State, g: nat, block: bool)
    requires Inv(s, g) && s.flush.Finish?
    ensures Inv(Flushing(s, true, [], block), g)
  {
  }

  lemma FlushKeeps(s: State, g: nat, ok: bool, part: Bytes, block: bool)
    requires Inv(s, g) && CanFlush(s)
    ensures Inv(FlushStep(s, ok, part, block), g)
  {
    if Pops(s.flush) {
      PopKeeps(s, g);
    } else if Writes(s.flush) {
      FlushingKeeps(s, g, ok, part, block);
    } else {
      LoopingKeeps(s, g);
    }
  }

  lemma LoopingKeeps(s: State, g: nat)
    requires Inv(s, g) && CanFlush(s) && !Pops(s.flush) && !Writes(s.flush)
    ensures Inv(Looping(s), g)
  {
    match s.flush
    case Grab => GrabKeeps(s, g);
    case Load(_) => LoadKeeps(s, g);
    case Data(_, _, _) => DataKeeps(s, g);
    case _ => LookKeeps(s, g);
  }

  lemma FlushingKeeps(s: State, g: nat, ok: bool, part: Bytes, block: bool)
    requires Inv(s, g) && CanFlush(s) && Writes(s.flush)
    ensures Inv(Flushing(s, ok, part, block), g)
  {
    match s.flush
    case Blocks(pend, _, _, _) =>
      if pend != [] {
        WriteKeeps(s, g);
        FailKeeps(s, g, part);
      } else {
        BlocksDone(s, g);
      }
    case Tail(_, _, _) =>
      TailKeeps(s, g);
      FailKeeps(s, g, part);
    case Sync(_, _) =>
      SyncedKeeps(s, g);
      UnsyncedKeeps(s, g);
    case Finish(_, _) => FinishKeeps(s, g, block);
  }

  lemma BlocksDone(s: State, g: nat)
    requires Inv(s, g) && s.flush.Blocks? && s.flush.pend == []
    ensures Inv(s.(flush := Tail(s.flush.d, s.flush.h, s.flush.t)), g)
  {
  }

  /** Every step keeps the invariant, also when the pops carry into the head. */
  lemma EventKeeps(s: State, g: nat, e: Event)
    requires Inv(s, g) && Enabled(s, e)
    ensures Inv(Apply(s, e), Grown(s, e, g))
  {
    match e
    case Emit(data) => EmitKeeps(s, g, data);
    case Queue(next, pad) => QueueKeeps(s, g, next, pad);
    case Push(w) => PushKeeps(s, g, w);
    case Bump => BumpKeeps(s, g);
    case Flush(ok, part, block) => FlushKeeps(s, g, ok, part, block);
    case _ => SignalKeeps(s, g, e);
  }

  // ----- Whole runs -----

  function Init(syncer: bool): State {
    State(map[BlockId(0) := Blk([], 0, 0)], BlockId(0), [], {}, [], Disk([], 0, 0, syncer),
          SyncQueue(seq(SLOTS, k => None), 0, [], [], 0, [], []), Control(false, false, 0, false, false, false), Idle, Look)
  }

  predicate Possible(s: State, events: seq<Event>)
    decreases |events|
  {
    events == [] || (Enabled(s, events[0]) && Possible(Apply(s, events[0]), events[1..]))
  }

  function After(s: State, events: seq<Event>): State
    requires Possible(s, events)
    decreases |events|
  {
    if events == [] then s else After(Apply(s, events[0]), events[1..])
  }

  lemma {:induction false} RunKeeps(s: State, g: nat, events: seq<Event>) returns (g': nat)
    requires Inv(s, g) && Possible(s, events)
    ensures Inv(After(s, events), g') && (WORD <= s.q.tail ==> g' == g)
    decreases |events|
  {
    hide Inv, Apply, Enabled;
    g' := g;
    if events != [] {
      EventGrows(s, events[0]);
      EventKeeps(s, g, events[0]);
      g' := RunKeeps(Apply(s, events[0]), Grown(s, events[0], g), events[1..]);
    }
  }

  lemma InitHolds(syncer: bool)
    ensures Inv(Init(syncer), 0)
  {
    OneTail(Init(syncer).blocks, BlockId(0));
  }

  ghost predicate Reachable(s: State) {
    exists syncer: bool, events: seq<Event> :: Possible(Init(syncer), events) && s == After(Init(syncer), events)
  }

  lemma ReachableHolds(s: State) returns (g: nat)
    requires Reachable(s)
    ensures Inv(s, g)
  {
    var syncer: bool, events: seq<Event> :| Possible(Init(syncer), events) && s == After(Init(syncer), events);
    InitHolds(syncer);
    g := RunKeeps(Init(syncer), 0, events);
  }

  // ----- What the log writer promises -----

  /**
    A waiter released without an error: all that was emitted before it was pushed is in the file, in
    order, and synced if the writer can sync. The k-th one released is the k-th one pushed.
   */
  lemma ReleasedIsDurable(s: State, k: nat)
    requires Reachable(s) && k < |s.q.results| && s.q.results[k]
    ensures var mark := MarkAt(s.q.marks, |s.stream|, k);
      && mark <= s.disk.settled <= |s.disk.file| && mark <= |s.stream|
      && s.disk.file[..mark] == s.stream[..mark] && (s.disk.syncer ==> mark <= s.disk.synced)
    ensures k < |s.q.served| && s.q.served[k] == Waiter(s.q.order, s.writer, k)
    ensures k < |s.q.marks| == |s.q.order| || (k == |s.q.order| && s.writer.Bumping? && WORD <= k)
  {
    var g := ReachableHolds(s);
    var mark := MarkAt(s.q.marks, |s.stream|, k);
    assert s.disk.file[..mark] == s.disk.file[..s.disk.settled][..mark];
    assert s.stream[..mark] == s.stream[..s.disk.settled][..mark];
  }

  /** The bytes an event adds to the stream. */
  function Emitted(e: Event): Bytes {
    match e
    case Emit(data) => data
    case Queue(_, pad) => pad
    case _ => []
  }

  /** The mark of a waiter is all that was emitted up to its push, and neither changes afterwards. */
  lemma MarksAreKept(s: State, e: Event)
    requires Enabled(s, e)
    ensures Apply(s, e).stream == s.stream + Emitted(e)
    ensures Apply(s, e).q.marks == if e.Bump? then s.q.marks + [|s.stream|] else s.q.marks
  {
    assert s.stream + [] == s.stream;
  }

  /** Closing: when the loop has ended without an error, every byte is in the file and every waiter has been released. */
  lemma ClosedIsWritten(s: State)
    requires Reachable(s) && s.flush.Exited?
    ensures !s.ctl.bad ==> s.disk.file == s.stream
    ensures s.q.tail == |s.q.order|
  {
    var g := ReachableHolds(s);
    OneTail(s.blocks, s.cur);
  }

  /** Once a write or sync has failed, no waiter is told otherwise. */
  lemma ErrorsStick(s: State, e: Event)
    requires Reachable(s) && Enabled(s, e) && Broken(s.ctl.bad, s.flush)
    ensures Broken(Apply(s, e).ctl.bad, Apply(s, e).flush)
    ensures |Apply(s, e).q.results| > |s.q.results| ==> !Apply(s, e).q.results[|s.q.results|]
  {
    var g := ReachableHolds(s);
    if e.Flush? {
      if Pops(s.flush) {
        PopSticks(s);
      } else if Writes(s.flush) {
        FinishSticks(s, e.ok, e.part, e.block);
      } else {
        LoopSticks(s);
      }
    }
  }

  lemma PopSticks(s: State)
    requires |s.q.slots| == SLOTS && Pops(s.flush) && Healthy(s.flush, s.ctl.bad) && Broken(s.ctl.bad, s.flush)
    ensures var s' := Popping(s);
      Broken(s'.ctl.bad, s'.flush) && (|s'.q.results| > |s.q.results| ==> !s'.q.results[|s.q.results|])
  {
    match s.flush
    case Pop(_, _, _) =>
    case PopErr(_, _) =>
  }

  lemma FinishSticks(s: State, ok: bool, part: Bytes, block: bool)
    requires Writes(s.flush) && CanFlush(s) && Healthy(s.flush, s.ctl.bad) && Broken(s.ctl.bad, s.flush)
    ensures var s' := Flushing(s, ok, part, block); Broken(s'.ctl.bad, s'.flush) && s'.q == s.q
  {
  }

  lemma LoopSticks(s: State)
    requires s.cur in s.blocks && CanFlush(s) && !Pops(s.flush) && !Writes(s.flush) && Broken(s.ctl.bad, s.flush)
    ensures var s' := Looping(s); Broken(s'.ctl.bad, s'.flush) && s'.q == s.q
  {
    match s.flush
    case Look =>
    case Decide(_) =>
    case Closing =>
    case Register =>
    case Unlocking =>
    case Recheck =>
    case Asleep =>
    case Grab =>
    case Load(_) =>
    case Data(_, _, _) =>
    case Arming =>
  }

  /** pop never meets an empty slot before 2^32 waiters have been released. */
  lemma NoNilWaiter(s: State)
    requires Reachable(s) && s.q.tail < WORD && Pops(s.flush) && s.flush.h != s.flush.t
    ensures |s.q.slots| == SLOTS && s.q.tail < |s.q.order| && s.q.slots[Slot(s.flush.t)] == Some(s.q.order[s.q.tail])
  {
    var g := ReachableHolds(s);
    PopFinds(s, g);
  }

  /** Up to there push panics exactly when as many waiters as there are slots have not been released. */
  lemma PanicsWhenFull(s: State, w: nat)
    requires Reachable(s) && Enabled(s, Push(w))
    ensures Apply(s, Push(w)).writer.Panicked? <==> |s.q.order| - s.q.tail == if s.q.tail < WORD then SLOTS else SLOTS - 1
  {
    var g := ReachableHolds(s);
    QueueTells(s, g);
  }

  /** A blocked queue has a timer that is set, or is about to be. */
  lemma BlockedIsTimed(s: State)
    requires Reachable(s) && s.ctl.blocked
    ensures s.ctl.armed || s.flush.Arming?
  {
    var g := ReachableHolds(s);
  }

  /**
    No wakeup is lost: a sleeping loop with waiters to serve is about to be signalled, and while syncing
    is blocked the timer is set that lets it go on and then signals.
   */
  lemma NoLostWakeup(s: State)
    requires Reachable(s) && s.flush.Asleep? && !CanFlush(s)
    ensures s.pending == [] && !s.ctl.close
    ensures s.q.tail < |s.q.order| && !s.ctl.blocked ==> s.writer.Signalling? || s.ctl.timers > 0
    ensures s.ctl.blocked ==> Enabled(s, TimerClear) && !Apply(s, TimerClear).ctl.blocked && Enabled(Apply(s, TimerClear), TimerSignal)
  {
    var g := ReachableHolds(s);
    QueueTells(s, g);
  }

  // ----- When the lower half overflows -----

  /** On every run: the lower half counts the pops, and the upper half the pushes exactly until the first 2^32 pops. */
  lemma WordAgrees(s: State)
    requires Reachable(s)
    ensures Low(s.q.word) == s.q.tail % WORD
    ensures High(s.q.word) == |s.q.order| % WORD <==> s.q.tail < WORD
  {
    var g := ReachableHolds(s);
    QueueTells(s, g);
    Wraps(|s.q.order|, 1);
  }

  /**
    Once 2^32 waiters have been released the queue looks one longer than it is: it does not look empty, and
    if no waiter is left the slot pop reads next is empty.
   */
  lemma CarryBreaks(s: State)
    requires Reachable(s) && s.q.tail == WORD
    ensures Low(s.q.word) == 0 && High(s.q.word) == |s.q.order| + 1 - WORD && High(s.q.word) != Low(s.q.word)
    ensures |s.q.order| == WORD && !s.writer.Bumping? ==> |s.q.slots| == SLOTS && s.q.slots[Slot(Low(s.q.word))] == None
  {
    hide Reachable, Packed, High, Low, Due;
    var g := ReachableHolds(s);
    QueueTells(s, g);
    assert Slot(WORD) == Slot(0);
  }

  /**
    From then on only the waiters whose slots were filled by that time are released, fewer than there are
    slots: behind them pop meets a slot that stays empty in every run.
   */
  lemma CarryStops(s: State, events: seq<Event>) returns (g: nat)
    requires Reachable(s) && WORD <= s.q.tail && Possible(s, events)
    ensures s.q.tail <= g < WORD + SLOTS && After(s, events).q.tail <= g
    ensures var q := After(s, events).q; |q.slots| == SLOTS && q.slots[Slot(g)] == None
  {
    g := ReachableHolds(s);
    var g' := RunKeeps(s, g, events);
    RunGrows(s, events);
  }

  lemma EventGrows(s: State, e: Event)
    requires Enabled(s, e)
    ensures s.q.tail <= Apply(s, e).q.tail
  {
  }

  lemma {:induction false} RunGrows(s: State, events: seq<Event>)
    requires Possible(s, events)
    ensures s.q.tail <= After(s, events).q.tail
    decreases |events|
  {
    hide Apply, Enabled;
    if events != [] {
      EventGrows(s, events[0]);
      RunGrows(Apply(s, events[0]), events[1..]);
    }
  }

  /** One more step of a run. */
  lemma {:induction false} Onwards(s: State, events: seq<Event>, e: Event)
    requires Possible(s, events) && Enabled(After(s, events), e)
    ensures Possible(s, events + [e]) && After(s, events + [e]) == Apply(After(s, events), e)
    decreases |events|
  {
    if events == [] {
      assert [] + [e] == [e] && [e][1..] == [];
    } else {
      Onwards(Apply(s, events[0]), events[1..], e);
      assert (events + [e])[1..] == events[1..] + [e];
    }
  }

  lemma Next(s: State, e: Event)
    requires Reachable(s) && Enabled(s, e)
    ensures Reachable(Apply(s, e))
  {
    var syncer: bool, events: seq<Event> :| Possible(Init(syncer), events) && s == After(Init(syncer), events);
    Onwards(Init(syncer), events, e);
  }

  /** Nothing to write, nothing wrong, and the loop about to look. */
  ghost predicate Still(s: State) {
    && s.cur in s.blocks && s.blocks[s.cur] == Blk([], 0, 0) && s.pending == []
    && s.ctl == Control(false, false, 0, false, false, false) && |s.q.slots| == SLOTS
  }

  /** Every waiter so far has been served. */
  ghost predicate Served(s: State, n: nat) {
    && Still(s) && s.writer.Idle? && s.flush.Look? && |s.q.order| == n == s.q.tail && s.q.word == Packed(n, n)
    && (forall k :: 0 <= k < SLOTS ==> s.q.slots[k] == None)
  }

  ghost predicate OneLeft(s: State, n: nat) {
    && Still(s) && s.writer.Idle? && |s.q.order| == n + 1 && s.q.tail == n && s.q.word == Packed(n + 1, n)
    && s.q.slots[Slot(n)].Some? && (forall k :: 0 <= k < SLOTS && k != Slot(n) ==> s.q.slots[k] == None)
  }

  const STEP := Flush(true, [], false)

  /** A push in full. */
  lemma OnePush(s: State, n: nat) returns (r: State)
    requires Reachable(s) && Served(s, n) && n < WORD
    ensures Reachable(r) && OneLeft(r, n) && r.flush.Look?
  {
    hide Reachable, Packed, High, Low;
    WordTells(n, n);
    Next(s, Push(0));
    var a := Apply(s, Push(0));
    PackedSteps(n, n);
    Next(a, Bump);
    var b := Apply(a, Bump);
    Next(b, Signal);
    r := Apply(b, Signal);
  }

  /** The loop sees that the queue is not empty. */
  lemma ToGrab(s: State) returns (r: State)
    requires Reachable(s) && Still(s) && s.flush.Look? && High(s.q.word) != Low(s.q.word)
    ensures Reachable(r) && Still(r) && r.writer == s.writer && r.q == s.q && r.flush.Grab?
  {
    hide Reachable, Packed, High, Low;
    Next(s, STEP);
    var a := Apply(s, STEP);
    Next(a, STEP);
    r := Apply(a, STEP);
  }

  /** It takes what there is to write, which is nothing. */
  lemma ToBlocks(s: State) returns (r: State)
    requires Reachable(s) && Still(s) && s.flush.Grab?
    ensures Reachable(r) && Still(r) && r.writer == s.writer && r.q == s.q && r.flush == Blocks([], Ref(r.cur, 0, 0), High(s.q.word), Low(s.q.word))
  {
    hide Reachable, Packed, High, Low;
    Next(s, STEP);
    var a := Apply(s, STEP);
    Next(a, STEP);
    var b := Apply(a, STEP);
    Next(b, STEP);
    r := Apply(b, STEP);
  }

  lemma ToPop(s: State) returns (r: State)
    requires Reachable(s) && Still(s) && s.flush.Look? && High(s.q.word) != Low(s.q.word)
    ensures Reachable(r) && Still(r) && r.writer == s.writer && r.q == s.q && r.flush == Pop(High(s.q.word), Low(s.q.word), true)
  {
    hide Reachable, Packed, High, Low;
    var g := ToGrab(s);
    var a := ToBlocks(g);
    Next(a, STEP);
    var b := Apply(a, STEP);
    Next(b, STEP);
    var c := Apply(b, STEP);
    Next(c, STEP);
    r := Apply(c, STEP);
  }

  /** pop releases the one waiter and is done. */
  lemma OnePop(s: State, n: nat) returns (r: State)
    requires Reachable(s) && OneLeft(s, n) && n < WORD && s.flush == Pop((n + 1) % WORD, n, true)
    ensures Reachable(r) && Served(r, n + 1)
  {
    hide Reachable, Packed, High, Low;
    Next(s, STEP);
    var a := Apply(s, STEP);
    PackedSteps(n + 1, n);
    assert a.q == Release(s.q, n, true) && a.flush == Pop((n + 1) % WORD, (n + 1) % WORD, true);
    r := PopEnds(a);
  }

  lemma PopEnds(s: State) returns (r: State)
    requires Reachable(s) && Still(s) && s.flush.Pop? && s.flush.h == s.flush.t && s.flush.good
    ensures Reachable(r) && Still(r) && r.writer == s.writer && r.q == s.q && r.flush.Look?
  {
    hide Reachable, Packed, High, Low;
    Next(s, STEP);
    var a := Apply(s, STEP);
    Next(a, STEP);
    r := Apply(a, STEP);
  }

  lemma OneRound(s: State, n: nat) returns (r: State)
    requires Reachable(s) && Served(s, n) && n < WORD
    ensures Reachable(r) && Served(r, n + 1)
  {
    hide Reachable, Packed, High, Low, Slot, Due;
    var a := OnePush(s, n);
    WordTells(n + 1, n);
    var b := ToPop(a);
    r := OnePop(b, n);
  }

  lemma {:induction false} Rounds(n: nat) returns (s: State)
    requires n <= WORD
    ensures Reachable(s) && Served(s, n)
  {
    if n == 0 {
      s := Init(true);
      assert Possible(Init(true), []) && s == After(Init(true), []);
    } else {
      var r := Rounds(n - 1);
      s := OneRound(r, n - 1);
    }
  }

  /** NoNilWaiter needs its bound: a run with 2^32 waiters, all served, in which pop then meets an empty slot. */
  lemma NilWaiterIsMet() returns (s: State)
    ensures Reachable(s) && s.q.tail == |s.q.order| == WORD && s.flush.Pop? && s.flush.h != s.flush.t
    ensures |s.q.slots| == SLOTS && s.q.slots[Slot(s.flush.t)] == None
  {
    hide Reachable, Packed, High, Low;
    var r := Rounds(WORD);
    Halves(WORD, WORD);
    s := ToPop(r);
  }

  /**
    A run that releases a waiter before its push is over: its slot is filled when the pops carry into the
    head. What was emitted before it is synced all the same, as ReleasedIsDurable says.
   */
  lemma ReleasedUnpublished() returns (s: State)
    ensures Reachable(s) && s.writer.Bumping? && |s.q.order| == WORD
    ensures |s.q.results| == |s.q.served| == WORD + 1 && s.q.results[WORD] && s.q.served[WORD] == s.writer.w
  {
    hide Reachable, Packed, High, Low, Slot, Due, Possible, After;
    var r := Rounds(WORD - 1);
    var a := OnePush(r, WORD - 1);
    WordTells(WORD, WORD - 1);
    var b := ToPop(a);
    var c := FillAndCarry(b);
    WordTells(WORD, WORD);
    var d := PopEnds(c);
    var e := ToPop(d);
    s := PopUnpublished(e);
  }

  /** Another push fills its slot, and then the last waiter before the carry is released. */
  lemma FillAndCarry(s: State) returns (r: State)
    requires Reachable(s) && OneLeft(s, WORD - 1) && s.flush == Pop(0, WORD - 1, true)
    ensures Reachable(r) && Still(r) && r.writer == Bumping(1) && r.flush == Pop(0, 0, true)
    ensures |r.q.order| == r.q.tail == WORD && r.q.word == Packed(WORD, WORD) && r.q.slots[0] == Some(1)
  {
    hide Reachable, Packed, High, Low;
    WordTells(WORD, WORD - 1);
    Next(s, Push(1));
    var a := Apply(s, Push(1));
    assert a.q.slots[0] == Some(1) && a.q.slots[Slot(WORD - 1)].Some?;
    PackedSteps(WORD, WORD - 1);
    Next(a, STEP);
    r := Apply(a, STEP);
  }

  lemma PopUnpublished(s: State) returns (r: State)
    requires Reachable(s) && Still(s) && s.writer == Bumping(1) && s.flush == Pop(1, 0, true)
    requires |s.q.order| == s.q.tail == WORD && s.q.slots[0] == Some(1)
    ensures Reachable(r) && r.writer.Bumping? && |r.q.order| == WORD
    ensures |r.q.results| == |r.q.served| == WORD + 1 && r.q.results[WORD] && r.q.served[WORD] == r.writer.w
  {
    var g := ReachableHolds(s);
    Next(s, STEP);
    r := Apply(s, STEP);
  }
}
