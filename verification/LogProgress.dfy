/**
  The flush loop gets its work done (internal/record/log_writer.go): left to itself, with writes and
  syncs that succeed, it releases every waiter without an error, writes all that was emitted, and only
  then sleeps or ends. Errors come from I/O only, and no block is lost.
 */
module LogProgress {
  import opened Common
  import opened LogFormat
  import opened LogFlush

  // ----- The loop on its own -----

  predicate CanGo(s: State, n: nat)
    decreases n
  {
    n == 0 || (Enabled(s, STEP) && CanGo(Apply(s, STEP), n - 1))
  }

  /** The state after n steps of the loop, nobody else moving. */
  function Gone(s: State, n: nat): State
    requires CanGo(s, n)
    decreases n
  {
    if n == 0 then s else Gone(Apply(s, STEP), n - 1)
  }

  /** Nothing has failed, and syncing is not held up. */
  predicate Well(s: State) { !Broken(s.ctl.bad, s.flush) && !s.ctl.blocked }

  /** So it is, and fewer than 2^32 waiters have come. */
  ghost predicate Fine(s: State) {
    Reachable(s) && Well(s) && |s.q.order| < WORD
  }

  predicate Sleeps(s: State) { s.flush.Asleep? && s.ctl.waiting }

  /** How many steps, at most, before the loop releases a waiter. */
  function Away(s: State): nat {
    var p := |s.pending|;
    match s.flush
    case Pop(h, t, _) => if h != t then 0 else 14 + p
    case PopErr(h, t) => 0
    case Sync(h, t) => if h != t then 1 else 14 + p
    case Tail(_, h, t) => if h != t then 2 else 15 + p
    case Blocks(pend, _, h, t) => if h != t then 3 + |pend| else 16 + |pend| + p
    case Data(pend, h, t) => if h != t then 4 + |pend| else 17 + |pend| + p
    case Load(pend) => 5 + |pend|
    case Grab => 6 + p
    case Decide(_) => 7 + p
    case Closing => 7 + p
    case Look => 8 + p
    case Asleep => 9 + p
    case Recheck => 10 + p
    case Unlocking => 11 + p
    case Register => 12 + p
    case Arming => 13 + p
    case Finish(_, _) => 13 + p
    case Exited => 0
  }

  /** What one step of the loop does as long as there is a waiter. */
  ghost predicate Nears(s: State, r: State) {
    && r.stream == s.stream && r.q.order == s.q.order && r.ctl.close == s.ctl.close && !Sleeps(r)
    && if r.q.tail == s.q.tail then r.q.results == s.q.results && Away(r) < Away(s)
       else r.q.tail == s.q.tail + 1 && r.q.results == s.q.results + [true]
  }

  /** A step of the loop, by what it is at. */
  function Onestep(s: State): State
    requires s.cur in s.blocks && |s.q.slots| == SLOTS && CanFlush(s)
  {
    if Pops(s.flush) then Popping(s) else if Writes(s.flush) then Flushing(s, true, [], false) else Looping(s)
  }

  lemma StepIs(s: State)
    requires s.cur in s.blocks && |s.q.slots| == SLOTS && CanFlush(s)
    ensures Enabled(s, STEP) && Apply(s, STEP) == Onestep(s)
  {
    hide Popping, Flushing, Looping;
  }

  lemma PopNears(s: State)
    requires |s.q.slots| == SLOTS && s.flush.Pop? && Well(s) && (s.flush.h != s.flush.t ==> s.q.slots[Slot(s.flush.t)].Some?)
    ensures Nears(s, Popping(s)) && Well(Popping(s))
  {
  }

  lemma WriteNears(s: State)
    requires CanFlush(s) && Writes(s.flush) && Well(s)
    ensures Nears(s, Flushing(s, true, [], false)) && Well(Flushing(s, true, [], false))
  {
  }

  lemma LoopNears(s: State)
    requires s.cur in s.blocks && CanFlush(s) && !Pops(s.flush) && !Writes(s.flush) && Well(s) && !Sleeps(s)
    requires High(s.q.word) != Low(s.q.word) && (s.flush.Data? ==> !s.ctl.bad) && Grabbed(s.pending, s.flush)
    ensures Nears(s, Looping(s)) && Well(Looping(s))
  {
    hide High, Low;
  }

  /** Awake, the loop can always take its next step. */
  lemma CanStep(s: State, g: nat)
    requires Inv(s, g) && !s.flush.Exited? && !Sleeps(s)
    ensures s.cur in s.blocks && |s.q.slots| == SLOTS && CanFlush(s) && Grabbed(s.pending, s.flush)
    ensures s.flush.PopErr? ==> s.ctl.bad
  {
    if s.flush.Blocks? && s.flush.pend != [] {
      var ids := [s.cur] + s.pending + Held(s.flush);
      assert ids[1 + |s.pending|] == s.flush.pend[0];
      assert InOrder(s.blocks[s.flush.pend[0]]);
    }
  }

  lemma StepNears(s: State)
    requires Fine(s) && s.q.tail < |s.q.order| && !Sleeps(s)
    ensures Enabled(s, STEP) && Nears(s, Apply(s, STEP)) && Fine(Apply(s, STEP))
  {
    hide Nears, Enabled, Apply, Popping, Flushing, Looping, High, Low, Slot, Due, Reachable;
    var g := ReachableHolds(s);
    CanStep(s, g);
    StepIs(s);
    QueueTells(s, g);
    if Writes(s.flush) {
      WriteNears(s);
    } else if Pops(s.flush) {
      if s.flush.h != s.flush.t {
        PopFinds(s, g);
      }
      PopNears(s);
    } else {
      LoopNears(s);
    }
    Next(s, STEP);
    NearsKeeps(s, Apply(s, STEP));
  }

  lemma NearsKeeps(s: State, r: State)
    requires Nears(s, r)
    ensures r.q.order == s.q.order
  {
  }

  /** Results of s are kept, and all later ones are good. */
  ghost predicate AddsGood(before: seq<bool>, after: seq<bool>) {
    |before| <= |after| && forall k :: 0 <= k < |after| ==> after[k] == if k < |before| then before[k] else true
  }

  /** Awake, the loop releases every waiter there is, without an error, if nobody disturbs it. */
  lemma {:induction false} WaitersAreServed(s: State) returns (n: nat)
    requires Fine(s) && !Sleeps(s)
    ensures CanGo(s, n) && Gone(s, n).q.order == s.q.order && Gone(s, n).q.tail == |s.q.order| == |Gone(s, n).q.results|
    ensures AddsGood(s.q.results, Gone(s, n).q.results)
    decreases |s.q.order| - s.q.tail, Away(s)
  {
    hide Reachable, Apply, Enabled, Away, Well;
    TailInOrder(s);
    n := 0;
    if s.q.tail < |s.q.order| {
      StepNears(s);
      var m := WaitersAreServed(Apply(s, STEP));
      n := m + 1;
    }
  }

  lemma TailInOrder(s: State)
    requires Reachable(s) && |s.q.order| < WORD
    ensures s.q.tail <= |s.q.order| && |s.q.results| == s.q.tail
  {
    var g := ReachableHolds(s);
  }

  // ----- Until the loop sleeps -----

  /** Something is to be written, or the loop is about to take it. */
  predicate Dirty(s: State) {
    || s.pending != [] || s.flush.Grab? || s.flush.Load? || s.flush.Data?
    || (s.cur in s.blocks && s.blocks[s.cur].flushed < s.blocks[s.cur].written)
  }

  /** The loop knows of all there is to do: what it saw is current, and it goes to sleep only with nothing to do. */
  predicate Aware(s: State) {
    && s.cur in s.blocks
    && (s.flush.Decide? ==> s.flush.seen == s.blocks[s.cur].written)
    && (s.flush.Register? || s.flush.Unlocking? || s.flush.Recheck? || s.flush.Asleep? ==> !Dirty(s) && s.q.tail == |s.q.order|)
    && (s.flush.Asleep? ==> s.ctl.waiting) && ((s.flush.Unlocking? || s.flush.Recheck?) ==> s.ctl.waiting)
  }

  /** How many steps, at most, before it sleeps, ends or has taken what is to be written. */
  function Left(s: State): nat {
    match s.flush
    case Exited => 0
    case Asleep => 0
    case Recheck => 1
    case Unlocking => 2
    case Register => 3
    case Closing => 3
    case Decide(_) => 4
    case Look => 5
    case Finish(_, _) => 6
    case Arming => 6
    case Pop(_, _, _) => 7
    case PopErr(_, _) => 7
    case Sync(_, _) => 8
    case Tail(_, _, _) => 9
    case Blocks(pend, _, _, _) => 10 + |pend|
    case Data(_, _, _) => 1
    case Load(_) => 2
    case Grab => 3
  }

  /** What one step of the loop does when no waiter is left. */
  ghost predicate Settles(s: State, r: State) {
    && r.stream == s.stream && r.q == s.q && r.ctl.close == s.ctl.close && Aware(r)
    && (Dirty(r) ==> Dirty(s)) && (Dirty(s) == Dirty(r) ==> Left(r) < Left(s))
  }

  lemma WriteSettles(s: State)
    requires CanFlush(s) && Writes(s.flush) && Well(s) && Aware(s) && (s.flush.Sync? ==> s.flush.h == s.flush.t)
    ensures Settles(s, Flushing(s, true, [], false)) && Well(Flushing(s, true, [], false))
  {
  }

  lemma LoopSettles(s: State)
    requires s.cur in s.blocks && CanFlush(s) && !Pops(s.flush) && !Writes(s.flush) && Well(s) && Aware(s) && s.q.tail == |s.q.order|
    requires !Sleeps(s) && High(s.q.word) == Low(s.q.word) && (s.flush.Data? ==> !s.ctl.bad) && Grabbed(s.pending, s.flush)
    requires s.flush.Closing? ==> s.pending == [] && s.blocks[s.cur].flushed == s.blocks[s.cur].written
    ensures Settles(s, Looping(s)) && Well(Looping(s))
  {
    hide High, Low;
  }

  lemma PopSettles(s: State)
    requires |s.q.slots| == SLOTS && s.flush.Pop? && Well(s) && Aware(s) && s.flush.h == s.flush.t
    ensures Settles(s, Popping(s)) && Well(Popping(s))
  {
  }

  lemma StepSettles(s: State)
    requires Fine(s) && Aware(s) && s.q.tail == |s.q.order| && !s.flush.Exited? && !Sleeps(s)
    ensures Enabled(s, STEP) && Settles(s, Apply(s, STEP)) && Fine(Apply(s, STEP))
  {
    hide Settles, Enabled, Apply, Popping, Flushing, Looping, High, Low, Slot, Reachable, Flow, Cover, Marks, Durable, Wake;
    var g := ReachableHolds(s);
    CanStep(s, g);
    StepIs(s);
    QueueTells(s, g);
    if Writes(s.flush) {
      WriteSettles(s);
    } else if Pops(s.flush) {
      PopSettles(s);
    } else {
      LoopSettles(s);
    }
    Next(s, STEP);
    SettlesKeeps(s, Apply(s, STEP));
  }

  lemma SettlesKeeps(s: State, r: State)
    requires Settles(s, r)
    ensures r.q == s.q
  {
  }

  lemma LoopAware(s: State)
    requires s.cur in s.blocks && CanFlush(s) && !Pops(s.flush) && !Writes(s.flush) && Aware(s) && !QueueEmpty(s) && s.q.tail != |s.q.order|
    ensures Aware(Looping(s))
  {
    hide High, Low;
  }

  lemma OthersAware(s: State)
    requires s.cur in s.blocks && CanFlush(s) && |s.q.slots| == SLOTS && Aware(s)
    ensures Writes(s.flush) ==> Aware(Flushing(s, true, [], false))
    ensures Pops(s.flush) ==> Aware(Popping(s))
  {
  }

  lemma StaysAware(s: State)
    requires Fine(s) && Aware(s) && s.q.tail < |s.q.order|
    ensures Enabled(s, STEP) && Aware(Apply(s, STEP))
  {
    hide Enabled, Apply, Popping, Flushing, Looping, High, Low, Slot, Due, Reachable;
    var g := ReachableHolds(s);
    CanStep(s, g);
    StepIs(s);
    QueueTells(s, g);
    if Writes(s.flush) || Pops(s.flush) {
      OthersAware(s);
    } else {
      LoopAware(s);
    }
  }

  /** Nothing is left to do when it sleeps or has ended. */
  lemma NothingLeft(s: State)
    requires Fine(s) && Aware(s) && s.q.tail == |s.q.order| && (s.flush.Exited? || Sleeps(s))
    ensures s.disk.file == s.stream
  {
    var g := ReachableHolds(s);
    OneTail(s.blocks, s.cur);
  }

  /**
    From its look at the state on, the loop writes all that has been emitted and releases every waiter
    without an error before it sleeps, or after Close ends, if nobody disturbs it.
   */
  lemma {:induction false} LoopFinishes(s: State) returns (n: nat)
    requires Fine(s) && Aware(s)
    ensures CanGo(s, n)
    ensures var r := Gone(s, n);
      && (if s.ctl.close then r.flush.Exited? else Sleeps(r)) && r.disk.file == s.stream == r.stream
      && r.q.order == s.q.order && r.q.tail == |s.q.order| == |r.q.results| && AddsGood(s.q.results, r.q.results)
    decreases |s.q.order| - s.q.tail, s.q.tail < |s.q.order| || Dirty(s), if s.q.tail < |s.q.order| then Away(s) else Left(s)
  {
    hide Reachable, Apply, Enabled, Away, Left, Well, Dirty;
    TailInOrder(s);
    n := 0;
    if s.q.tail < |s.q.order| {
      StepNears(s);
      StaysAware(s);
      var m := LoopFinishes(Apply(s, STEP));
      n := m + 1;
    } else if s.flush.Exited? || Sleeps(s) {
      NothingLeft(s);
      EndsAsTold(s);
    } else {
      StepSettles(s);
      var m := LoopFinishes(Apply(s, STEP));
      n := m + 1;
    }
  }

  lemma EndsAsTold(s: State)
    requires Reachable(s) && (s.flush.Exited? || Sleeps(s))
    ensures s.flush.Exited? <==> s.ctl.close
  {
    var g := ReachableHolds(s);
  }

  // ----- Errors and blocks -----

  /** No write and no sync fails. */
  predicate AllOk(events: seq<Event>) {
    forall i :: 0 <= i < |events| && events[i].Flush? ==> events[i].ok
  }

  ghost predicate Spotless(s: State) {
    !Broken(s.ctl.bad, s.flush) && forall k :: 0 <= k < |s.q.results| ==> s.q.results[k]
  }

  /** Only the loop serves waiters and meets errors. */
  lemma OtherEvents(s: State, e: Event)
    requires Enabled(s, e) && !e.Flush?
    ensures var r := Apply(s, e); r.flush == s.flush && r.ctl.bad == s.ctl.bad && r.q.results == s.q.results
  {
  }

  lemma PopSpotless(s: State)
    requires |s.q.slots| == SLOTS && Pops(s.flush) && Spotless(s) && (s.flush.PopErr? ==> s.ctl.bad)
    requires s.flush.h != s.flush.t ==> s.q.slots[Slot(s.flush.t)].Some?
    ensures Spotless(Popping(s))
  {
  }

  lemma WriteSpotless(s: State, part: Bytes, block: bool)
    requires CanFlush(s) && Writes(s.flush) && Spotless(s)
    ensures Spotless(Flushing(s, true, part, block))
  {
  }

  lemma LoopSpotless(s: State)
    requires s.cur in s.blocks && CanFlush(s) && !Pops(s.flush) && !Writes(s.flush) && Spotless(s)
    ensures Spotless(Looping(s))
  {
    hide High, Low;
  }

  lemma EventSpotless(s: State, e: Event)
    requires Reachable(s) && Spotless(s) && Enabled(s, e) && (e.Flush? ==> e.ok) && s.q.tail < WORD
    ensures Spotless(Apply(s, e))
  {
    hide Popping, Flushing, Looping, High, Low, Slot, Due, Reachable;
    var g := ReachableHolds(s);
    if !e.Flush? {
      OtherEvents(s, e);
    } else if Pops(s.flush) {
      if s.flush.h != s.flush.t {
        PopFinds(s, g);
      }
      PopSpotless(s);
    } else if Writes(s.flush) {
      WriteSpotless(s, e.part, e.block);
    } else {
      LoopSpotless(s);
    }
  }

  lemma {:induction false} RunSpotless(s: State, events: seq<Event>)
    requires Reachable(s) && Spotless(s) && Possible(s, events) && AllOk(events) && After(s, events).q.tail < WORD
    ensures Spotless(After(s, events))
    decreases |events|
  {
    hide Reachable, Apply, Enabled, Spotless;
    if events != [] {
      RunGrows(s, events);
      EventSpotless(s, events[0]);
      Next(s, events[0]);
      RunSpotless(Apply(s, events[0]), events[1..]);
    }
  }

  /** A waiter gets an error only if some write or sync failed, as long as fewer than 2^32 have been released. */
  lemma ErrorsAreIo(syncer: bool, events: seq<Event>, k: nat)
    requires Possible(Init(syncer), events) && AllOk(events)
    requires var q := After(Init(syncer), events).q; q.tail < WORD && k < |q.results|
    ensures After(Init(syncer), events).q.results[k]
  {
    assert Possible(Init(syncer), []) && Init(syncer) == After(Init(syncer), []);
    RunSpotless(Init(syncer), events);
  }

  /** As long as nothing failed, every block is the current one, waits to be written, is being written, or is free. */
  ghost predicate Pool(s: State) {
    !Broken(s.ctl.bad, s.flush) ==>
      forall i :: i in s.blocks ==> i == s.cur || i in s.pending || i in Held(s.flush) || i in s.free
  }

  lemma WritePool(s: State, ok: bool, part: Bytes, block: bool)
    requires CanFlush(s) && Writes(s.flush) && Pool(s) && !Broken(s.ctl.bad, s.flush)
    ensures Pool(Flushing(s, ok, part, block))
  {
  }

  lemma LoopPool(s: State)
    requires s.cur in s.blocks && CanFlush(s) && !Pops(s.flush) && !Writes(s.flush) && Pool(s) && !Broken(s.ctl.bad, s.flush)
    ensures Pool(Looping(s))
  {
    hide High, Low;
  }

  lemma EventPool(s: State, e: Event)
    requires Reachable(s) && Pool(s) && Enabled(s, e)
    ensures Pool(Apply(s, e))
  {
    hide Flushing, Looping, High, Low, Reachable;
    if Broken(s.ctl.bad, s.flush) {
      ErrorsStick(s, e);
    } else if e.Flush? && Writes(s.flush) {
      WritePool(s, e.ok, e.part, e.block);
    } else if e.Flush? && !Pops(s.flush) {
      LoopPool(s);
    }
  }

  lemma {:induction false} RunPool(s: State, events: seq<Event>)
    requires Reachable(s) && Pool(s) && Possible(s, events)
    ensures Pool(After(s, events))
    decreases |events|
  {
    hide Reachable, Apply, Enabled, Pool;
    if events != [] {
      EventPool(s, events[0]);
      Next(s, events[0]);
      RunPool(Apply(s, events[0]), events[1..]);
    }
  }

  lemma NoBlockIsLost(syncer: bool, events: seq<Event>)
    requires Possible(Init(syncer), events)
    ensures Pool(After(Init(syncer), events))
  {
    assert Possible(Init(syncer), []) && Init(syncer) == After(Init(syncer), []);
    RunPool(Init(syncer), events);
  }
}
