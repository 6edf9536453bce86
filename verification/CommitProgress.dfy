/**
  The publish loop of the commit pipeline (commit.go) gets its work done: a call that nobody disturbs
  comes to its wait, and by then has published every batch it took, up to the first that is not applied.
 */
module CommitProgress {
  import opened Common
  import opened CommitPipeline

  predicate CanGo(s: State, i: Id, n: nat)
    decreases n
  {
    n == 0 || (CanRun(s, i, false) && CanGo(Step(s, i, false), i, n - 1))
  }

  /** The state after n operations of call i, no other call moving. */
  function Gone(s: State, i: Id, n: nat): State
    requires CanGo(s, i, n)
    decreases n
  {
    if n == 0 then s else Gone(Step(s, i, false), i, n - 1)
  }

  /** The word is as it was loaded. */
  predicate Current(sh: Shared, h: nat, t: nat) { h == |sh.hist| && t == sh.tail }

  /** How many operations, at most, before call i waits or takes the next batch. */
  function Away(sh: Shared, pc: Pc): nat {
    match pc
    case AtSeq => 16
    case AtWrite => 15
    case AtApply => 14
    case AtFlag => 13
    case DqNil(_, _) => 12
    case RCas(_, cur) => if cur == sh.visible then 9 else 11
    case RLoad(_) => 10
    case RDone(_) => 8
    case DqLoad => 7
    case DqSlot(h, t) => if Current(sh, h, t) then 6 else 10
    case DqFlag(h, t, _) => if Current(sh, h, t) then 5 else 9
    case DqCas(h, t, _) => if Current(sh, h, t) then 4 else 8
    case _ => 0
  }

  /** The call has its place in the queue, and what it goes by is the front of the queue. */
  predicate Ahead(sh: Shared, pc: Pc) {
    && Busy(pc) && (!Flagged(pc) || Watching(sh.tail, pc))
    && (match pc case DqSlot(h, _) => |sh.hist| < h + WORD case DqFlag(h, _, _) => |sh.hist| < h + WORD case DqCas(h, _, _) => |sh.hist| < h + WORD case _ => true)
  }

  /** What one operation does: nearer to the wait, or a batch taken. */
  ghost predicate Nears(s: State, r: State, i: Id) {
    && i in s.pc && i in r.pc && r.sh.hist == s.sh.hist && s.sh.published <= r.sh.published
    && (r.pc[i] == AtWait || Ahead(r.sh, r.pc[i]))
    && (if r.sh.tail == s.sh.tail then Away(r.sh, r.pc[i]) < Away(s.sh, s.pc[i])
        else r.sh.tail == s.sh.tail + 1 <= |s.sh.hist| && Finishing(r.pc[i], s.sh.hist[s.sh.tail]))
    && (forall b :: Finishing(s.pc[i], b) ==> Finishing(r.pc[i], b) || b in r.sh.published)
  }

  lemma EarlyNears(s: State, i: Id)
    requires CanRun(s, i, false) && Ahead(s.sh, s.pc[i]) && !Flagged(s.pc[i])
    ensures Nears(s, Step(s, i, false), i)
  {
    hide Sized, Names;
  }

  lemma LoopNears(s: State, i: Id)
    requires CanRun(s, i, false) && Ahead(s.sh, s.pc[i]) && (s.pc[i].DqLoad? || s.pc[i].DqSlot? || s.pc[i].DqFlag?)
    ensures Nears(s, Step(s, i, false), i)
  {
    hide Names;
  }

  lemma PublishNears(s: State, i: Id)
    requires CanRun(s, i, false) && (s.pc[i].DqNil? || s.pc[i].RLoad? || s.pc[i].RCas? || s.pc[i].RDone?)
    ensures Nears(s, Step(s, i, false), i)
  {
  }

  lemma SwapNears(s: State, i: Id, h: nat, t: nat, b: Id)
    requires i in s.pc && s.pc[i] == DqCas(h, t, b) && t == s.sh.tail < |s.sh.hist| && s.sh.hist[t] == b
    ensures Nears(s, Moved(s, i, DqNil(t, b), s.sh.(tail := s.sh.tail + 1)), i)
  {
  }

  lemma RetryNears(s: State, i: Id, h: nat, t: nat, b: Id)
    requires i in s.pc && s.pc[i] == DqCas(h, t, b) && !Current(s.sh, h, t)
    ensures Nears(s, At(s, i, DqLoad), i)
  {
  }

  lemma TakeKnows(s: State, i: Id, h: nat, t: nat, b: Id)
    requires Base(s) && i in s.pc && s.pc[i] == DqCas(h, t, b)
    ensures Loaded(s.sh, h, t) && (t == s.sh.tail ==> b == s.sh.hist[t])
  {
    assert CallOk(s.sh, i, s.pc[i]);
  }

  lemma TakeNears(s: State, i: Id, h: nat, t: nat, b: Id)
    requires Base(s) && CanRun(s, i, false) && s.pc[i] == DqCas(h, t, b)
    ensures Nears(s, Step(s, i, false), i)
  {
    hide Step, Base, Nears;
    TakeKnows(s, i, h, t, b);
    DequeueIs(s, i, h, t, b);
    if Current(s.sh, h, t) {
      SwapNears(s, i, h, t, b);
    } else {
      RetryNears(s, i, h, t, b);
    }
  }

  lemma StepNears(s: State, i: Id)
    requires Base(s) && i in s.pc && Ahead(s.sh, s.pc[i])
    ensures CanRun(s, i, false) && Nears(s, Step(s, i, false), i)
    ensures var r := Step(s, i, false); r.pc[i] == AtWait ==> r.sh.tail <= |r.sh.hist| && (r.sh.tail == |r.sh.hist| || r.sh.hist[r.sh.tail] !in r.sh.applied)
  {
    hide Nears, Step, Agreed, Calls;
    CanAlways(s, i);
    if Step(s, i, false).pc[i] == AtWait {
      FrontIsOpen(s, i);
    }
    match s.pc[i]
    case DqCas(h, t, b) => TakeNears(s, i, h, t, b);
    case DqLoad => LoopNears(s, i);
    case DqSlot(_, _) => LoopNears(s, i);
    case DqFlag(_, _, _) => LoopNears(s, i);
    case DqNil(_, _) => PublishNears(s, i);
    case RLoad(_) => PublishNears(s, i);
    case RCas(_, _) => PublishNears(s, i);
    case RDone(_) => PublishNears(s, i);
    case _ => EarlyNears(s, i);
  }

  lemma CanAlways(s: State, i: Id)
    requires Base(s) && i in s.pc && Ahead(s.sh, s.pc[i])
    ensures CanRun(s, i, false)
  {
    hide Queue, Numbers, Ratchet;
    BusyRuns(s, i);
    assert CallOk(s.sh, i, s.pc[i]) && Agrees(s.sh, i, s.pc[i]);
  }

  /** The loop ends only before a batch that is not applied. */
  lemma FrontIsOpen(s: State, i: Id)
    requires Base(s) && CanRun(s, i, false) && Ahead(s.sh, s.pc[i]) && Step(s, i, false).pc[i] == AtWait
    ensures var r := Step(s, i, false); r.sh.tail <= |r.sh.hist| && (r.sh.tail == |r.sh.hist| || r.sh.hist[r.sh.tail] !in r.sh.applied)
  {
    if s.sh.tail < |s.sh.hist| && s.sh.hist[s.sh.tail] in s.sh.applied {
      WatcherStays(s, i, false);
    }
  }

  /**
    Left alone, a call in the publish loop, or on its way there, comes to its wait: the batches it took off the
    queue are then all published, and the front of the queue is a batch that is not applied, or there is none.
   */
  lemma PublishDrains(s: State, i: Id) returns (n: nat)
    requires Reachable(s) && i in s.pc && Ahead(s.sh, s.pc[i])
    ensures CanGo(s, i, n)
    ensures var r := Gone(s, i, n);
      && i in r.pc && r.pc[i] == AtWait && r.sh.hist == s.sh.hist && s.sh.tail <= r.sh.tail <= |r.sh.hist|
      && (r.sh.tail == |r.sh.hist| || r.sh.hist[r.sh.tail] !in r.sh.applied)
      && (forall k :: s.sh.tail <= k < r.sh.tail ==> r.sh.hist[k] in r.sh.published)
  {
    ReachableHolds(s);
    n := Drains(s, i);
  }

  lemma {:induction false} Drains(s: State, i: Id) returns (n: nat)
    requires Inv(s) && i in s.pc && Ahead(s.sh, s.pc[i])
    ensures CanGo(s, i, n)
    ensures var r := Gone(s, i, n);
      && i in r.pc && r.pc[i] == AtWait && r.sh.hist == s.sh.hist && s.sh.tail <= r.sh.tail <= |r.sh.hist| && s.sh.published <= r.sh.published
      && (r.sh.tail == |r.sh.hist| || r.sh.hist[r.sh.tail] !in r.sh.applied)
      && (forall k :: s.sh.tail <= k < r.sh.tail ==> r.sh.hist[k] in r.sh.published)
      && (forall b :: Finishing(s.pc[i], b) ==> b in r.sh.published)
    decreases |s.sh.hist| - s.sh.tail, Away(s.sh, s.pc[i])
  {
    hide Step, CanRun, Away, Ahead, Base, Traced, NoneDropped, FrontWatched, OneClears;
    StepNears(s, i);
    EventKeeps(s, Run(i, false));
    var r := Step(s, i, false);
    n := 1;
    if r.pc[i] != AtWait {
      var m := Drains(r, i);
      n := m + 1;
    }
  }
}
