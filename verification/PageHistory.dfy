/**
  Where the pages of bdb come from and go: the transaction recorded for a freed page is the one that
  took it from the free set, so pages come back as early as they may, and none is lost.
 */
module PageHistory {
  import opened PageIds
  import opened SpanIndex
  import opened Freelist
  import opened Mvcc

  /**
    What happened to the pages, apart from what the freelist notes: the transaction that last
    allocated each, and which of them came from the free set since the database was opened.
   */
  datatype Past = Past(birth: map<Pgid, Txid>, kept: set<Pgid>)

  ghost function Took(s: State, h: Past, n: int, start: Pgid): Past
    requires s.writer.Writer?
  {
    var run := Range(start, n);
    Past(h.birth + (map p | p in run :: s.writer.txid), if HasRun(s.free, n) then h.kept + run else h.kept - run)
  }

  ghost function Remember(s: State, h: Past, e: Event): Past
    requires Enabled(s, e)
  {
    match e
    case Allocate(n, start) => Took(s, h, n, start)
    case Commit(n, start) => Took(Unlink(s), h, n, start)
    case Fail(at, _) => (match at case Unwritten(n, start) => Took(Unlink(s), h, n, start) case _ => h)
    case Reopen => Past(h.birth, {})
    case _ => h
  }

  // ----- The freelist's notes agree with the past -----

  /** The entry of page p names the transaction that allocated p, and does so if p came from the free set. */
  ghost predicate Exact(h: Past, p: Pgid, allocTx: Txid) {
    && (allocTx != 0 ==> p in h.birth && h.birth[p] == allocTx)
    && (p in h.kept ==> allocTx != 0)
  }

  ghost predicate PendExact(pend: map<Pgid, Pend>, h: Past) {
    forall p :: p in pend ==> Exact(h, p, pend[p].allocTx)
  }

  function Noted(allocs: map<Pgid, Txid>, r: Pgid): Txid { if r in allocs then allocs[r] else 0 }

  ghost predicate RunsExact(runs: map<Pgid, int>, allocs: map<Pgid, Txid>, h: Past) {
    forall r, p :: r in runs && Within(p, r, runs[r]) ==> Exact(h, p, Noted(allocs, r))
  }

  /** The last commit has no younger page, and its freelist run is its own. */
  ghost predicate BornBefore(c: Com, h: Past) {
    && (forall p :: p in h.birth ==> 1 <= h.birth[p] <= c.last + 1)
    && (forall p :: Covered(LastSnap(c).runs, p) && p in h.birth ==> h.birth[p] <= c.last)
    && (HasFreelist(c) && LastSnap(c).freelist in LastSnap(c).runs ==>
          forall p :: Within(p, LastSnap(c).freelist, LastSnap(c).runs[LastSnap(c).freelist]) ==> p in h.birth && h.birth[p] == c.last)
  }

  /** A page below the last commit's mark that is not in it, but in a run of the writer or freed by it, came from the free set. */
  ghost predicate OwnKept(s: State, h: Past)
    requires s.writer.Writer?
  {
    forall p :: p < LastSnap(s.com).hw && !Covered(LastSnap(s.com).runs, p) && OfWriter(s, p) ==>
      p in h.kept && p in h.birth && h.birth[p] == s.writer.txid
  }

  ghost predicate OfWriter(s: State, p: Pgid)
    requires s.writer.Writer?
  {
    Covered(s.writer.runs, p) || (p in s.pend && s.pend[p].freeTx == s.writer.txid)
  }

  ghost predicate Recalled(s: State, h: Past) {
    PendExact(s.pend, h) && RunsExact(Cur(s), s.allocs, h) && BornBefore(s.com, h) && (s.writer.Writer? ==> OwnKept(s, h))
  }

  lemma TookIs(s: State, h: Past, n: int, start: Pgid)
    requires s.writer.Writer?
    ensures var h' := Took(s, h, n, start);
      && (forall p :: Within(p, start, n) ==> p in h'.birth && h'.birth[p] == s.writer.txid && (p in h'.kept <==> HasRun(s.free, n)))
      && (forall p :: !Within(p, start, n) ==> (p in h'.birth <==> p in h.birth) && (p in h'.kept <==> p in h.kept))
      && (forall p :: !Within(p, start, n) && p in h.birth ==> h'.birth[p] == h.birth[p])
  {
  }

  /** Pages that were not allocated are remembered as before. */
  lemma ExactStays(h: Past, h': Past, p: Pgid, a: Txid)
    requires Exact(h, p, a) && (p in h'.birth <==> p in h.birth) && (p in h'.kept <==> p in h.kept)
    requires p in h.birth ==> h'.birth[p] == h.birth[p]
    ensures Exact(h', p, a)
  {
  }

  lemma AllocateRecalls(s: State, h: Past, n: int, start: Pgid)
    requires Core(s) && CanAllocate(s, n, start) && Recalled(s, h)
    ensures Recalled(DoAllocate(s, n, start), Took(s, h, n, start))
  {
    var s', h' := DoAllocate(s, n, start), Took(s, h, n, start);
    AllocateKeeps(s, n, start);
    TookIs(s, h, n, start);
    assert PendExact(s'.pend, h') by {
      forall p | p in s.pend
        ensures Exact(h', p, s.pend[p].allocTx)
      {
        ExactStays(h, h', p, s.pend[p].allocTx);
      }
    }
    AllocateRuns(s, h, n, start);
    assert forall p :: Covered(LastSnap(s.com).runs, p) ==> Used(s.com, s.com.last, p);
    AllocateBorn(s, h, n, start);
    AllocateOwn(s, h, n, start);
  }

  lemma AllocateOwn(s: State, h: Past, n: int, start: Pgid)
    requires Core(s) && CanAllocate(s, n, start) && NewRun(s, n, start) && start !in s.writer.runs && OwnKept(s, h)
    ensures OwnKept(DoAllocate(s, n, start), Took(s, h, n, start))
  {
    TookIs(s, h, n, start);
    AddRunCovers(s.writer.runs, start, n);
    forall p | p in s.pend
      ensures !Within(p, start, n)
    {
    }
  }

  lemma AllocateRuns(s: State, h: Past, n: int, start: Pgid)
    requires Core(s) && CanAllocate(s, n, start) && NewRun(s, n, start) && RunsExact(s.writer.runs, s.allocs, h)
    ensures RunsExact(DoAllocate(s, n, start).writer.runs, DoAllocate(s, n, start).allocs, Took(s, h, n, start))
  {
    var s', h' := DoAllocate(s, n, start), Took(s, h, n, start);
    TookIs(s, h, n, start);
    forall r, p | r in s'.writer.runs && Within(p, r, s'.writer.runs[r])
      ensures Exact(h', p, Noted(s'.allocs, r))
    {
      if r != start {
        assert Covered(s.writer.runs, p);
        ExactStays(h, h', p, Noted(s.allocs, r));
      }
    }
  }

  lemma AllocateBorn(s: State, h: Past, n: int, start: Pgid)
    requires WriterOk(s) && ComOk(s.com) && s.writer.Writer? && NewRun(s, n, start) && BornBefore(s.com, h)
    requires forall p :: Covered(LastSnap(s.com).runs, p) ==> Used(s.com, s.com.last, p)
    ensures BornBefore(s.com, Took(s, h, n, start))
  {
    TookIs(s, h, n, start);
    var fl := LastSnap(s.com).freelist;
    assert fl in LastSnap(s.com).runs ==> forall p :: Within(p, fl, LastSnap(s.com).runs[fl]) ==> Covered(LastSnap(s.com).runs, p);
  }

  lemma FreeRecalls(s: State, h: Past, run: Pgid, isFreelistPage: bool)
    requires Core(s) && FreelistKept(s) && CanFree(s, run, isFreelistPage) && Recalled(s, h)
    ensures Recalled(DoFree(s, run, isFreelistPage), h)
    ensures isFreelistPage ==> forall p :: Within(p, run, s.writer.runs[run]) ==>
      p in h.birth && DoFree(s, run, true).pend[p] == Pend(s.writer.txid, h.birth[p])
  {
    var s' := DoFree(s, run, isFreelistPage);
    var a := AllocTx(s.allocs, s.writer.txid, run, isFreelistPage);
    forall p | Within(p, run, s.writer.runs[run])
      ensures Exact(h, p, a) && (isFreelistPage ==> a != 0)
    {
      assert Exact(h, p, Noted(s.allocs, run));
    }
    forall r, p | r in s'.writer.runs && Within(p, r, s'.writer.runs[r])
      ensures Exact(h, p, Noted(s'.allocs, r))
    {
      assert r in s.writer.runs && r != run;
    }
    FreeOwn(s, h, run, isFreelistPage);
  }

  lemma FreeOwn(s: State, h: Past, run: Pgid, isFreelistPage: bool)
    requires WriterOk(s) && CanFree(s, run, isFreelistPage) && OwnKept(s, h)
    ensures OwnKept(DoFree(s, run, isFreelistPage), h)
  {
    var s' := DoFree(s, run, isFreelistPage);
    DropRunCovers(s.writer.runs, s.writer.hw, run);
    assert forall p :: OfWriter(s', p) ==> OfWriter(s, p);
  }

  lemma RollbackRecalls(s: State, h: Past)
    requires Core(s) && s.writer.Writer? && Recalled(s, h)
    ensures Recalled(DoRollback(s), h)
  {
    var s', runs := DoRollback(s), LastSnap(s.com).runs;
    forall r, p | r in runs && Within(p, r, runs[r])
      ensures Exact(h, p, Noted(s'.allocs, r))
    {
      assert Within(r, r, runs[r]) && Covered(runs, r) && Covered(runs, p);
      if WhollyFreed(s, r, runs[r], s.writer.txid) {
        assert Exact(h, p, s.pend[p].allocTx) && Exact(h, r, s.pend[r].allocTx);
        assert PendOk(s, r, s.pend[r]);
      } else {
        assert Covered(s.writer.runs, r) && Exact(h, p, Noted(s.allocs, r));
        assert r !in s.pend;
      }
    }
  }

  lemma PublishRecalls(s: State, h: Past, fl: Pgid, disk: set<Pgid>)
    requires WriterOk(s) && s.writer.Writer? && Recalled(s, h)
    requires fl == NO_FREELIST || (fl in s.writer.runs && forall p :: Within(p, fl, s.writer.runs[fl]) ==> p in h.birth && h.birth[p] == s.writer.txid)
    ensures Recalled(DoPublish(s, fl, disk), h)
  {
    var s' := DoPublish(s, fl, disk);
    assert LastSnap(s'.com) == Snap(s.writer.runs, fl, s.writer.hw);
  }

  lemma UnlinkRecalls(s: State, h: Past)
    requires Inv(s) && CanUnlink(s) && Recalled(s, h)
    ensures Recalled(Unlink(s), h)
  {
    if HasFreelist(s.com) {
      FreeRecalls(s, h, LastSnap(s.com).freelist, true);
    }
  }

  lemma CommitRecalls(s: State, h: Past, n: int, start: Pgid)
    requires Inv(s) && Enabled(s, Commit(n, start)) && Recalled(s, h)
    ensures Recalled(Apply(s, Commit(n, start)), Took(Unlink(s), h, n, start))
  {
    var s1 := Unlink(s);
    UnlinkKeeps(s);
    UnlinkRecalls(s, h);
    AllocateKeeps(s1, n, start);
    AllocateRecalls(s1, h, n, start);
    TookIs(s1, h, n, start);
    PublishRecalls(DoAllocate(s1, n, start), Took(s1, h, n, start), start, s1.free + s1.pend.Keys - Range(start, n));
  }

  lemma FailRecalls(s: State, h: Past, at: Failure, isMap: bool)
    requires Inv(s) && CanFail(s, at) && Recalled(s, h)
    ensures Recalled(DoFail(s, at, isMap), if at.Unwritten? then Took(Unlink(s), h, at.n, at.start) else h)
  {
    BegunKeeps(s, at);
    if !at.Spilling? {
      UnlinkKeeps(s);
      UnlinkRecalls(s, h);
    }
    var h' := if at.Unwritten? then Took(Unlink(s), h, at.n, at.start) else h;
    if at.Unwritten? {
      AllocateRecalls(Unlink(s), h, at.n, at.start);
    }
    RollbackRecalls(Begun(s, at), h');
  }

  lemma EventRecalls(s: State, h: Past, e: Event)
    requires Inv(s) && Enabled(s, e) && Recalled(s, h)
    ensures Recalled(Apply(s, e), Remember(s, h, e))
  {
    hide Recalled;
    match e
    case Allocate(n, start) => AllocateRecalls(s, h, n, start);
    case Free(run) => FreeRecalls(s, h, run, false);
    case Commit(n, start) => CommitRecalls(s, h, n, start);
    case CommitUnsynced =>
      UnlinkKeeps(s);
      UnlinkRecalls(s, h);
      PublishRecalls(Unlink(s), h, NO_FREELIST, {});
    case Rollback => RollbackRecalls(s, h);
    case Fail(at, isMap) => FailRecalls(s, h, at, isMap);
    case BeginWrite => BeginRecalls(s, h);
    case _ => OthersRecall(s, h, e);
  }

  lemma OthersRecall(s: State, h: Past, e: Event)
    requires Recalled(s, h) && Enabled(s, e) && (e.BeginRead? || e.EndRead? || e.Reopen?)
    ensures Recalled(Apply(s, e), Remember(s, h, e))
  {
  }

  lemma BeginRecalls(s: State, h: Past)
    requires Inv(s) && Enabled(s, BeginWrite) && Recalled(s, h)
    ensures Recalled(Apply(s, BeginWrite), h)
  {
    forall p | p in s.pend
      ensures s.pend[p].freeTx <= s.com.last
    {
      assert PendOk(s, p, s.pend[p]);
    }
  }

  // ----- Whole runs -----

  ghost function PastAfter(s: State, h: Past, es: seq<Event>): Past
    requires Runnable(s, es)
    decreases |es|
  {
    if es == [] then h else PastAfter(Apply(s, es[0]), Remember(s, h, es[0]), es[1..])
  }

  lemma {:induction false} RunRecalls(s: State, h: Past, es: seq<Event>)
    requires Inv(s) && Recalled(s, h) && Runnable(s, es)
    ensures Inv(After(s, es)) && Recalled(After(s, es), PastAfter(s, h, es))
    decreases |es|
  {
    if es != [] {
      EventKeeps(s, es[0]);
      EventRecalls(s, h, es[0]);
      RunRecalls(Apply(s, es[0]), Remember(s, h, es[0]), es[1..]);
    }
  }

  /** All that is known of a database just opened: its last transaction wrote its freelist. */
  ghost function FirstPast(s: State): Past {
    var last := LastSnap(s.com);
    Past(if last.freelist in last.runs then map p | p in Range(last.freelist, last.runs[last.freelist]) :: s.com.last else map[], {})
  }

  lemma FirstRecalled(s: State)
    requires Init(s)
    ensures Inv(s) && Recalled(s, FirstPast(s))
  {
    InitInv(s);
  }

  /** The event does not allocate page p, and the database stays open. */
  ghost predicate Spares(e: Event, p: Pgid) {
    match e
    case Allocate(n, start) => !Within(p, start, n)
    case Commit(n, start) => !Within(p, start, n)
    case Fail(at, _) => at.Unwritten? ==> !Within(p, at.start, at.n)
    case Reopen => false
    case _ => true
  }

  ghost predicate AllSpare(es: seq<Event>, p: Pgid) {
    forall i :: 0 <= i < |es| ==> Spares(es[i], p)
  }

  lemma {:induction false} SparedIsKept(s: State, h: Past, es: seq<Event>, p: Pgid)
    requires Runnable(s, es) && AllSpare(es, p) && p in h.kept && p in h.birth
    ensures var h' := PastAfter(s, h, es); p in h'.kept && p in h'.birth && h'.birth[p] == h.birth[p]
    decreases |es|
  {
    if es != [] {
      assert Spares(es[0], p);
      var h1 := Remember(s, h, es[0]);
      assert p in h1.kept && p in h1.birth && h1.birth[p] == h.birth[p];
      SparedIsKept(Apply(s, es[0]), h1, es[1..], p);
    }
  }

  /**
    A page that transaction t took from the free set, and that was not allocated again before
    transaction u frees a run with it, is pending as exactly allocated by t and freed by u.
   */
  lemma FreedExactly(s0: State, es: seq<Event>, n: int, start: Pgid, on: seq<Event>, run: Pgid, p: Pgid)
    requires Init(s0) && Runnable(s0, es)
    requires var s := After(s0, es); HasRun(s.free, n) && CanAllocate(s, n, start) && Within(p, start, n)
    requires var s1 := Apply(After(s0, es), Allocate(n, start)); Runnable(s1, on) && AllSpare(on, p)
    requires var s2 := After(Apply(After(s0, es), Allocate(n, start)), on); Enabled(s2, Free(run)) && Within(p, run, s2.writer.runs[run])
    ensures var s, s2 := After(s0, es), After(Apply(After(s0, es), Allocate(n, start)), on);
      var s3 := Apply(s2, Free(run));
      p in s3.pend && s3.pend[p] == Pend(s2.writer.txid, s.writer.txid)
  {
    var s, h := After(s0, es), PastAfter(s0, FirstPast(s0), es);
    FirstRecalled(s0);
    RunRecalls(s0, FirstPast(s0), es);
    var s1, h1 := Apply(s, Allocate(n, start)), Took(s, h, n, start);
    EventKeeps(s, Allocate(n, start));
    AllocateRecalls(s, h, n, start);
    TookIs(s, h, n, start);
    RunRecalls(s1, h1, on);
    SparedIsKept(s1, h1, on, p);
    FreedFrom(After(s1, on), PastAfter(s1, h1, on), run, p);
  }

  lemma FreedFrom(s: State, h: Past, run: Pgid, p: Pgid)
    requires Enabled(s, Free(run)) && Within(p, run, s.writer.runs[run]) && p in h.kept && p in h.birth && Inv(s) && Recalled(s, h)
    ensures var s' := Apply(s, Free(run)); p in s'.pend && s'.pend[p] == Pend(s.writer.txid, h.birth[p])
  {
    assert Exact(h, p, Noted(s.allocs, run));
  }

  /** Such a page is free again at the first begin-write at which no reader is between t and u, and not before. */
  lemma FreedIsReleased(s0: State, es: seq<Event>, p: Pgid)
    requires Init(s0) && Runnable(s0, es) && Enabled(After(s0, es), BeginWrite)
    requires p in After(s0, es).pend && p in PastAfter(s0, FirstPast(s0), es).kept
    ensures var s, h := After(s0, es), PastAfter(s0, FirstPast(s0), es);
      p in h.birth && (p in Apply(s, BeginWrite).free <==> forall r :: r in s.com.readers ==> r < h.birth[p] || s.pend[p].freeTx < r)
  {
    FirstRecalled(s0);
    RunRecalls(s0, FirstPast(s0), es);
    var s, h := After(s0, es), PastAfter(s0, FirstPast(s0), es);
    assert Exact(h, p, s.pend[p].allocTx);
  }

  /** A page that the transaction itself took from the free set and freed is free again after its rollback. */
  lemma FreedIsUndone(s0: State, es: seq<Event>, p: Pgid)
    requires Init(s0) && Runnable(s0, es) && Enabled(After(s0, es), Rollback)
    requires p in After(s0, es).pend && p in PastAfter(s0, FirstPast(s0), es).kept
    requires var s := After(s0, es); s.pend[p].freeTx == s.writer.txid
    ensures var s, h := After(s0, es), PastAfter(s0, FirstPast(s0), es);
      p in h.birth && (p in Apply(s, Rollback).free <==> h.birth[p] == s.writer.txid)
  {
    FirstRecalled(s0);
    RunRecalls(s0, FirstPast(s0), es);
    var s, h := After(s0, es), PastAfter(s0, FirstPast(s0), es);
    assert Exact(h, p, s.pend[p].allocTx) && PendOk(s, p, s.pend[p]);
  }

  // ----- No page is lost -----

  function HighWater(s: State): Pgid { if s.writer.Writer? then s.writer.hw else LastSnap(s.com).hw }

  /** Every page is free, pending or in a run. */
  ghost predicate Whole(s: State) {
    forall p :: 2 <= p < HighWater(s) ==> p in s.free || p in s.pend || Covered(Cur(s), p)
  }

  /** Every page of the last commit is in a run or written out as free. */
  ghost predicate DiskWhole(s: State) {
    forall p :: HasFreelist(s.com) && 2 <= p < LastSnap(s.com).hw ==> p in s.disk || Covered(LastSnap(s.com).runs, p)
  }

  /** The writer holds a page that it took from the free set. */
  ghost predicate Holding(s: State) {
    s.writer.Writer? && exists p :: p < LastSnap(s.com).hw && Covered(s.writer.runs, p) && !Covered(LastSnap(s.com).runs, p)
  }

  lemma AllocateWhole(s: State, n: int, start: Pgid)
    requires Core(s) && CanAllocate(s, n, start) && Whole(s)
    ensures Whole(DoAllocate(s, n, start))
  {
    AllocateKeeps(s, n, start);
    AddRunCovers(s.writer.runs, start, n);
  }

  lemma FreeWhole(s: State, run: Pgid, isFreelistPage: bool)
    requires WriterOk(s) && CanFree(s, run, isFreelistPage) && Whole(s)
    ensures Whole(DoFree(s, run, isFreelistPage))
  {
    DropRunCovers(s.writer.runs, s.writer.hw, run);
  }

  lemma UnlinkWhole(s: State)
    requires Inv(s) && CanUnlink(s) && Whole(s)
    ensures Whole(Unlink(s))
  {
    if HasFreelist(s.com) {
      FreeWhole(s, LastSnap(s.com).freelist, true);
    }
  }

  /** A commit with its freelist writes out as free exactly what is not in a run. */
  lemma CommitWhole(s: State, n: int, start: Pgid)
    requires Inv(s) && Enabled(s, Commit(n, start)) && Whole(s)
    ensures Whole(Apply(s, Commit(n, start))) && DiskWhole(Apply(s, Commit(n, start)))
  {
    hide Whole, DiskWhole, Covered;
    var s1 := Unlink(s);
    UnlinkKeeps(s);
    UnlinkWhole(s);
    AllocateKeeps(s1, n, start);
    AllocateWhole(s1, n, start);
    CommitDisk(s1, n, start);
    PublishWhole(DoAllocate(s1, n, start), start, s1.free + s1.pend.Keys - Range(start, n));
  }

  /** What is written out as free is what is free or pending once the new freelist run is allocated. */
  lemma CommitDisk(s: State, n: int, start: Pgid)
    requires ComOk(s.com) && WriterOk(s) && FreeSafe(s) && CanAllocate(s, n, start) && NewRun(s, n, start)
    ensures var s' := DoAllocate(s, n, start); s'.free + s'.pend.Keys == s.free + s.pend.Keys - Range(start, n)
  {
    if !HasRun(s.free, n) {
      assert forall p :: p in s.free ==> !Within(p, start, n);
    }
  }

  lemma PublishWhole(s: State, fl: Pgid, disk: set<Pgid>)
    requires s.writer.Writer? && Whole(s) && (fl != NO_FREELIST ==> s.free + s.pend.Keys <= disk)
    ensures Whole(DoPublish(s, fl, disk)) && DiskWhole(DoPublish(s, fl, disk))
  {
    assert LastSnap(DoPublish(s, fl, disk).com) == Snap(s.writer.runs, fl, s.writer.hw);
  }

  /** A rollback loses pages if and only if the transaction holds some it took from the free set. */
  lemma RollbackWhole(s: State, h: Past)
    requires Core(s) && Recalled(s, h) && s.writer.Writer? && Whole(s)
    ensures Whole(DoRollback(s)) <==> !Holding(s)
  {
    var s', runs := DoRollback(s), LastSnap(s.com).runs;
    forall p | p in s.pend && p < LastSnap(s.com).hw
      ensures p in s'.free || p in s'.pend || Covered(runs, p)
    {
      assert Exact(h, p, s.pend[p].allocTx);
      assert s.pend[p].freeTx == s.writer.txid ==> OfWriter(s, p);
    }
    if Holding(s) {
      var p :| p < LastSnap(s.com).hw && Covered(s.writer.runs, p) && !Covered(runs, p);
      assert p in s.pend ==> PendOk(s, p, s.pend[p]);
      assert 2 <= p && p !in s'.free && p !in s'.pend;
    }
  }

  lemma FailWhole(s: State, at: Failure, isMap: bool)
    requires Inv(s) && Enabled(s, Fail(at, isMap)) && DiskWhole(s)
    ensures Whole(Apply(s, Fail(at, isMap)))
  {
    BegunKeeps(s, at);
    var r := DoRollback(Begun(s, at));
    forall p | 2 <= p < LastSnap(s.com).hw && !Covered(LastSnap(s.com).runs, p)
      ensures p in Reloads(r, isMap) || p in r.pend
    {
      assert p in Listed(r);
    }
  }

  lemma EventWhole(s: State, h: Past, e: Event)
    requires Inv(s) && Enabled(s, e) && Recalled(s, h) && Whole(s) && DiskWhole(s)
    ensures Whole(Apply(s, e)) && DiskWhole(Apply(s, e)) <==> !(e.Rollback? && Holding(s))
  {
    match e
    case Allocate(n, start) => AllocateWhole(s, n, start);
    case Free(run) => FreeWhole(s, run, false);
    case Commit(n, start) => CommitWhole(s, n, start);
    case CommitUnsynced =>
      UnlinkWhole(s);
      PublishWhole(Unlink(s), NO_FREELIST, {});
    case Rollback => RollbackWhole(s, h);
    case Fail(at, isMap) =>
      BegunKeeps(s, at);
      FailWhole(s, at, isMap);
    case _ =>
  }

  /** No rollback of the run throws away pages its transaction took from the free set. */
  ghost predicate Clean(s: State, es: seq<Event>)
    requires Runnable(s, es)
    decreases |es|
  {
    es == [] || (!(es[0].Rollback? && Holding(s)) && Clean(Apply(s, es[0]), es[1..]))
  }

  lemma {:induction false} RunWhole(s: State, h: Past, es: seq<Event>)
    requires Inv(s) && Recalled(s, h) && Runnable(s, es) && Clean(s, es) && Whole(s) && DiskWhole(s)
    ensures Whole(After(s, es)) && DiskWhole(After(s, es))
    decreases |es|
  {
    if es != [] {
      EventKeeps(s, es[0]);
      EventRecalls(s, h, es[0]);
      EventWhole(s, h, es[0]);
      RunWhole(Apply(s, es[0]), Remember(s, h, es[0]), es[1..]);
    }
  }

  /**
    In a database that has lost nothing, after any run without such rollbacks, every page below the
    high-water mark is exactly one of free, pending and in a run; and reopened, the free pages are
    exactly those that no run of the last commit has.
   */
  lemma NothingIsLost(s0: State, es: seq<Event>)
    requires Init(s0) && Whole(s0) && Runnable(s0, es) && Clean(s0, es)
    ensures var s := After(s0, es); forall p :: 2 <= p < HighWater(s) ==>
      && (p in s.free || p in s.pend || Covered(Cur(s), p)) && !(p in s.free && p in s.pend)
      && !(p in s.free && Covered(Cur(s), p)) && !(p in s.pend && Covered(Cur(s), p))
    ensures var s := After(s0, es); Apply(s, Reopen).free == Unused(LastSnap(s.com).runs, LastSnap(s.com).hw)
  {
    hide Recalled, Covered;
    FirstRecalled(s0);
    RunRecalls(s0, FirstPast(s0), es);
    RunWhole(s0, FirstPast(s0), es);
    Apart(After(s0, es));
    ReopenIsUnused(After(s0, es));
  }

  lemma Apart(s: State)
    requires FreeSafe(s) && PendSafe(s)
    ensures forall p :: p in s.free ==> p !in s.pend && !Covered(Cur(s), p)
    ensures forall p :: p in s.pend ==> !Covered(Cur(s), p)
  {
    assert forall p :: p in s.pend ==> PendOk(s, p, s.pend[p]);
  }

  lemma ReopenIsUnused(s: State)
    requires ComOk(s.com) && DiskSafe(s) && DiskWhole(s)
    ensures Apply(s, Reopen).free == Unused(LastSnap(s.com).runs, LastSnap(s.com).hw)
  {
    assert forall p :: Covered(LastSnap(s.com).runs, p) ==> Used(s.com, s.com.last, p);
  }

  /** A freelist page, a page of data and a free page. */
  ghost function OneFree(): State {
    State(Com(1, map[1 := Snap(map[2 := 1, 3 := 1], 2, 5)], multiset{}), NoWriter, {4}, map[], map[], {4})
  }

  lemma OneFreeIsWhole()
    ensures Init(OneFree()) && Whole(OneFree()) && LastSnap(OneFree().com) == Snap(map[2 := 1, 3 := 1], 2, 5)
  {
    var s, runs := OneFree(), map[2 := 1, 3 := 1];
    assert LastSnap(s.com) == Snap(runs, 2, 5);
    assert 2 in runs && 3 in runs && runs[2] == 1 && runs[3] == 1;
    forall p
      ensures Covered(runs, p) <==> p == 2 || p == 3
    {
      assert 2 in runs && 2 <= 2 < 2 + runs[2] && 3 in runs && 3 <= 3 < 3 + runs[3];
    }
  }

  /** Such a rollback: a writer takes the only free page and rolls back, and the page is nowhere. */
  lemma RollbackLoses() returns (es: seq<Event>)
    ensures Init(OneFree()) && Whole(OneFree()) && Runnable(OneFree(), es) && es != [] && es[|es| - 1].Rollback?
    ensures !Whole(After(OneFree(), es))
  {
    hide Init, Whole, Holding, Inv;
    var s0 := OneFree();
    OneFreeIsWhole();
    RunOnwards(s0, [], BeginWrite);
    var s1 := Apply(s0, BeginWrite);
    TakesTheOne(s1);
    RunOnwards(s0, [] + [BeginWrite], Allocate(1, 4));
    var es2 := [] + [BeginWrite] + [Allocate(1, 4)];
    LosesLast(s0, es2);
    RunOnwards(s0, es2, Rollback);
    es := es2 + [Rollback];
  }

  lemma TakesTheOne(s: State)
    requires s == Apply(OneFree(), BeginWrite)
    ensures CanAllocate(s, 1, 4) && Whole(Apply(s, Allocate(1, 4))) && Holding(Apply(s, Allocate(1, 4)))
  {
    hide Inv;
    OneFreeIsWhole();
    FirstRecalled(OneFree());
    BeginWhole(OneFree());
    assert RunAt(s.free, 4, 1) && HasRun(s.free, 1);
    AllocateWhole(s, 1, 4);
    var runs := Apply(s, Allocate(1, 4)).writer.runs;
    assert 4 in runs && Covered(runs, 4);
  }

  lemma BeginWhole(s: State)
    requires Inv(s) && Enabled(s, BeginWrite) && Whole(s)
    ensures Whole(Apply(s, BeginWrite)) && Core(Apply(s, BeginWrite))
  {
    BeginWriteKeeps(s);
  }

  /** A run that has lost nothing loses something by rolling back a transaction that holds a page. */
  lemma LosesLast(s0: State, es: seq<Event>)
    requires Init(s0) && Runnable(s0, es) && Whole(After(s0, es)) && Holding(After(s0, es))
    ensures Enabled(After(s0, es), Rollback) && !Whole(Apply(After(s0, es), Rollback))
  {
    FirstRecalled(s0);
    RunRecalls(s0, FirstPast(s0), es);
    RollbackWhole(After(s0, es), PastAfter(s0, FirstPast(s0), es));
  }

  /** Page p is in the freelist run of the last commit. */
  ghost predicate OldFreelist(s: State, p: Pgid) {
    var last := LastSnap(s.com);
    HasFreelist(s.com) && last.freelist in last.runs && Within(p, last.freelist, last.runs[last.freelist])
  }

  /** Reopened right after a commit, the free pages are those that were free or pending, less the new freelist run. */
  lemma ReopenAfterCommit(s: State, n: int, start: Pgid, p: Pgid)
    requires Inv(s) && Enabled(s, Commit(n, start))
    ensures var c := Apply(s, Commit(n, start));
      && (p in Apply(c, Reopen).free <==> p in c.free || p in c.pend)
      && (p in Apply(c, Reopen).free <==> (p in s.free || p in s.pend || OldFreelist(s, p)) && !Within(p, start, n))
  {
    hide OldFreelist;
    var s1 := Unlink(s);
    UnlinkKeeps(s);
    AllocateKeeps(s1, n, start);
    CommitDisk(s1, n, start);
    assert Listed(Apply(s, Commit(n, start))) == s1.free + s1.pend.Keys - Range(start, n) by {
      assert LastSnap(Apply(s, Commit(n, start)).com).freelist == start;
    }
    UnlinkLists(s, p);
  }

  lemma UnlinkLists(s: State, p: Pgid)
    requires CanUnlink(s) && FreelistKept(s)
    ensures p in Unlink(s).free || p in Unlink(s).pend <==> p in s.free || p in s.pend || OldFreelist(s, p)
  {
  }
}
