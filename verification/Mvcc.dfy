/**
  Page reuse under concurrent readers (bitree/bdb/db.go, bitree/bdb/tx.go): a state machine over
  begin-read, end-read, begin-write, allocate, free, commit, early rollback, failed commit and reopen.
 */
module Mvcc {
  import opened PageIds
  import opened SpanIndex
  import opened Freelist

  /** Transaction ids stay below the all-ones id that stands for "no reader". */
  const MAX_TXID: Txid := 0xFFFF_FFFF_FFFF_FFFF

  /** pgidNoFreelist: the freelist is not kept on disk. */
  const NO_FREELIST: Pgid := -1

  /** A committed state: its page runs by first page, its freelist run if it has one, and its high-water mark. */
  datatype Snap = Snap(runs: map<Pgid, int>, freelist: Pgid, hw: Pgid)

  /** The committed side: the last commit, all commits, and the ids of the open readers. */
  datatype Com = Com(last: Txid, snaps: map<Txid, Snap>, readers: multiset<Txid>)

  datatype Writer = NoWriter | Writer(txid: Txid, runs: map<Pgid, int>, hw: Pgid)

  datatype State = State(com: Com, writer: Writer, free: set<Pgid>, pend: map<Pgid, Pend>,
                         allocs: map<Pgid, Txid>, disk: set<Pgid>)

  /** How far a commit came before it failed. */
  datatype Failure =
    | Spilling                      // the tree could not be written out
    | Unlinked                      // the old freelist run is freed, a new one not allocated
    | Unwritten(n: int, start: Pgid) // the new freelist run is allocated, the pages or the meta not written

  datatype Event =
    | BeginRead
    | EndRead(reader: Txid)
    | BeginWrite
    | Allocate(n: int, start: Pgid)
    | Free(run: Pgid)
    | Commit(pages: int, page: Pgid)
    | CommitUnsynced                // with NoFreelistSync
    | Rollback
    | Fail(at: Failure, isMap: bool)
    | Reopen

  // ----- Steps -----

  /** Some open reader may still see a page that was allocated and freed as e says. */
  ghost predicate Needed(e: Pend, readers: multiset<Txid>) {
    exists r :: r in readers && e.allocTx <= r <= e.freeTx
  }

  ghost function StillPending(pend: map<Pgid, Pend>, readers: multiset<Txid>): map<Pgid, Pend> {
    map p | p in pend && Needed(pend[p], readers) :: pend[p]
  }

  ghost function LetGo(pend: map<Pgid, Pend>, readers: multiset<Txid>): set<Pgid> {
    set p | p in pend && !Needed(pend[p], readers)
  }

  ghost predicate CanAllocate(s: State, n: int, start: Pgid) {
    && s.writer.Writer? && 1 <= n
    && if HasRun(s.free, n) then RunAt(s.free, start, n) else start == s.writer.hw
  }

  /** Pages from the free set if it has a run, else above the high-water mark. */
  ghost function DoAllocate(s: State, n: int, start: Pgid): State
    requires s.writer.Writer?
  {
    var w := s.writer.(runs := s.writer.runs[start := n]);
    if HasRun(s.free, n) then
      s.(writer := w, free := s.free - Range(start, n), allocs := s.allocs[start := w.txid])
    else
      s.(writer := w.(hw := w.hw + n))
  }

  ghost function DoFree(s: State, run: Pgid, isFreelistPage: bool): State
    requires s.writer.Writer? && run in s.writer.runs
  {
    var w := s.writer;
    var e := Pend(w.txid, AllocTx(s.allocs, w.txid, run, isFreelistPage));
    s.(writer := w.(runs := w.runs - {run}),
       pend := s.pend + FreedRun(run, w.runs[run], e),
       allocs := s.allocs - {run})
  }

  ghost function DoPublish(s: State, freelist: Pgid, disk: set<Pgid>): State
    requires s.writer.Writer?
  {
    var w := s.writer;
    s.(com := s.com.(last := w.txid, snaps := s.com.snaps[w.txid := Snap(w.runs, freelist, w.hw)]),
       writer := NoWriter, disk := disk)
  }

  /** freelist.rollback, and the transaction is over. */
  ghost function DoRollback(s: State): State
    requires s.writer.Writer?
  {
    var t := s.writer.txid;
    s.(writer := NoWriter, pend := Without(s.pend, t), free := s.free + BackToFree(s.pend, t),
       allocs := s.allocs + Restored(s.pend, t))
  }

  predicate HasFreelist(c: Com) { LastSnap(c).freelist != NO_FREELIST }

  ghost predicate CanUnlink(s: State) {
    s.writer.Writer? && (HasFreelist(s.com) ==> LastSnap(s.com).freelist in s.writer.runs)
  }

  /** A commit frees the freelist run of the last one. */
  ghost function Unlink(s: State): State
    requires CanUnlink(s)
  {
    if HasFreelist(s.com) then DoFree(s, LastSnap(s.com).freelist, true) else s
  }

  /** freepages: all pages below the high-water mark that are not in use. */
  ghost function Unused(runs: map<Pgid, int>, hw: Pgid): set<Pgid> {
    set p | 2 <= p < hw && !Covered(runs, p)
  }

  /** The pages that count as free when the last commit is loaded: as written by it, or else as found by looking. */
  ghost function Listed(s: State): set<Pgid> {
    if HasFreelist(s.com) then s.disk else Unused(LastSnap(s.com).runs, LastSnap(s.com).hw)
  }

  ghost predicate CanFail(s: State, at: Failure) {
    && s.writer.Writer? && (!at.Spilling? ==> CanUnlink(s))
    && (at.Unwritten? ==> CanAllocate(Unlink(s), at.n, at.start))
  }

  /** What the commit had done when it failed. */
  ghost function Begun(s: State, at: Failure): State
    requires CanFail(s, at)
  {
    match at
    case Spilling => s
    case Unlinked => Unlink(s)
    case Unwritten(n, start) => DoAllocate(Unlink(s), n, start)
  }

  /** tx.rollback: undoes the transaction and reloads the freelist of the last commit. */
  ghost function DoFail(s: State, at: Failure, isMap: bool): State
    requires CanFail(s, at)
  {
    var r := DoRollback(Begun(s, at));
    r.(free := Reloads(r, isMap))
  }

  ghost function Reloads(r: State, isMap: bool): set<Pgid> {
    if HasFreelist(r.com) then Refilled(isMap, r.free, r.disk, r.pend) else Rescanned(isMap, r.free, Listed(r), r.pend)
  }

  /** The list has a page that is not pending, or is empty, or the freelist is in array form. */
  ghost predicate ReloadsRight(isMap: bool, listed: set<Pgid>, pend: map<Pgid, Pend>) {
    !isMap || listed == {} || exists p :: p in listed && p !in pend
  }

  function LastSnap(c: Com): Snap {
    if c.last in c.snaps then c.snaps[c.last] else Snap(map[], NO_FREELIST, 0)
  }

  ghost predicate Enabled(s: State, e: Event) {
    match e
    case BeginRead => true
    case EndRead(r) => r in s.com.readers
    case BeginWrite => s.writer.NoWriter? && s.com.last + 1 < MAX_TXID
    case Allocate(n, start) => CanAllocate(s, n, start)
    case Free(run) => s.writer.Writer? && run in s.writer.runs && run != LastSnap(s.com).freelist
    case Commit(n, start) =>
      CanUnlink(s) && CanAllocate(Unlink(s), n, start)
    case CommitUnsynced => CanUnlink(s)
    case Rollback => s.writer.Writer?
    case Fail(at, isMap) => CanFail(s, at) && (HasFreelist(s.com) ==> ReloadsRight(isMap, s.disk, DoRollback(Begun(s, at)).pend))
    case Reopen => true
  }

  ghost function Apply(s: State, e: Event): State
    requires Enabled(s, e)
  {
    match e
    case BeginRead => s.(com := s.com.(readers := s.com.readers + multiset{s.com.last}))
    case EndRead(r) => s.(com := s.com.(readers := s.com.readers - multiset{r}))
    case BeginWrite =>
      s.(writer := Writer(s.com.last + 1, LastSnap(s.com).runs, LastSnap(s.com).hw),
         pend := StillPending(s.pend, s.com.readers),
         free := s.free + LetGo(s.pend, s.com.readers))
    case Allocate(n, start) => DoAllocate(s, n, start)
    case Free(run) => DoFree(s, run, false)
    case Commit(n, start) =>
      var s1 := Unlink(s);
      DoPublish(DoAllocate(s1, n, start), start, s1.free + s1.pend.Keys - Range(start, n))
    case CommitUnsynced => DoPublish(Unlink(s), NO_FREELIST, {})
    case Rollback => DoRollback(s)
    case Fail(at, isMap) => DoFail(s, at, isMap)
    case Reopen =>
      s.(com := s.com.(readers := multiset{}), writer := NoWriter, pend := map[], allocs := map[], free := Listed(s))
  }

  // ----- The invariant -----

  /** Commit i is open in a reader or is the last one, and page p belongs to it. */
  ghost predicate Used(c: Com, i: Txid, p: Pgid) {
    (i == c.last || i in c.readers) && i in c.snaps && Covered(c.snaps[i].runs, p)
  }

  ghost predicate RunsOk(runs: map<Pgid, int>, hw: Pgid) {
    && (forall r :: r in runs ==> 2 <= r && 1 <= runs[r] && r + runs[r] <= hw)
    && (forall r, q :: r in runs && q in runs && r < q ==> r + runs[r] <= q)
  }

  ghost predicate ComOk(c: Com) {
    && 1 <= c.last && c.last in c.snaps
    && (forall r :: r in c.readers ==> 1 <= r <= c.last && r in c.snaps)
    && RunsOk(LastSnap(c).runs, LastSnap(c).hw)
    && (HasFreelist(c) ==> LastSnap(c).freelist in LastSnap(c).runs) && 2 <= LastSnap(c).hw
    && (forall i, p :: Used(c, i, p) ==> 1 <= i <= c.last && 2 <= p < LastSnap(c).hw)
  }

  /** The pages of the last commit's freelist run belong to no older open commit. */
  ghost predicate FreelistNew(c: Com) {
    var fl := LastSnap(c).freelist;
    HasFreelist(c) ==> fl in LastSnap(c).runs && forall i, p :: Used(c, i, p) && Within(p, fl, LastSnap(c).runs[fl]) ==> i == c.last
  }

  /** The runs of the write transaction in progress, else of the last commit. */
  ghost function Cur(s: State): map<Pgid, int> {
    if s.writer.Writer? then s.writer.runs else LastSnap(s.com).runs
  }

  ghost predicate WriterOk(s: State) {
    s.writer.Writer? ==>
      && s.writer.txid == s.com.last + 1
      && LastSnap(s.com).hw <= s.writer.hw
      && RunsOk(s.writer.runs, s.writer.hw)
  }

  ghost predicate FreelistKept(s: State) {
    s.writer.Writer? && HasFreelist(s.com) ==>
      var fl := LastSnap(s.com).freelist;
      && fl in LastSnap(s.com).runs && fl in s.writer.runs
      && s.writer.runs[fl] == LastSnap(s.com).runs[fl]
  }

  /** Free pages belong to nothing. */
  ghost predicate FreeSafe(s: State) {
    && (forall p :: p in s.free ==> 2 <= p < LastSnap(s.com).hw && p !in s.pend && !Covered(Cur(s), p))
    && (forall i, p :: p in s.free ==> !Used(s.com, i, p))
  }

  ghost predicate PendOk(s: State, p: Pgid, e: Pend) {
    && 2 <= p && 0 <= e.allocTx <= e.freeTx <= s.com.last + 1
    && !Covered(Cur(s), p)
    && (e.freeTx == s.com.last + 1 ==> s.writer.Writer? && p < s.writer.hw)
    && (e.freeTx <= s.com.last || e.allocTx != 0 ==> p < LastSnap(s.com).hw)
  }

  /** A pending page belongs only to open commits from its allocation up to before its freeing. */
  ghost predicate PendSafe(s: State) {
    && (forall p :: p in s.pend ==> PendOk(s, p, s.pend[p]))
    && (forall i, p :: p in s.pend && Used(s.com, i, p) ==> s.pend[p].allocTx <= i < s.pend[p].freeTx)
  }

  /** A recorded allocation is no later than any open commit that has a page of the run. */
  ghost predicate AllocsSafe(s: State) {
    && (forall r :: r in s.allocs ==> 1 <= s.allocs[r] <= s.com.last + 1 && r < LastSnap(s.com).hw)
    && (forall r :: r in Cur(s) && r in s.allocs ==> r + Cur(s)[r] <= LastSnap(s.com).hw)
    && (forall r, i, p :: r in Cur(s) && r in s.allocs && Within(p, r, Cur(s)[r]) && Used(s.com, i, p) ==>
          s.allocs[r] <= i)
  }

  /** Run r of the last commit was freed as a whole by transaction t. */
  ghost predicate WhollyFreed(s: State, r: Pgid, n: int, t: Txid) {
    && r !in s.allocs
    && r in s.pend
    && forall p :: Within(p, r, n) ==> p in s.pend && s.pend[p] == s.pend[r] && s.pend[p].freeTx == t
  }

  /** Every run of the last commit is still held by the writer or wholly freed by it. */
  ghost predicate Undoable(s: State) {
    s.writer.Writer? ==>
      forall r :: r in LastSnap(s.com).runs ==>
        || (r in s.writer.runs && s.writer.runs[r] == LastSnap(s.com).runs[r])
        || WhollyFreed(s, r, LastSnap(s.com).runs[r], s.writer.txid)
  }

  /** What the last commit wrote out as free is not part of it. */
  ghost predicate DiskSafe(s: State) {
    forall p :: p in s.disk ==> 2 <= p < LastSnap(s.com).hw && !Used(s.com, s.com.last, p)
  }

  /** A page of an open commit is in the last one or pending under a transaction up to it. */
  ghost predicate Tracked(s: State) {
    forall i, p :: Used(s.com, i, p) ==> Covered(LastSnap(s.com).runs, p) || (p in s.pend && s.pend[p].freeTx <= s.com.last)
  }

  ghost predicate Inv(s: State) {
    && ComOk(s.com) && FreelistNew(s.com) && WriterOk(s) && FreelistKept(s)
    && FreeSafe(s) && PendSafe(s) && AllocsSafe(s) && Undoable(s) && DiskSafe(s) && Tracked(s)
  }

  // ----- Readers come and go -----

  lemma BeginReadKeeps(s: State)
    requires Inv(s)
    ensures Inv(Apply(s, BeginRead))
  {
    var s' := Apply(s, BeginRead);
    assert forall i, p :: Used(s'.com, i, p) <==> Used(s.com, i, p);
    SameComKeeps(s, s');
  }

  lemma EndReadKeeps(s: State, r: Txid)
    requires Inv(s) && r in s.com.readers
    ensures Inv(Apply(s, EndRead(r)))
  {
    var s' := Apply(s, EndRead(r));
    assert forall i, p :: Used(s'.com, i, p) ==> Used(s.com, i, p);
    assert forall i :: i in s'.com.readers ==> i in s.com.readers;
    SameComKeeps(s, s');
  }

  /** Only the readers changed, and no more pages are in use. */
  lemma SameComKeeps(s: State, s': State)
    requires Inv(s) && s' == s.(com := s.com.(readers := s'.com.readers))
    requires forall i, p :: Used(s'.com, i, p) ==> Used(s.com, i, p)
    requires forall r :: r in s'.com.readers ==> r in s.com.readers || r == s.com.last
    ensures Inv(s')
  {
    assert LastSnap(s'.com) == LastSnap(s.com) && Cur(s') == Cur(s);
    assert ComOk(s'.com) && FreelistNew(s'.com);
    assert WriterOk(s') && FreelistKept(s');
    assert FreeSafe(s');
    assert PendSafe(s') by {
      assert forall p :: p in s.pend ==> (PendOk(s', p, s.pend[p]) <==> PendOk(s, p, s.pend[p]));
    }
    assert AllocsSafe(s');
    assert Undoable(s') by {
      forall r | r in LastSnap(s.com).runs && s.writer.Writer? && WhollyFreed(s, r, LastSnap(s.com).runs[r], s.writer.txid)
        ensures WhollyFreed(s', r, LastSnap(s.com).runs[r], s.writer.txid)
      {
      }
    }
    assert DiskSafe(s') && Tracked(s');
  }

  // ----- A write transaction begins -----

  lemma BeginWriteKeeps(s: State)
    requires Inv(s) && Enabled(s, BeginWrite)
    ensures Inv(Apply(s, BeginWrite))
  {
    var s' := Apply(s, BeginWrite);
    assert Cur(s') == Cur(s);
    forall p | p in LetGo(s.pend, s.com.readers)
      ensures forall i :: !Used(s.com, i, p)
    {
      NotUsed(s, p, s.pend[p]);
    }
    forall p | p in s.pend
      ensures PendOk(s', p, s.pend[p])
    {
      assert PendOk(s, p, s.pend[p]);
    }
    assert FreeSafe(s') && PendSafe(s');
    assert AllocsSafe(s') && Undoable(s');
    BeginWriteTracks(s);
  }

  /** A pending page that no reader needs belongs to no open commit. */
  lemma NotUsed(s: State, p: Pgid, e: Pend)
    requires PendSafe(s) && s.writer.NoWriter? && p in s.pend && e == s.pend[p] && !Needed(e, s.com.readers)
    ensures forall i :: !Used(s.com, i, p)
  {
    assert PendOk(s, p, e);
    forall i
      ensures !Used(s.com, i, p)
    {
      assert e.allocTx <= i <= e.freeTx ==> i !in s.com.readers;
      assert !Used(s.com, s.com.last, p);
    }
  }

  lemma BeginWriteTracks(s: State)
    requires PendSafe(s) && Tracked(s) && Enabled(s, BeginWrite)
    ensures Tracked(Apply(s, BeginWrite))
  {
    forall i, p | Used(s.com, i, p) && p in s.pend
      ensures s.pend[p].freeTx <= s.com.last && i != s.com.last ==> Needed(s.pend[p], s.com.readers)
    {
      assert s.pend[p].allocTx <= i <= s.pend[p].freeTx;
    }
  }

  // ----- Allocation -----

  /** All of the invariant that does not speak of the freelist run in the writer. */
  ghost predicate Core(s: State) {
    && ComOk(s.com) && WriterOk(s) && FreeSafe(s) && PendSafe(s) && AllocsSafe(s) && Undoable(s)
  }

  ghost predicate NewRun(s: State, n: int, start: Pgid) {
    && s.writer.Writer? && 1 <= n
    && (forall p, i :: Within(p, start, n) ==> !Used(s.com, i, p))
    && (forall p :: Within(p, start, n) ==> 2 <= p && !Covered(Cur(s), p) && p !in s.pend)
    && start + n <= DoAllocate(s, n, start).writer.hw
  }

  /** What allocate hands out is in use by no open commit, by the writer or as a pending page. */
  lemma AllocationIsNew(s: State, n: int, start: Pgid)
    requires Core(s) && CanAllocate(s, n, start)
    ensures NewRun(s, n, start)
  {
    if HasRun(s.free, n) {
      assert start in s.free && start + n - 1 in s.free;
      assert forall p :: Within(p, start, n) ==> p in s.free;
    } else {
      forall p | Within(p, start, n)
        ensures 2 <= p && !Covered(Cur(s), p) && p !in s.pend && forall i :: !Used(s.com, i, p)
      {
        assert p in s.pend ==> PendOk(s, p, s.pend[p]);
        assert LastSnap(s.com).hw <= p;
      }
    }
  }

  lemma AddRunCovers(runs: map<Pgid, int>, start: Pgid, n: int)
    requires start !in runs
    ensures forall p :: Covered(runs[start := n], p) <==> Covered(runs, p) || Within(p, start, n)
  {
    var runs' := runs[start := n];
    forall p
      ensures Covered(runs', p) <==> Covered(runs, p) || Within(p, start, n)
    {
      if Covered(runs, p) {
        var r :| r in runs && r <= p < r + runs[r];
        assert r in runs' && runs'[r] == runs[r];
      }
      if Within(p, start, n) {
        assert start in runs';
      }
    }
  }

  lemma AddRunOk(runs: map<Pgid, int>, hw: Pgid, start: Pgid, n: int, hw': Pgid)
    requires RunsOk(runs, hw) && hw <= hw' && 1 <= n && 2 <= start && start + n <= hw'
    requires forall p :: Within(p, start, n) ==> !Covered(runs, p)
    ensures start !in runs && RunsOk(runs[start := n], hw')
  {
    assert Within(start, start, n);
    assert start in runs ==> Covered(runs, start);
    forall r | r in runs
      ensures r + runs[r] <= start || start + n <= r
    {
      assert start <= r < start + n ==> Within(r, start, n) && Covered(runs, r);
      assert r < start < r + runs[r] ==> Covered(runs, start);
    }
  }

  lemma AllocateKeeps(s: State, n: int, start: Pgid)
    requires Core(s) && CanAllocate(s, n, start)
    ensures Core(DoAllocate(s, n, start)) && NewRun(s, n, start)
    ensures start !in s.writer.runs
  {
    var s' := DoAllocate(s, n, start);
    AllocationIsNew(s, n, start);
    assert Within(start, start, n);
    AddRunOk(s.writer.runs, s.writer.hw, start, n, s'.writer.hw);
    AddRunCovers(s.writer.runs, start, n);
    forall p | p in s.pend
      ensures PendOk(s', p, s.pend[p])
    {
      assert PendOk(s, p, s.pend[p]);
    }
    assert FreeSafe(s') && PendSafe(s');
    AllocateKeepsAllocs(s, n, start);
    AllocateKeepsUndo(s, n, start);
  }

  lemma AllocateKeepsAllocs(s: State, n: int, start: Pgid)
    requires ComOk(s.com) && WriterOk(s) && FreeSafe(s) && AllocsSafe(s) && CanAllocate(s, n, start) && NewRun(s, n, start)
    requires start !in s.writer.runs
    ensures AllocsSafe(DoAllocate(s, n, start))
  {
    var s' := DoAllocate(s, n, start);
    if HasRun(s.free, n) {
      assert start in s.free && start + n - 1 in s.free;
    }
    forall r, i, p | r in Cur(s') && r in s'.allocs && Within(p, r, Cur(s')[r]) && Used(s'.com, i, p)
      ensures s'.allocs[r] <= i
    {
      if r != start {
        assert r in Cur(s) && r in s.allocs;
      }
    }
  }

  lemma AllocateKeepsUndo(s: State, n: int, start: Pgid)
    requires Undoable(s) && CanAllocate(s, n, start) && NewRun(s, n, start)
    requires start !in s.writer.runs
    ensures Undoable(DoAllocate(s, n, start))
  {
    var s' := DoAllocate(s, n, start);
    assert Within(start, start, n) && start !in s.pend;
    forall r | r in LastSnap(s.com).runs && WhollyFreed(s, r, LastSnap(s.com).runs[r], s.writer.txid)
      ensures WhollyFreed(s', r, LastSnap(s.com).runs[r], s.writer.txid)
    {
      assert r != start;
    }
  }

  // ----- Freeing -----

  lemma DropRunCovers(runs: map<Pgid, int>, hw: Pgid, run: Pgid)
    requires RunsOk(runs, hw) && run in runs
    ensures RunsOk(runs - {run}, hw)
    ensures forall p :: Covered(runs - {run}, p) <==> Covered(runs, p) && !Within(p, run, runs[run])
    ensures forall p :: Within(p, run, runs[run]) ==> Covered(runs, p) && 2 <= p < hw
  {
    var runs' := runs - {run};
    forall p
      ensures Covered(runs', p) <==> Covered(runs, p) && !Within(p, run, runs[run])
    {
      if Covered(runs', p) {
        var r :| r in runs' && r <= p < r + runs'[r];
        assert r in runs;
      }
      if Covered(runs, p) && !Within(p, run, runs[run]) {
        var r :| r in runs && r <= p < r + runs[r];
        assert r in runs';
      }
    }
  }

  ghost predicate CanFree(s: State, run: Pgid, isFreelistPage: bool) {
    && s.writer.Writer? && run in s.writer.runs
    && (isFreelistPage ==> HasFreelist(s.com) && run == LastSnap(s.com).freelist)
  }

  /** The entry that a freed run gets brackets every open commit that has one of its pages. */
  lemma FreedEntry(s: State, run: Pgid, isFreelistPage: bool, p: Pgid)
    requires Core(s) && FreelistNew(s.com) && FreelistKept(s) && CanFree(s, run, isFreelistPage)
    requires Within(p, run, s.writer.runs[run])
    ensures var a := AllocTx(s.allocs, s.writer.txid, run, isFreelistPage);
      && 0 <= a <= s.writer.txid
      && (a != 0 ==> p < LastSnap(s.com).hw)
      && forall i :: Used(s.com, i, p) ==> a <= i < s.writer.txid
  {
    assert run in Cur(s);
  }

  lemma FreeKeeps(s: State, run: Pgid, isFreelistPage: bool)
    requires Core(s) && FreelistNew(s.com) && FreelistKept(s) && CanFree(s, run, isFreelistPage)
    ensures Core(DoFree(s, run, isFreelistPage))
  {
    hide Covered;
    var s', w := DoFree(s, run, isFreelistPage), s.writer;
    var n, e := w.runs[run], Pend(w.txid, AllocTx(s.allocs, w.txid, run, isFreelistPage));
    DropRunCovers(w.runs, w.hw, run);
    assert forall p :: p in s'.pend <==> p in s.pend || Within(p, run, n);
    forall p | p in s'.pend
      ensures PendOk(s', p, s'.pend[p])
      ensures forall i :: Used(s.com, i, p) ==> s'.pend[p].allocTx <= i < s'.pend[p].freeTx
    {
      if Within(p, run, n) {
        FreedEntry(s, run, isFreelistPage, p);
      } else {
        assert PendOk(s, p, s.pend[p]);
      }
    }
    assert FreeSafe(s') && PendSafe(s');
    assert AllocsSafe(s') by {
      forall r | r in Cur(s') && r in s'.allocs
        ensures r in Cur(s) && r in s.allocs && s'.allocs[r] == s.allocs[r] && Cur(s')[r] == Cur(s)[r]
      {
      }
    }
    FreeKeepsUndo(s, run, isFreelistPage);
  }

  lemma FreeTracks(s: State, run: Pgid, isFreelistPage: bool)
    requires WriterOk(s) && PendSafe(s) && Tracked(s) && CanFree(s, run, isFreelistPage)
    ensures Tracked(DoFree(s, run, isFreelistPage))
  {
    DropRunCovers(s.writer.runs, s.writer.hw, run);
    forall p | p in s.pend
      ensures !Within(p, run, s.writer.runs[run])
    {
      assert PendOk(s, p, s.pend[p]);
    }
  }

  lemma FreeKeepsUndo(s: State, run: Pgid, isFreelistPage: bool)
    requires Undoable(s) && WriterOk(s) && PendSafe(s) && CanFree(s, run, isFreelistPage)
    ensures Undoable(DoFree(s, run, isFreelistPage))
  {
    var s', w := DoFree(s, run, isFreelistPage), s.writer;
    DropRunCovers(w.runs, w.hw, run);
    assert Within(run, run, w.runs[run]);
    forall r | r in LastSnap(s.com).runs
      ensures (r in s'.writer.runs && s'.writer.runs[r] == LastSnap(s.com).runs[r]) ||
              WhollyFreed(s', r, LastSnap(s.com).runs[r], w.txid)
    {
      if WhollyFreed(s, r, LastSnap(s.com).runs[r], w.txid) {
        forall p | p in s.pend
          ensures p in s'.pend && s'.pend[p] == s.pend[p]
        {
          assert PendOk(s, p, s.pend[p]);
        }
        assert WhollyFreed(s', r, LastSnap(s.com).runs[r], w.txid);
      } else if r == run {
        assert WhollyFreed(s', r, LastSnap(s.com).runs[r], w.txid);
      }
    }
  }

  // ----- Commit -----

  lemma PublishedUse(s: State, fl: Pgid, disk: set<Pgid>)
    requires Core(s) && s.writer.Writer?
    ensures forall i, p :: Used(DoPublish(s, fl, disk).com, i, p) ==>
      if i == s.writer.txid then Covered(s.writer.runs, p) else Used(s.com, i, p)
    ensures forall p :: Covered(s.writer.runs, p) ==> 2 <= p < s.writer.hw
  {
  }

  lemma PublishKeeps(s: State, fl: Pgid, disk: set<Pgid>)
    requires Core(s) && Tracked(s) && s.writer.Writer?
    requires fl == NO_FREELIST || (fl in s.writer.runs && forall i, p :: Within(p, fl, s.writer.runs[fl]) ==> !Used(s.com, i, p))
    requires forall p :: p in disk ==> 2 <= p < s.writer.hw && !Covered(s.writer.runs, p)
    ensures Inv(DoPublish(s, fl, disk))
  {
    var s' := DoPublish(s, fl, disk);
    PublishedUse(s, fl, disk);
    assert Cur(s') == Cur(s) && LastSnap(s'.com).hw == s.writer.hw;
    assert ComOk(s'.com);
    assert FreelistNew(s'.com);
    assert FreeSafe(s');
    forall p | p in s.pend
      ensures PendOk(s', p, s.pend[p])
    {
      assert PendOk(s, p, s.pend[p]);
    }
    assert PendSafe(s');
    PublishTracks(s, fl, disk);
    PublishKeepsAllocs(s, fl, disk);
  }

  /** What the last commit had is in the new one, or the writer has freed it. */
  lemma PublishTracks(s: State, fl: Pgid, disk: set<Pgid>)
    requires Core(s) && Tracked(s) && s.writer.Writer?
    ensures Tracked(DoPublish(s, fl, disk))
  {
    PublishedUse(s, fl, disk);
    forall p | Covered(LastSnap(s.com).runs, p)
      ensures Covered(s.writer.runs, p) || (p in s.pend && s.pend[p].freeTx <= s.writer.txid)
    {
      var r :| r in LastSnap(s.com).runs && r <= p < r + LastSnap(s.com).runs[r];
      assert Within(p, r, LastSnap(s.com).runs[r]);
    }
  }

  lemma PublishKeepsAllocs(s: State, fl: Pgid, disk: set<Pgid>)
    requires Core(s) && s.writer.Writer?
    ensures AllocsSafe(DoPublish(s, fl, disk))
  {
    var s' := DoPublish(s, fl, disk);
    PublishedUse(s, fl, disk);
    assert Cur(s') == Cur(s) && LastSnap(s'.com).hw == s.writer.hw;
  }

  lemma UnlinkKeeps(s: State)
    requires Inv(s) && CanUnlink(s)
    ensures var s' := Unlink(s); Core(s') && Tracked(s') && s'.com == s.com && s'.disk == s.disk && s'.writer.Writer?
  {
    if HasFreelist(s.com) {
      FreeKeeps(s, LastSnap(s.com).freelist, true);
      FreeTracks(s, LastSnap(s.com).freelist, true);
    }
  }

  lemma CommitKeeps(s: State, n: int, start: Pgid)
    requires Inv(s) && Enabled(s, Commit(n, start))
    ensures Inv(Apply(s, Commit(n, start)))
  {
    hide FreelistNew, Used;
    var s1 := Unlink(s);
    UnlinkKeeps(s);
    AllocateKeeps(s1, n, start);
    var s2 := DoAllocate(s1, n, start);
    AddRunCovers(s1.writer.runs, start, n);
    var disk := s1.free + s1.pend.Keys - Range(start, n);
    forall p | p in disk
      ensures 2 <= p < s2.writer.hw && !Covered(s2.writer.runs, p)
    {
      assert p in s1.pend ==> PendOk(s1, p, s1.pend[p]);
    }
    PublishKeeps(s2, start, disk);
  }

  lemma CommitUnsyncedKeeps(s: State)
    requires Inv(s) && Enabled(s, CommitUnsynced)
    ensures Inv(Apply(s, CommitUnsynced))
  {
    UnlinkKeeps(s);
    PublishKeeps(Unlink(s), NO_FREELIST, {});
  }

  // ----- Rollback -----

  lemma RollbackKeeps(s: State)
    requires Inv(s) && Enabled(s, Rollback)
    ensures Inv(Apply(s, Rollback))
  {
    RollbackCore(s);
  }

  /** Rolled back at any point of the transaction, also when its freelist run is already freed. */
  lemma RollbackCore(s: State)
    requires Core(s) && FreelistNew(s.com) && DiskSafe(s) && Tracked(s) && s.writer.Writer?
    ensures Inv(DoRollback(s))
  {
    var s', t := DoRollback(s), s.writer.txid;
    forall p | p in s'.pend
      ensures PendOk(s', p, s'.pend[p])
    {
      assert PendOk(s, p, s.pend[p]);
      assert Covered(Cur(s'), p) ==> Used(s.com, s.com.last, p);
    }
    assert PendSafe(s');
    RollbackKeepsFree(s);
    RollbackKeepsAllocs(s);
  }

  lemma RollbackKeepsFree(s: State)
    requires ComOk(s.com) && WriterOk(s) && FreeSafe(s) && PendSafe(s) && s.writer.Writer?
    ensures FreeSafe(DoRollback(s))
  {
    var s', t := DoRollback(s), s.writer.txid;
    forall p | p in s'.free
      ensures 2 <= p < LastSnap(s.com).hw && p !in s'.pend && !Covered(Cur(s'), p)
      ensures forall i :: !Used(s.com, i, p)
    {
      assert Covered(Cur(s'), p) ==> Used(s.com, s.com.last, p);
      assert p in s.pend ==> PendOk(s, p, s.pend[p]);
    }
  }

  lemma RollbackKeepsAllocs(s: State)
    requires ComOk(s.com) && WriterOk(s) && PendSafe(s) && AllocsSafe(s) && Undoable(s) && s.writer.Writer?
    ensures AllocsSafe(DoRollback(s))
  {
    var s', t := DoRollback(s), s.writer.txid;
    forall r | r in s'.allocs
      ensures 1 <= s'.allocs[r] <= s.com.last + 1 && r < LastSnap(s.com).hw
    {
      assert r in s.pend ==> PendOk(s, r, s.pend[r]);
    }
    forall r, i, p | r in Cur(s') && r in s'.allocs && Within(p, r, Cur(s')[r]) && Used(s.com, i, p)
      ensures s'.allocs[r] <= i
    {
      RestoredBefore(s, r, i, p);
    }
  }

  lemma RestoredBefore(s: State, r: Pgid, i: Txid, p: Pgid)
    requires ComOk(s.com) && WriterOk(s) && PendSafe(s) && AllocsSafe(s) && Undoable(s) && s.writer.Writer?
    requires r in LastSnap(s.com).runs && r in DoRollback(s).allocs
    requires Within(p, r, LastSnap(s.com).runs[r]) && Used(s.com, i, p)
    ensures DoRollback(s).allocs[r] <= i
  {
    var n := LastSnap(s.com).runs[r];
    if WhollyFreed(s, r, n, s.writer.txid) {
      assert Within(r, r, n) && p in s.pend;
    } else {
      assert Within(r, r, n) && Covered(s.writer.runs, r);
      assert r !in s.pend;
    }
  }

  // ----- A commit that fails -----

  lemma BegunKeeps(s: State, at: Failure)
    requires Inv(s) && CanFail(s, at)
    ensures Core(Begun(s, at)) && Tracked(Begun(s, at)) && Begun(s, at).com == s.com && Begun(s, at).disk == s.disk && Begun(s, at).writer.Writer?
  {
    if !at.Spilling? {
      UnlinkKeeps(s);
      if at.Unwritten? {
        AllocateKeeps(Unlink(s), at.n, at.start);
      }
    }
  }

  /** What a reload may leave free: pages of the list that are not pending, or what was free. */
  lemma RefilledIs(isMap: bool, free: set<Pgid>, listed: set<Pgid>, pend: map<Pgid, Pend>)
    requires forall p :: p in free ==> p !in pend
    ensures ReloadsRight(isMap, listed, pend) ==> forall p :: p in Refilled(isMap, free, listed, pend) ==> p in free || (p in listed && p !in pend)
    ensures !ReloadsRight(isMap, listed, pend) ==> Refilled(isMap, free, listed, pend) == listed && listed != {} && listed <= pend.Keys
  {
    if !ReloadsRight(isMap, listed, pend) {
      forall p | p in listed
        ensures p in pend.Keys
      {
      }
    }
  }

  /**
    A failed commit keeps the invariant if and only if the reload comes out right; without a freelist on
    disk it always does. If not, every page of the list is free and pending at once.
   */
  lemma FailKeeps(s: State, at: Failure, isMap: bool)
    requires Inv(s) && CanFail(s, at)
    ensures var r := DoRollback(Begun(s, at)); Inv(DoFail(s, at, isMap)) <==> (HasFreelist(s.com) ==> ReloadsRight(isMap, s.disk, r.pend))
    ensures var s' := DoFail(s, at, isMap); !Inv(s') ==> s'.free == s.disk && s.disk != {} && s.disk <= s'.pend.Keys
  {
    BegunKeeps(s, at);
    RollbackCore(Begun(s, at));
    ReloadKeeps(DoRollback(Begun(s, at)), isMap);
  }

  lemma ReloadKeeps(r: State, isMap: bool)
    requires Inv(r) && r.writer.NoWriter?
    ensures var s' := r.(free := Reloads(r, isMap));
      && (Inv(s') <==> (HasFreelist(r.com) ==> ReloadsRight(isMap, r.disk, r.pend)))
      && (!Inv(s') ==> s'.free == r.disk && r.disk != {} && r.disk <= r.pend.Keys)
  {
    RefilledIs(isMap, r.free, r.disk, r.pend);
    if HasFreelist(r.com) ==> ReloadsRight(isMap, r.disk, r.pend) {
      FreeAgain(r, Reloads(r, isMap));
    } else {
      var p := Member(r.disk);
      assert p in Reloads(r, isMap) && p in r.pend;
    }
  }

  /** What was free, or is listed and not pending, may be free. */
  lemma FreeAgain(r: State, free: set<Pgid>)
    requires Inv(r) && r.writer.NoWriter? && forall p :: p in free ==> p in r.free || (p in Listed(r) && p !in r.pend)
    ensures Inv(r.(free := free))
  {
    var s' := r.(free := free);
    forall p | p in free
      ensures 2 <= p < LastSnap(r.com).hw && p !in r.pend && !Covered(Cur(s'), p)
      ensures forall i :: !Used(r.com, i, p)
    {
      assert Covered(Cur(s'), p) ==> Used(r.com, r.com.last, p);
    }
    forall p | p in r.pend
      ensures PendOk(s', p, r.pend[p])
    {
      assert PendOk(r, p, r.pend[p]);
    }
  }

  // ----- Reopen -----

  lemma ReopenKeeps(s: State)
    requires Inv(s)
    ensures Inv(Apply(s, Reopen))
  {
    var s' := Apply(s, Reopen);
    assert forall i, p :: Used(s'.com, i, p) <==> Used(s.com, i, p) && i == s.com.last;
    assert forall p :: Covered(Cur(s'), p) ==> Used(s.com, s.com.last, p);
    assert FreeSafe(s');
  }

  // ----- Whole runs -----

  lemma AllocateEvent(s: State, n: int, start: Pgid)
    requires Inv(s) && Enabled(s, Allocate(n, start))
    ensures Inv(Apply(s, Allocate(n, start)))
  {
    AllocateKeeps(s, n, start);
  }

  lemma FreeEvent(s: State, run: Pgid)
    requires Inv(s) && Enabled(s, Free(run))
    ensures Inv(Apply(s, Free(run)))
  {
    FreeKeeps(s, run, false);
    FreeTracks(s, run, false);
  }

  lemma EventKeeps(s: State, e: Event)
    requires Inv(s) && Enabled(s, e)
    ensures Inv(Apply(s, e))
  {
    hide Inv;
    match e
    case BeginRead => BeginReadKeeps(s);
    case EndRead(r) => EndReadKeeps(s, r);
    case BeginWrite => BeginWriteKeeps(s);
    case Allocate(n, start) => AllocateEvent(s, n, start);
    case Free(run) => FreeEvent(s, run);
    case Commit(n, start) => CommitKeeps(s, n, start);
    case CommitUnsynced => CommitUnsyncedKeeps(s);
    case Rollback => RollbackKeeps(s);
    case Fail(at, isMap) => FailKeeps(s, at, isMap);
    case Reopen => ReopenKeeps(s);
  }

  /** A database as just opened: no transaction, nothing pending, the free pages read from disk. */
  ghost predicate Init(s: State) {
    && ComOk(s.com) && FreelistNew(s.com) && s.com.readers == multiset{}
    && s.writer.NoWriter? && s.pend == map[] && s.allocs == map[] && s.free == Listed(s) && DiskSafe(s)
    && forall p :: p in s.free ==> 2 <= p < LastSnap(s.com).hw && !Covered(LastSnap(s.com).runs, p)
  }

  ghost predicate Runnable(s: State, es: seq<Event>)
    decreases |es|
  {
    es == [] || (Enabled(s, es[0]) && Runnable(Apply(s, es[0]), es[1..]))
  }

  ghost function After(s: State, es: seq<Event>): State
    requires Runnable(s, es)
    decreases |es|
  {
    if es == [] then s else After(Apply(s, es[0]), es[1..])
  }

  lemma InitInv(s: State)
    requires Init(s)
    ensures Inv(s)
  {
    assert forall i, p :: Used(s.com, i, p) ==> i == s.com.last;
  }

  lemma {:induction false} RunKeeps(s: State, es: seq<Event>)
    requires Inv(s) && Runnable(s, es)
    ensures Inv(After(s, es))
    decreases |es|
  {
    if es != [] {
      EventKeeps(s, es[0]);
      RunKeeps(Apply(s, es[0]), es[1..]);
    }
  }

  /** Page p is part of the last commit or of the snapshot of an open reader. */
  ghost predicate Visible(s: State, p: Pgid) {
    exists i :: Used(s.com, i, p)
  }

  /** The page is not free, and neither the next allocation nor the next commit hands it out. */
  ghost predicate Protected(s: State, p: Pgid) {
    && p !in s.free
    && (forall n, start :: CanAllocate(s, n, start) ==> !Within(p, start, n))
    && (forall n, start :: Enabled(s, Commit(n, start)) ==> !Within(p, start, n))
  }

  lemma VisibleIsProtected(s: State, p: Pgid)
    requires Inv(s) && Visible(s, p)
    ensures Protected(s, p)
  {
    forall n, start | CanAllocate(s, n, start)
      ensures !Within(p, start, n)
    {
      AllocationIsNew(s, n, start);
    }
    forall n, start | Enabled(s, Commit(n, start))
      ensures !Within(p, start, n)
    {
      UnlinkKeeps(s);
      AllocationIsNew(Unlink(s), n, start);
    }
  }

  /**
    MVCC safety: after any run from an opened database, no page that an open reader or the last
    commit can see is free, and none is ever handed out by the next allocation or the next commit.
   */
  lemma ReadersAreSafe(s0: State, es: seq<Event>)
    requires Init(s0) && Runnable(s0, es)
    ensures var s := After(s0, es); forall p :: Visible(s, p) ==> Protected(s, p)
  {
    InitInv(s0);
    RunKeeps(s0, es);
    var s := After(s0, es);
    forall p | Visible(s, p)
      ensures Protected(s, p)
    {
      VisibleIsProtected(s, p);
    }
  }

  /** The database stays open, and no reader of commit r leaves. */
  ghost predicate Stays(es: seq<Event>, r: Txid) {
    forall i :: 0 <= i < |es| ==> !es[i].Reopen? && es[i] != EndRead(r)
  }

  lemma ReaderStays(s: State, e: Event, r: Txid)
    requires Inv(s) && Enabled(s, e) && r in s.com.readers && !e.Reopen? && e != EndRead(r)
    ensures var s' := Apply(s, e); r in s'.com.readers && r in s.com.snaps && r in s'.com.snaps && s'.com.snaps[r] == s.com.snaps[r]
  {
    hide AllocsSafe, PendSafe, FreeSafe, Undoable, Tracked, DiskSafe, FreelistNew, FreelistKept;
  }

  lemma {:induction false} ReaderStaysOn(s: State, es: seq<Event>, r: Txid)
    requires Inv(s) && Runnable(s, es) && Stays(es, r) && r in s.com.readers
    ensures var s' := After(s, es);
      Inv(s') && r in s'.com.readers && r in s.com.snaps && r in s'.com.snaps && s'.com.snaps[r] == s.com.snaps[r]
    decreases |es|
  {
    hide Apply, Enabled;
    if es != [] {
      assert !es[0].Reopen? && es[0] != EndRead(r);
      EventKeeps(s, es[0]);
      ReaderStays(s, es[0], r);
      ReaderStaysOn(Apply(s, es[0]), es[1..], r);
    }
  }

  /**
    What a reader opens with stays: until it leaves, whatever else happens, its snapshot is the last commit of
    the time it was opened, and no page of that is free or handed out.
   */
  lemma SnapshotStays(s0: State, es: seq<Event>, on: seq<Event>, p: Pgid)
    requires Init(s0) && Runnable(s0, es)
    requires var s := After(s0, es); Runnable(Apply(s, BeginRead), on) && Stays(on, s.com.last) && Covered(LastSnap(s.com).runs, p)
    ensures var s := After(s0, es);
      var s' := After(Apply(s, BeginRead), on);
      s.com.last in s'.com.snaps && s'.com.snaps[s.com.last] == LastSnap(s.com) && Protected(s', p)
  {
    InitInv(s0);
    RunKeeps(s0, es);
    var s := After(s0, es);
    EventKeeps(s, BeginRead);
    var s1 := Apply(s, BeginRead);
    assert s.com.last in s1.com.readers;
    ReaderStaysOn(s1, on, s.com.last);
    var s' := After(s1, on);
    assert Used(s'.com, s.com.last, p);
    VisibleIsProtected(s', p);
  }

  /** No double free: the pages of a run the writer may free are neither free nor pending. */
  lemma FreeNeverPanics(s0: State, es: seq<Event>, run: Pgid, p: Pgid)
    requires Init(s0) && Runnable(s0, es)
    requires var s := After(s0, es); s.writer.Writer? && run in s.writer.runs && Within(p, run, s.writer.runs[run])
    ensures p !in After(s0, es).free && p !in After(s0, es).pend
  {
    InitInv(s0);
    RunKeeps(s0, es);
    var s := After(s0, es);
    assert Covered(Cur(s), p);
    assert p in s.pend ==> PendOk(s, p, s.pend[p]);
  }

  // ----- Why a failed commit has a guard -----

  /** A database of a freelist page and one page of data, with nothing free. */
  ghost function Small(): State {
    State(Com(1, map[1 := Snap(map[2 := 1, 3 := 1], 2, 4)], multiset{}), NoWriter, {}, map[], map[], {})
  }

  /** Two pages pending, both needed by the reader of the first commit, and the list on disk has no other. */
  ghost predicate ReaderBehind(s: State) {
    && s.com.last == 2 && s.com.readers == multiset{1} && 1 in s.com.snaps && 3 in s.com.snaps[1].runs && s.com.snaps[1].runs[3] == 1
    && 3 in s.disk && s.disk <= s.pend.Keys && forall p :: p in s.pend ==> Needed(s.pend[p], s.com.readers) && s.pend[p].freeTx == 2
  }

  lemma SmallIsInit()
    ensures Init(Small())
  {
    var c := Small().com;
    assert LastSnap(c) == Snap(map[2 := 1, 3 := 1], 2, 4);
  }

  /** A reader opens, then a writer. */
  lemma WriterUnderReader() returns (s: State, es: seq<Event>)
    ensures Runnable(Small(), es) && s == After(Small(), es)
    ensures s.com == Small().com.(readers := multiset{1}) && s.writer == Writer(2, map[2 := 1, 3 := 1], 4)
    ensures s.free == {} && s.pend == map[] && s.allocs == map[]
  {
    assert LastSnap(Small().com) == Snap(map[2 := 1, 3 := 1], 2, 4);
    RunOnwards(Small(), [], BeginRead);
    var a := Apply(Small(), BeginRead);
    assert a.com.readers == multiset{1};
    RunOnwards(Small(), [] + [BeginRead], BeginWrite);
    s, es := Apply(a, BeginWrite), [] + [BeginRead] + [BeginWrite];
  }

  /** The writer frees the data page. */
  lemma PageFreed(s: State) returns (r: State)
    requires s.com == Small().com.(readers := multiset{1}) && s.writer == Writer(2, map[2 := 1, 3 := 1], 4)
    requires s.free == {} && s.pend == map[] && s.allocs == map[]
    ensures Enabled(s, Free(3)) && r == Apply(s, Free(3)) && r.com == s.com && r.free == {} && r.allocs == map[]
    ensures r.writer == Writer(2, map[2 := 1], 4) && (forall p :: p in r.pend <==> p == 3) && r.pend[3] == Pend(2, 0)
  {
    assert LastSnap(s.com) == Snap(map[2 := 1, 3 := 1], 2, 4);
    r := Apply(s, Free(3));
    assert forall p :: p in r.pend <==> Within(p, 3, 1);
    assert Within(3, 3, 1);
  }

  /** The commit frees the freelist page and writes both out as free. */
  lemma PageCommitted(s: State) returns (r: State)
    requires s.com == Small().com.(readers := multiset{1}) && s.writer == Writer(2, map[2 := 1], 4)
    requires s.free == {} && s.allocs == map[] && (forall p :: p in s.pend <==> p == 3) && s.pend[3] == Pend(2, 0)
    ensures Enabled(s, Commit(1, 4)) && r == Apply(s, Commit(1, 4)) && r.writer.NoWriter? && ReaderBehind(r)
  {
    assert LastSnap(s.com) == Snap(map[2 := 1, 3 := 1], 2, 4);
    var d := DoFree(s, 2, true);
    assert forall start :: RunAt(d.free, start, 1) ==> start in d.free;
    assert forall p :: p in d.pend <==> Within(p, 3, 1) || Within(p, 2, 1);
    assert Within(2, 2, 1) && d.pend[3] == Pend(2, 0) && d.pend[2] == Pend(2, 1);
    r := Apply(s, Commit(1, 4));
    assert 1 in r.com.readers && !Within(3, 4, 1);
  }

  /**
    Without the guard readers are not safe: the next writer fails before it has done anything, the
    hashmap freelist is reloaded, and a page the open reader can see is free.
   */
  lemma ReloadBreaksReaders() returns (s: State, es: seq<Event>)
    ensures Init(Small()) && Runnable(Small(), es) && s == After(Small(), es) && CanFail(s, Spilling)
    ensures var s' := DoFail(s, Spilling, true); 3 in s'.free && Visible(s', 3)
  {
    SmallIsInit();
    var c, es0 := WriterUnderReader();
    var b := PageFreed(c);
    RunOnwards(Small(), es0, Free(3));
    var a := PageCommitted(b);
    RunOnwards(Small(), es0 + [Free(3)], Commit(1, 4));
    var es1 := es0 + [Free(3)] + [Commit(1, 4)];
    InitInv(Small());
    RunKeeps(Small(), es1);
    s := Apply(a, BeginWrite);
    es := es1 + [BeginWrite];
    RunOnwards(Small(), es1, BeginWrite);
    SameMap(s.pend, a.pend);
    var s' := DoFail(s, Spilling, true);
    SameMap(s'.pend, a.pend);
    assert s'.free == s.disk;
    assert Used(s'.com, 1, 3);
  }

  lemma {:induction false} RunOnwards(s: State, es: seq<Event>, e: Event)
    requires Runnable(s, es) && Enabled(After(s, es), e)
    ensures Runnable(s, es + [e]) && After(s, es + [e]) == Apply(After(s, es), e)
    decreases |es|
  {
    if es == [] {
      assert [] + [e] == [e] && [e][1..] == [];
    } else {
      RunOnwards(Apply(s, es[0]), es[1..], e);
      assert (es + [e])[1..] == es[1..] + [e];
    }
  }
}
