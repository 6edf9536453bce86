/**
  The transactions of bdb (bitree/bdb/db.go, bitree/bdb/tx.go) over the freelist: every call is a
  step of the page-reuse state machine, and freePages releases exactly what no reader needs.
 */
module Database {
  import opened PageIds
  import opened SpanIndex
  import opened Freelist
  import opened Mvcc

  datatype RwTx = NoTx | RwTx(txid: Txid, pgid: Pgid)

  // ----- Which pending pages the passes of freePages leave -----

  /** After the passes up to reader k of the sorted list, an entry is left if needed or freed at reader k or later. */
  ghost predicate LeftAfter(txs: seq<Txid>, k: int, e: Pend)
    requires 0 <= k < |txs|
  {
    Needed(e, multiset(txs)) || txs[k] <= e.freeTx
  }

  lemma NeededIsIndexed(txs: seq<Txid>, e: Pend)
    ensures Needed(e, multiset(txs)) <==> exists i :: 0 <= i < |txs| && e.allocTx <= txs[i] <= e.freeTx
  {
    if Needed(e, multiset(txs)) {
      var r :| r in multiset(txs) && e.allocTx <= r <= e.freeTx;
      assert r in txs;
    }
    if i :| 0 <= i < |txs| && e.allocTx <= txs[i] <= e.freeTx {
      assert txs[i] in multiset(txs);
    }
  }

  /** The first pass, release(minid - 1). */
  lemma FirstPass(txs: seq<Txid>, e: Pend)
    requires Sorted(txs) && txs != []
    ensures LeftAfter(txs, 0, e) <==> e.freeTx > txs[0] - 1
  {
    NeededIsIndexed(txs, e);
  }

  /** The pass between two neighbouring readers. */
  lemma MiddlePass(txs: seq<Txid>, k: int, e: Pend)
    requires Sorted(txs) && 0 <= k && k + 1 < |txs| && e.allocTx <= e.freeTx
    ensures LeftAfter(txs, k + 1, e) <==> LeftAfter(txs, k, e) && !e.In(txs[k] + 1, txs[k + 1] - 1)
  {
    NeededIsIndexed(txs, e);
    assert txs[k] <= txs[k + 1];
  }

  /** The last pass, above all readers. */
  lemma LastPass(txs: seq<Txid>, e: Pend, max: Txid)
    requires Sorted(txs) && txs != [] && e.allocTx <= e.freeTx <= max
    ensures Needed(e, multiset(txs)) <==> LeftAfter(txs, |txs| - 1, e) && !e.In(txs[|txs| - 1] + 1, max)
  {
    NeededIsIndexed(txs, e);
  }

  // ----- How a step changes the scan marks -----

  /** Every entry was allocated no later than it was freed. */
  ghost predicate InOrder(pend: map<Pgid, Pend>) {
    forall p :: p in pend ==> pend[p].allocTx <= pend[p].freeTx
  }

  ghost predicate Subset(after: map<Txid, TxPending>, before: map<Txid, TxPending>) {
    forall t :: t in after ==> t in before && after[t] == before[t]
  }

  lemma SubsetScanned(before: map<Txid, TxPending>, after: map<Txid, TxPending>)
    requires AllShaped(before) && AllShaped(after) && Scanned(before) && Subset(after, before)
    ensures Scanned(after)
  {
  }

  lemma AddedScanned(before: map<Txid, TxPending>, after: map<Txid, TxPending>, pend: map<Pgid, Pend>, t: Txid)
    requires AllShaped(before) && Scanned(before) && Tied(after, pend) && InOrder(pend)
    requires OnlyTx(before, after, t) && TxOf(after, t).lastReleaseBegin == 0
    ensures Scanned(after)
  {
    forall u, p, a | u in after && after[u].Entry(p, a)
      ensures a <= u && (after[u].lastReleaseBegin != 0 ==> a < after[u].lastReleaseBegin)
    {
      assert pend[p] == Pend(u, a);
      assert u != t ==> before[u].Entry(p, a);
    }
  }

  lemma InvInOrder(s: State)
    requires PendSafe(s)
    ensures InOrder(s.pend)
  {
    forall p | p in s.pend
      ensures s.pend[p].allocTx <= s.pend[p].freeTx
    {
      assert PendOk(s, p, s.pend[p]);
    }
  }

  lemma BeforeFreePages(s: State)
    requires Inv(s) && s.writer.NoWriter? && s.com.last + 1 < MAX_TXID
    ensures InOrder(s.pend)
    ensures forall r :: r in s.com.readers ==> 1 <= r < MAX_TXID
    ensures forall p :: p in s.pend ==> s.pend[p].freeTx <= s.com.last < MAX_TXID
  {
    InvInOrder(s);
    forall p | p in s.pend
      ensures s.pend[p].freeTx <= s.com.last
    {
      assert PendOk(s, p, s.pend[p]);
    }
  }

  /** A transaction without pending pages has no scan mark. */
  lemma FreshMark(pending: map<Txid, TxPending>, pend: map<Pgid, Pend>, t: Txid)
    requires Tied(pending, pend) && forall p :: p in pend ==> pend[p].freeTx != t
    ensures TxOf(pending, t).lastReleaseBegin == 0
  {
    IdsOfTxIfAny(pending, pend, t);
  }

  lemma IdsOfTxIfAny(pending: map<Txid, TxPending>, pend: map<Pgid, Pend>, t: Txid)
    requires Tied(pending, pend)
    ensures t in pending ==> exists p :: p in pend && pend[p].freeTx == t
  {
    if t in pending {
      assert pending[t].ids[0] in pending[t].ids;
      IdsOfTx(pending, pend, t);
    }
  }

  /** A run of the writer is neither free nor pending. */
  lemma RunIsLive(s: State, run: Pgid)
    requires WriterOk(s) && FreeSafe(s) && PendSafe(s) && s.writer.Writer? && run in s.writer.runs
    ensures 2 <= run && forall p :: p in Range(run, s.writer.runs[run]) ==> p !in s.free && p !in s.pend
  {
    forall p | p in Range(run, s.writer.runs[run])
      ensures p !in s.free && p !in s.pend
    {
      assert Covered(Cur(s), p);
      assert p in s.pend ==> PendOk(s, p, s.pend[p]);
    }
  }

  lemma SwapOut(txs: seq<Txid>, i: nat)
    requires i < |txs|
    ensures multiset(txs[i := txs[|txs| - 1]][..|txs| - 1]) == multiset(txs) - multiset{txs[i]}
  {
    var last := |txs| - 1;
    assert txs == txs[..last] + [txs[last]];
    if i < last {
      assert txs[i := txs[last]][..last] == txs[..last][i := txs[last]];
    } else {
      assert txs[i := txs[last]][..last] == txs[..last];
    }
  }

  lemma OpenedInit(s: State)
    requires s.writer.NoWriter? && s.pend == map[] && s.allocs == map[]
    requires s.com.readers == multiset{} && 1 <= s.com.last && s.com.last in s.com.snaps
    requires RunsOk(LastSnap(s.com).runs, LastSnap(s.com).hw) && 2 <= LastSnap(s.com).hw && s.free == Listed(s) && s.disk == s.free
    requires HasFreelist(s.com) ==> LastSnap(s.com).freelist in LastSnap(s.com).runs
    requires forall p :: p in s.free ==> 2 <= p < LastSnap(s.com).hw && !Covered(LastSnap(s.com).runs, p)
    ensures Init(s) && Inv(s)
  {
    InitInv(s);
  }

  class DB {
    const freelist: Freelist
    var txs: seq<Txid>
    var rwtx: RwTx
    var metaTxid: Txid
    var metaPgid: Pgid
    var metaFreelist: Pgid
    var metaFreelistOverflow: int
    ghost var s: State

    /** The fields agree with the state of the protocol. */
    ghost predicate Linked()
      reads this, freelist
    {
      && s.free == freelist.free && s.pend == freelist.pend && s.allocs == freelist.allocs
      && s.com.readers == multiset(txs) && s.com.last == metaTxid
      && LastSnap(s.com).hw == metaPgid && LastSnap(s.com).freelist == metaFreelist
      && (metaFreelist in LastSnap(s.com).runs ==> metaFreelistOverflow == LastSnap(s.com).runs[metaFreelist] - 1)
      && (match rwtx case NoTx => s.writer.NoWriter? case RwTx(t, hw) => s.writer.Writer? && s.writer.txid == t && s.writer.hw == hw)
    }

    ghost predicate Marks()
      reads this, freelist
    {
      && AllShaped(freelist.pending) && Scanned(freelist.pending)
      && (rwtx.RwTx? ==> TxOf(freelist.pending, rwtx.txid).lastReleaseBegin == 0)
    }

    ghost predicate Valid()
      reads this, freelist, freelist.spans
    {
      freelist.Valid() && Linked() && Marks() && Inv(s)
    }

    /** Opens a database: the free pages come from the freelist page of the last commit, or from looking for them. */
    constructor (freelistIsMap: bool, ids: seq<Pgid>, txid: Txid, pgid: Pgid, page: Pgid, overflow: nat, ghost runs: map<Pgid, int>)
      requires 1 <= txid && RunsOk(runs, pgid) && 2 <= pgid && (page == NO_FREELIST || (page in runs && runs[page] == overflow + 1))
      requires StrictlySorted(ids) && forall p :: p in ids ==> 2 <= p < pgid && !Covered(runs, p)
      requires page == NO_FREELIST ==> Ids(ids) == Unused(runs, pgid)
      ensures Valid() && Init(s) && s.free == Ids(ids) && txs == [] && rwtx.NoTx?
      ensures s.com == Com(txid, map[txid := Snap(runs, page, pgid)], multiset{})
    {
      freelist := new Freelist(freelistIsMap);
      txs, rwtx := [], NoTx;
      metaTxid, metaPgid, metaFreelist, metaFreelistOverflow := txid, pgid, page, overflow;
      new;
      LoadFreelist(ids);
      s := State(Com(txid, map[txid := Snap(runs, page, pgid)], multiset{}), NoWriter, freelist.free, map[], map[], freelist.free);
      OpenedInit(s);
    }

    method LoadFreelist(ids: seq<Pgid>)
      requires freelist.Valid() && freelist.pending == map[] && freelist.pend == map[] && freelist.free == {}
      requires StrictlySorted(ids) && forall p :: p in ids ==> 2 <= p
      modifies freelist`ids, freelist`free, freelist`cache, freelist.spans
      ensures freelist.Valid() && freelist.free == Ids(ids)
    {
      freelist.ReadIds(ids);
      assert PendingIds(freelist.pending) == {};
      if ids == [] {
        SameIds(freelist.free, Ids(ids));
      }
    }

    /** beginTx: a reader joins with the id of the last commit. */
    method BeginTx() returns (id: Txid)
      requires Valid()
      modifies this`txs, this`s
      ensures Valid() && id == old(metaTxid) && txs == old(txs) + [id] && s == Apply(old(s), BeginRead)
    {
      EventKeeps(s, BeginRead);
      id := metaTxid;
      txs := txs + [id];
      s := Apply(s, BeginRead);
    }

    /** removeTx: a reader leaves; the last one takes its place in the list. */
    method RemoveTx(i: nat)
      requires Valid() && i < |txs|
      modifies this`txs, this`s
      ensures Valid() && multiset(txs) == multiset(old(txs)) - multiset{old(txs)[i]} && s == Apply(old(s), EndRead(old(txs)[i]))
    {
      ghost var r := txs[i];
      assert r in multiset(txs);
      EventKeeps(s, EndRead(r));
      var last := |txs| - 1;
      SwapOut(txs, i);
      txs := txs[i := txs[last]][..last];
      s := Apply(s, EndRead(r));
    }

    /** beginRWTx: the only writer starts from the last commit, after freePages. */
    method BeginRWTx() returns (id: Txid)
      requires Valid() && rwtx.NoTx? && metaTxid + 1 < MAX_TXID
      modifies this`txs, this`rwtx, this`s, freelist`ids, freelist`pending, freelist`free, freelist`pend, freelist.spans
      ensures Valid() && s == Apply(old(s), BeginWrite)
      ensures rwtx == RwTx(metaTxid + 1, metaPgid) && id == metaTxid + 1
    {
      hide Inv, Tied, ComOk, Tracked, Undoable;
      EventKeeps(s, BeginWrite);
      BeforeFreePages(s);
      assert forall r :: r in txs ==> r in multiset(txs);
      id := metaTxid + 1;
      rwtx := RwTx(id, metaPgid);
      FreePages();
      s := Apply(s, BeginWrite);
      FreshMark(freelist.pending, freelist.pend, id);
    }

    /** allocate: a run from the freelist, else from above the high-water mark. */
    method Allocate(count: nat) returns (id: Pgid)
      requires Valid() && rwtx.RwTx? && 1 <= count
      modifies this`rwtx, this`s, freelist`ids, freelist`allocs, freelist`cache, freelist`free, freelist.spans
      ensures Valid() && CanAllocate(old(s), count, id)
      ensures s == DoAllocate(old(s), count, id) && s == Apply(old(s), Event.Allocate(count, id))
      ensures forall p :: Within(p, id, count) ==> !Visible(old(s), p)
    {
      hide RunAt, LastSnap, Tied, Scanned;
      id := TakePages(count);
      AllocateKeeps(old(s), count, id);
      assert FreelistKept(s);
    }

    method TakePages(count: nat) returns (id: Pgid)
      requires freelist.Valid() && Linked() && Marks() && Core(s) && rwtx.RwTx? && 1 <= count
      modifies this`rwtx, this`s, freelist`ids, freelist`allocs, freelist`cache, freelist`free, freelist.spans
      ensures freelist.Valid() && Linked() && Marks() && CanAllocate(old(s), count, id)
      ensures s == DoAllocate(old(s), count, id) && rwtx.RwTx? && rwtx.txid == old(rwtx.txid)
    {
      id := freelist.Allocate(rwtx.txid, count);
      if id == 0 {
        id := rwtx.pgid;
        rwtx := rwtx.(pgid := rwtx.pgid + count);
      }
      s := DoAllocate(s, count, id);
    }

    /** free of a page run of the writer's tree: never of a page that is already free. */
    method FreeRun(start: Pgid, overflow: nat)
      requires Valid() && Enabled(s, Free(start)) && s.writer.runs[start] == overflow + 1
      modifies this`s, freelist`pending, freelist`allocs, freelist`cache, freelist`pend
      ensures Valid() && s == Apply(old(s), Free(start))
    {
      EventKeeps(s, Free(start));
      GiveBack(start, overflow, false);
    }

    method GiveBack(start: Pgid, overflow: nat, isFreelistPage: bool)
      requires freelist.Valid() && Linked() && Marks() && Core(s) && FreelistNew(s.com) && FreelistKept(s)
      requires CanFree(s, start, isFreelistPage) && s.writer.runs[start] == overflow + 1
      modifies this`s, freelist`pending, freelist`allocs, freelist`cache, freelist`pend
      ensures freelist.Valid() && Linked() && Marks() && Core(s)
      ensures s == DoFree(old(s), start, isFreelistPage)
    {
      FreeKeeps(s, start, isFreelistPage);
      RunIsLive(s, start);
      freelist.Free(rwtx.txid, start, overflow, isFreelistPage);
      s := DoFree(s, start, isFreelistPage);
      InvInOrder(s);
      AddedScanned(old(freelist.pending), freelist.pending, freelist.pend, rwtx.txid);
    }

    /** Commit: the old freelist run is freed, a new one allocated, and the writer's pages become the last commit. */
    method Commit(count: nat) returns (page: Pgid)
      requires Valid() && rwtx.RwTx? && 1 <= count
      modifies this, freelist, freelist.spans
      ensures Valid() && rwtx.NoTx? && Enabled(old(s), Event.Commit(count, page))
      ensures s == Apply(old(s), Event.Commit(count, page))
      ensures forall p :: Within(p, page, count) ==> !Visible(old(s), p)
    {
      GiveBackFreelist();
      ghost var s1 := s;
      page := TakePages(count);
      EventKeeps(old(s), Event.Commit(count, page));
      AllocationIsNew(s1, count, page);
      Publish(page, count, s1.free + s1.pend.Keys - Range(page, count));
    }

    /** Commit with NoFreelistSync: no new freelist run is written. */
    method CommitNoSync()
      requires Valid() && rwtx.RwTx?
      modifies this, freelist, freelist.spans
      ensures Valid() && rwtx.NoTx? && Enabled(old(s), CommitUnsynced) && s == Apply(old(s), CommitUnsynced)
    {
      EventKeeps(old(s), CommitUnsynced);
      GiveBackFreelist();
      Publish(NO_FREELIST, 0, {});
    }

    /** The run of the last freelist, if it has one, is freed. */
    method GiveBackFreelist()
      requires Valid() && rwtx.RwTx?
      modifies this`s, freelist`pending, freelist`allocs, freelist`cache, freelist`pend
      ensures freelist.Valid() && Linked() && Marks() && Core(s) && CanUnlink(old(s)) && s == Unlink(old(s))
    {
      if metaFreelist != NO_FREELIST {
        GiveBack(metaFreelist, metaFreelistOverflow, true);
      }
    }

    /** writeMeta and close. */
    method Publish(page: Pgid, count: nat, ghost disk: set<Pgid>)
      requires freelist.Valid() && Linked() && Marks() && s.writer.Writer? && Inv(DoPublish(s, page, disk))
      requires page == NO_FREELIST || (page in s.writer.runs && s.writer.runs[page] == count)
      modifies this
      ensures Valid() && s == DoPublish(old(s), page, disk) && rwtx.NoTx?
    {
      metaTxid, metaPgid, metaFreelist, metaFreelistOverflow := rwtx.txid, rwtx.pgid, page, count - 1;
      rwtx := NoTx;
      s := DoPublish(s, page, disk);
    }

    /** Rollback before commit: the freelist takes back what the transaction freed. */
    method RollbackTx()
      requires Valid() && rwtx.RwTx?
      modifies this, freelist, freelist.spans
      ensures Valid() && rwtx.NoTx? && s == Apply(old(s), Rollback)
    {
      hide Inv, Tied;
      EventKeeps(s, Rollback);
      freelist.Rollback(rwtx.txid);
      rwtx := NoTx;
      s := Apply(s, Rollback);
      SubsetScanned(old(freelist.pending), freelist.pending);
    }

    /**
      A commit that fails: before the old freelist run is freed, before the new one is allocated, or
      after. The freelist is reloaded from the page the last commit wrote, and all is well exactly if
      that comes out right; or, without such a page, from looking for unused pages, and all is well.
     */
    method FailTx(unlinked: bool, count: nat, pageIds: seq<Pgid>) returns (ghost at: Failure)
      requires Valid() && rwtx.RwTx? && StrictlySorted(pageIds) && Ids(pageIds) == Listed(s)
      modifies this, freelist, freelist.spans
      ensures CanFail(old(s), at) && s == DoFail(old(s), at, freelist.isMap) && rwtx.NoTx?
      ensures Valid() <==> (HasFreelist(s.com) ==> ReloadsRight(freelist.isMap, Ids(pageIds), s.pend))
      ensures !Valid() ==> pageIds != [] && freelist.free == Ids(pageIds) <= freelist.pend.Keys
    {
      hide Tied, Scanned;
      at := StartCommit(unlinked, count);
      FailKeeps(old(s), at, freelist.isMap);
      UndoAndReload(pageIds);
      assert Linked() && Marks();
      assert freelist.Valid() ==> forall p :: p in s.free ==> p !in s.pend;
    }

    /** As far as a commit comes before it fails. */
    method StartCommit(unlinked: bool, count: nat) returns (ghost at: Failure)
      requires Valid() && rwtx.RwTx?
      modifies this, freelist, freelist.spans
      ensures freelist.Valid() && Linked() && Marks() && Core(s) && rwtx.RwTx?
      ensures CanFail(old(s), at) && s == Begun(old(s), at) && s.disk == old(s.disk) && s.com == old(s.com)
    {
      hide Inv, Core, Tied;
      at := Spilling;
      if unlinked {
        GiveBackFreelist();
        at := Unlinked;
        if count > 0 {
          var page := TakePages(count);
          at := Unwritten(count, page);
        }
      }
      BegunKeeps(old(s), at);
    }

    /** tx.rollback of a writer. */
    method UndoAndReload(pageIds: seq<Pgid>)
      requires freelist.Valid() && Linked() && Marks() && Core(s) && rwtx.RwTx?
      requires StrictlySorted(pageIds) && Ids(pageIds) == Listed(s) && forall p :: p in Listed(s) ==> 1 < p
      modifies this, freelist, freelist.spans
      ensures Linked() && Marks() && rwtx.NoTx?
      ensures var r := DoRollback(old(s)); s == r.(free := Reloads(r, freelist.isMap))
      ensures s.free !! s.pend.Keys ==> freelist.Valid()
    {
      freelist.Rollback(rwtx.txid);
      rwtx := NoTx;
      SubsetScanned(old(freelist.pending), freelist.pending);
      assert forall p :: p in pageIds ==> p in Ids(pageIds);
      if metaFreelist == NO_FREELIST {
        freelist.NoSyncReload(pageIds);
      } else {
        freelist.Reload(pageIds);
      }
      ghost var r := DoRollback(s);
      s := r.(free := Reloads(r, freelist.isMap));
    }

    /** freePages: releases exactly the pending pages whose life spans no open reader. */
    method FreePages()
      requires freelist.Valid() && AllShaped(freelist.pending) && Scanned(freelist.pending) && InOrder(freelist.pend)
      requires forall r :: r in txs ==> 1 <= r < MAX_TXID
      requires forall p :: p in freelist.pend ==> freelist.pend[p].freeTx < MAX_TXID
      modifies this`txs, freelist`ids, freelist`pending, freelist`free, freelist`pend, freelist.spans
      ensures freelist.Valid() && AllShaped(freelist.pending) && Scanned(freelist.pending)
      ensures multiset(txs) == old(multiset(txs))
      ensures freelist.pend == StillPending(old(freelist.pend), multiset(txs))
      ensures freelist.free == old(freelist.free) + LetGo(old(freelist.pend), multiset(txs))
    {
      txs := Sort(txs);
      MultisetMembers(txs, old(txs));
      if |txs| == 0 {
        ReleaseAll();
      } else {
        ReleaseBetween();
      }
    }

    /** freePages without readers. */
    method ReleaseAll()
      requires freelist.Valid() && Scanned(freelist.pending) && txs == []
      requires forall p :: p in freelist.pend ==> freelist.pend[p].freeTx < MAX_TXID
      modifies freelist`ids, freelist`pending, freelist`free, freelist`pend, freelist.spans
      ensures freelist.Valid() && Scanned(freelist.pending)
      ensures freelist.pend == StillPending(old(freelist.pend), multiset(txs))
      ensures freelist.free == old(freelist.free) + LetGo(old(freelist.pend), multiset(txs))
    {
      var m1 := freelist.Release(MAX_TXID - 1);
      SubsetScanned(old(freelist.pending), freelist.pending);
      SameMap(freelist.pend, map[]);
      var m3 := freelist.ReleaseRange(MAX_TXID, MAX_TXID);
      assert Ids(m3) == {} by {
        SameIds(Ids(m3), {});
      }
      SameMap(freelist.pend, StillPending(old(freelist.pend), multiset(txs)));
      SameIds(Ids(m1), LetGo(old(freelist.pend), multiset(txs)));
    }

    /** freePages with readers: below them, between them, above them. */
    method ReleaseBetween()
      requires freelist.Valid() && Scanned(freelist.pending) && InOrder(freelist.pend)
      requires Sorted(txs) && txs != [] && forall r :: r in txs ==> 1 <= r < MAX_TXID
      requires forall p :: p in freelist.pend ==> freelist.pend[p].freeTx < MAX_TXID
      modifies freelist`ids, freelist`pending, freelist`free, freelist`pend, freelist.spans
      ensures freelist.Valid() && Scanned(freelist.pending)
      ensures freelist.pend == StillPending(old(freelist.pend), multiset(txs))
      ensures freelist.free == old(freelist.free) + LetGo(old(freelist.pend), multiset(txs))
    {
      ghost var all, total := freelist.pend, freelist.free + freelist.pend.Keys;
      assert txs[0] in txs;
      ReleaseBelow();
      var minid := MiddlePasses(all, total);
      ReleaseAbove(minid, old(freelist.free), all);
    }

    /** The pass above the newest reader. */
    method ReleaseAbove(minid: Txid, ghost free: set<Pgid>, ghost all: map<Pgid, Pend>)
      requires Sorted(txs) && txs != [] && InOrder(all) && AtPass(|txs|, minid, all, free + all.Keys)
      requires free !! all.Keys && forall p :: p in all ==> all[p].freeTx < MAX_TXID
      modifies freelist`ids, freelist`pending, freelist`free, freelist`pend, freelist.spans
      ensures freelist.Valid() && Scanned(freelist.pending)
      ensures freelist.pend == StillPending(all, multiset(txs)) && freelist.free == free + LetGo(all, multiset(txs))
    {
      ghost var before := freelist.pend;
      Pass(minid, MAX_TXID);
      AfterLast(txs, all, before, freelist.pend);
      ConservedFree(free, all, freelist.free, freelist.pend, multiset(txs));
    }

    /** The pass below the oldest reader. */
    method ReleaseBelow()
      requires freelist.Valid() && Scanned(freelist.pending) && InOrder(freelist.pend)
      requires Sorted(txs) && txs != [] && 1 <= txs[0]
      modifies freelist`ids, freelist`pending, freelist`free, freelist`pend, freelist.spans
      ensures AtPass(0, txs[0], old(freelist.pend), old(freelist.free + freelist.pend.Keys))
    {
      var m1 := freelist.Release(txs[0] - 1);
      SubsetScanned(old(freelist.pending), freelist.pending);
      AfterFirst(txs, old(freelist.pend), freelist.pend);
      Conserved(old(freelist.free), old(freelist.pend), freelist.free, freelist.pend, m1);
    }

    /** Before pass k the entries of `all` that are left are those of Passed; `total` is free and pending together. */
    ghost predicate AtPass(k: nat, minid: Txid, all: map<Pgid, Pend>, total: set<Pgid>)
      reads this`txs, freelist, freelist.spans
      requires k <= |txs| && 0 < |txs|
    {
      && freelist.Valid() && Scanned(freelist.pending) && InOrder(freelist.pend)
      && 1 <= minid && minid == (if k == 0 then txs[0] else txs[k - 1] + 1)
      && Passed(txs, if k == 0 then 0 else k - 1, all, freelist.pend)
      && freelist.free + freelist.pend.Keys == total
    }

    /** The loop of freePages over the readers. */
    method MiddlePasses(ghost all: map<Pgid, Pend>, ghost total: set<Pgid>) returns (minid: Txid)
      requires Sorted(txs) && txs != [] && InOrder(all) && AtPass(0, txs[0], all, total)
      modifies freelist`ids, freelist`pending, freelist`free, freelist`pend, freelist.spans
      ensures AtPass(|txs|, minid, all, total)
    {
      minid := txs[0];
      for k := 0 to |txs|
        modifies freelist`ids, freelist`pending, freelist`free, freelist`pend, freelist.spans
        invariant AtPass(k, minid, all, total)
      {
        minid := MiddlePass1(k, minid, all, total);
      }
    }

    method MiddlePass1(k: nat, minid: Txid, ghost all: map<Pgid, Pend>, ghost total: set<Pgid>) returns (next: Txid)
      requires Sorted(txs) && k < |txs| && InOrder(all) && AtPass(k, minid, all, total)
      modifies freelist`ids, freelist`pending, freelist`free, freelist`pend, freelist.spans
      ensures AtPass(k + 1, next, all, total)
    {
      ghost var before := freelist.pend;
      Pass(minid, txs[k] - 1);
      AfterMiddle(txs, k, all, before, freelist.pend);
      next := txs[k] + 1;
    }

    /** One releaseRange of freePages; the scan marks withhold nothing. */
    method Pass(begin: Txid, end: Txid)
      requires freelist.Valid() && Scanned(freelist.pending) && InOrder(freelist.pend) && 1 <= begin
      modifies freelist`ids, freelist`pending, freelist`free, freelist`pend, freelist.spans
      ensures freelist.Valid() && Scanned(freelist.pending) && InOrder(freelist.pend)
      ensures freelist.pend == Outside(old(freelist.pend), begin, end)
      ensures freelist.free + freelist.pend.Keys == old(freelist.free + freelist.pend.Keys)
    {
      forall p | p in freelist.pend
        ensures Released(freelist.pending, freelist.pend[p], begin, end) <==> freelist.pend[p].In(begin, end)
      {
        SkipWithholdsNothing(freelist.pending, freelist.pend, p, begin, end);
      }
      SameMap(KeptOutside(freelist.pending, freelist.pend, begin, end), Outside(freelist.pend, begin, end));
      var m := freelist.ReleaseRange(begin, end);
      Conserved(old(freelist.free), old(freelist.pend), freelist.free, freelist.pend, m);
    }
  }

  ghost function Outside(pend: map<Pgid, Pend>, begin: Txid, end: Txid): map<Pgid, Pend> {
    map p | p in pend && !pend[p].In(begin, end) :: pend[p]
  }

  /** Release moves pages from pending to free and loses none. */
  lemma Conserved(free: set<Pgid>, pend: map<Pgid, Pend>, free': set<Pgid>, pend': map<Pgid, Pend>, m: seq<Pgid>)
    requires free' == free + Ids(m)
    requires forall p :: p in m ==> p in pend
    requires forall p :: p in pend' <==> p in pend && p !in m
    ensures free' + pend'.Keys == free + pend.Keys
  {
    SameIds(free' + pend'.Keys, free + pend.Keys);
  }

  lemma ConservedFree(free: set<Pgid>, pend: map<Pgid, Pend>, free': set<Pgid>, pend': map<Pgid, Pend>, readers: multiset<Txid>)
    requires free !! pend.Keys && free' !! pend'.Keys && free' + pend'.Keys == free + pend.Keys
    requires pend' == StillPending(pend, readers)
    ensures free' == free + LetGo(pend, readers)
  {
    forall p
      ensures p in free' <==> p in free + LetGo(pend, readers)
    {
      assert p in free' + pend'.Keys <==> p in free + pend.Keys;
      assert p in pend'.Keys <==> p in pend && Needed(pend[p], readers);
    }
    SameIds(free', free + LetGo(pend, readers));
  }

  ghost predicate Passed(txs: seq<Txid>, k: int, before: map<Pgid, Pend>, after: map<Pgid, Pend>)
    requires 0 <= k < |txs|
  {
    && (forall p :: p in after <==> p in before && LeftAfter(txs, k, before[p]))
    && (forall p :: p in after ==> after[p] == before[p])
  }

  lemma AfterFirst(txs: seq<Txid>, before: map<Pgid, Pend>, after: map<Pgid, Pend>)
    requires Sorted(txs) && txs != [] && after == KeptAfter(before, txs[0] - 1)
    ensures Passed(txs, 0, before, after)
  {
    forall p | p in before
      ensures LeftAfter(txs, 0, before[p]) <==> before[p].freeTx > txs[0] - 1
    {
      FirstPass(txs, before[p]);
    }
  }

  lemma AfterMiddle(txs: seq<Txid>, k: int, all: map<Pgid, Pend>, before: map<Pgid, Pend>, after: map<Pgid, Pend>)
    requires Sorted(txs) && 0 <= k < |txs| && InOrder(all)
    requires Passed(txs, if k == 0 then 0 else k - 1, all, before)
    requires after == Outside(before, if k == 0 then txs[0] else txs[k - 1] + 1, txs[k] - 1)
    ensures Passed(txs, k, all, after)
  {
    forall p | p in all
      ensures p in after <==> LeftAfter(txs, k, all[p])
    {
      if k > 0 {
        MiddlePass(txs, k - 1, all[p]);
      }
    }
  }

  lemma AfterLast(txs: seq<Txid>, all: map<Pgid, Pend>, before: map<Pgid, Pend>, after: map<Pgid, Pend>)
    requires Sorted(txs) && txs != [] && InOrder(all) && forall p :: p in all ==> all[p].freeTx < MAX_TXID
    requires Passed(txs, |txs| - 1, all, before) && after == Outside(before, txs[|txs| - 1] + 1, MAX_TXID)
    ensures after == StillPending(all, multiset(txs))
  {
    forall p | p in all
      ensures p in after <==> Needed(all[p], multiset(txs))
    {
      LastPass(txs, all[p], MAX_TXID);
    }
    SameMap(after, StillPending(all, multiset(txs)));
  }
}
