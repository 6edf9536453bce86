/**
  The freelist (bitree/bdb/freelist.go): the free pages in either form, and the pages freed by a
  transaction that readers may still need.
 */
module Freelist {
  import opened PageIds
  import opened SpanIndex

  /** A pending page: the transaction that freed it and the one that allocated it (0: unknown). */
  datatype Pend = Pend(freeTx: Txid, allocTx: Txid) {
    predicate In(begin: Txid, end: Txid) {
      begin <= freeTx <= end && begin <= allocTx <= end
    }
  }

  /** The pages one transaction freed, with the transaction that allocated each. */
  datatype TxPending = TxPending(ids: seq<Pgid>, alloctx: seq<Txid>, lastReleaseBegin: Txid) {
    ghost predicate Shape() {
      |ids| == |alloctx| && Distinct(ids)
    }

    ghost predicate Entry(p: Pgid, a: Txid)
      requires Shape()
    {
      exists i :: 0 <= i < |ids| && ids[i] == p && alloctx[i] == a
    }

    /** Entry i removed by moving the last entry into its place. */
    function SwapRemove(i: nat): TxPending
      requires i < |ids| == |alloctx|
    {
      var n := |ids| - 1;
      TxPending(ids[i := ids[n]][..n], alloctx[i := alloctx[n]][..n], lastReleaseBegin)
    }
  }

  // ----- The pending pages, flattened -----

  ghost predicate AllShaped(pending: map<Txid, TxPending>) {
    forall t :: t in pending ==> pending[t].Shape()
  }

  /** pend lists exactly the entries of pending; no page is pending twice and no transaction is kept without pages. */
  ghost predicate Tied(pending: map<Txid, TxPending>, pend: map<Pgid, Pend>) {
    && AllShaped(pending)
    && (forall t :: t in pending ==> pending[t].ids != [])
    && (forall p :: p in pend ==> pend[p].freeTx in pending && pending[pend[p].freeTx].Entry(p, pend[p].allocTx))
    && (forall t, p, a :: t in pending && pending[t].Entry(p, a) ==> p in pend && pend[p] == Pend(t, a))
  }

  /** A scanned transaction has no entry left that a scan from the same begin would release. */
  ghost predicate Scanned(pending: map<Txid, TxPending>)
    requires AllShaped(pending)
  {
    forall t, p, a :: t in pending && pending[t].Entry(p, a) ==>
      a <= t && (pending[t].lastReleaseBegin != 0 ==> a < pending[t].lastReleaseBegin)
  }

  /** releaseRange passes over transactions it last scanned from the same begin. */
  ghost predicate Skipped(pending: map<Txid, TxPending>, t: Txid, begin: Txid) {
    t in pending && pending[t].lastReleaseBegin == begin
  }

  /** What releaseRange lets go. */
  ghost predicate Released(pending: map<Txid, TxPending>, e: Pend, begin: Txid, end: Txid) {
    e.In(begin, end) && !Skipped(pending, e.freeTx, begin)
  }

  /** The pending pages that release and releaseRange leave. */
  ghost function KeptAfter(pend: map<Pgid, Pend>, txid: Txid): map<Pgid, Pend> {
    map p | p in pend && pend[p].freeTx > txid :: pend[p]
  }

  ghost function KeptOutside(pending: map<Txid, TxPending>, pend: map<Pgid, Pend>, begin: Txid, end: Txid): map<Pgid, Pend> {
    map p | p in pend && !Released(pending, pend[p], begin, end) :: pend[p]
  }

  /** The skip withholds nothing that a full scan of the same range would release. */
  lemma SkipWithholdsNothing(pending: map<Txid, TxPending>, pend: map<Pgid, Pend>, p: Pgid, begin: Txid, end: Txid)
    requires Tied(pending, pend) && Scanned(pending) && p in pend && begin != 0
    ensures Released(pending, pend[p], begin, end) <==> pend[p].In(begin, end)
  {
    assert pending[pend[p].freeTx].Entry(p, pend[p].allocTx);
  }

  lemma SwapRemoveEntries(txp: TxPending, i: nat)
    requires txp.Shape() && i < |txp.ids|
    ensures txp.SwapRemove(i).Shape()
    ensures forall p, a :: txp.SwapRemove(i).Entry(p, a) <==> txp.Entry(p, a) && p != txp.ids[i]
  {
    var r, n := txp.SwapRemove(i), |txp.ids| - 1;
    assert Distinct(r.ids) by {
      forall j, k | 0 <= j < k < |r.ids|
        ensures r.ids[j] != r.ids[k]
      {
      }
    }
    forall p, a
      ensures r.Entry(p, a) <==> txp.Entry(p, a) && p != txp.ids[i]
    {
      if txp.Entry(p, a) && p != txp.ids[i] {
        var j :| 0 <= j < |txp.ids| && txp.ids[j] == p && txp.alloctx[j] == a;
        var j' := if j == n then i else j;
        assert r.ids[j'] == p && r.alloctx[j'] == a;
      }
      if r.Entry(p, a) {
        var j :| 0 <= j < |r.ids| && r.ids[j] == p && r.alloctx[j] == a;
        var j' := if j == i then n else j;
        assert txp.ids[j'] == p && txp.alloctx[j'] == a;
      }
    }
  }

  ghost predicate InRange(txp: TxPending, p: Pgid, begin: Txid, end: Txid)
    requires txp.Shape()
  {
    exists a :: txp.Entry(p, a) && begin <= a <= end
  }

  /** The swap-remove loop of releaseRange over one transaction. */
  method Scan(txp: TxPending, begin: Txid, end: Txid) returns (out: seq<Pgid>, rest: TxPending)
    requires txp.Shape()
    ensures rest.Shape() && Distinct(out) && rest.lastReleaseBegin == txp.lastReleaseBegin
    ensures forall p :: p in out <==> InRange(txp, p, begin, end)
    ensures forall p, a :: rest.Entry(p, a) <==> txp.Entry(p, a) && !(begin <= a <= end)
  {
    out, rest := [], txp;
    var i := 0;
    while i < |rest.ids|
      invariant rest.Shape() && 0 <= i <= |rest.ids| && Distinct(out)
      invariant rest.lastReleaseBegin == txp.lastReleaseBegin
      invariant forall p, a :: rest.Entry(p, a) <==> txp.Entry(p, a) && p !in out
      invariant forall p :: p in out ==> InRange(txp, p, begin, end)
      invariant forall k :: 0 <= k < i ==> !(begin <= rest.alloctx[k] <= end)
      decreases |rest.ids| - i
    {
      var atx := rest.alloctx[i];
      if atx < begin || atx > end {
        i := i + 1;
      } else {
        SwapRemoveEntries(rest, i);
        assert rest.Entry(rest.ids[i], atx);
        out := out + [rest.ids[i]];
        rest := rest.SwapRemove(i);
      }
    }
    ScanDone(txp, rest, out, begin, end);
  }

  lemma ScanDone(txp: TxPending, rest: TxPending, out: seq<Pgid>, begin: Txid, end: Txid)
    requires txp.Shape() && rest.Shape()
    requires forall p, a :: rest.Entry(p, a) <==> txp.Entry(p, a) && p !in out
    requires forall p :: p in out ==> InRange(txp, p, begin, end)
    requires forall k :: 0 <= k < |rest.ids| ==> !(begin <= rest.alloctx[k] <= end)
    ensures forall p :: p in out <==> InRange(txp, p, begin, end)
    ensures forall p, a :: rest.Entry(p, a) <==> txp.Entry(p, a) && !(begin <= a <= end)
  {
    forall p, a
      ensures rest.Entry(p, a) <==> txp.Entry(p, a) && !(begin <= a <= end)
    {
      if txp.Entry(p, a) && p in out {
        var a' :| txp.Entry(p, a') && begin <= a' <= end;
        EntryUnique(txp, p, a, a');
      }
    }
    forall p | InRange(txp, p, begin, end)
      ensures p in out
    {
      var a :| txp.Entry(p, a) && begin <= a <= end;
      assert !rest.Entry(p, a);
    }
  }

  lemma EntryUnique(txp: TxPending, p: Pgid, a: Txid, a': Txid)
    requires txp.Shape() && txp.Entry(p, a) && txp.Entry(p, a')
    ensures a == a'
  {
  }

  // ----- How pending and its flat view change together -----

  ghost function Without(pend: map<Pgid, Pend>, t: Txid): map<Pgid, Pend> {
    map p | p in pend && pend[p].freeTx != t :: pend[p]
  }

  lemma DropTx(pending: map<Txid, TxPending>, pend: map<Pgid, Pend>, t: Txid)
    requires Tied(pending, pend)
    ensures Tied(pending - {t}, Without(pend, t))
  {
    forall u, p, a | u in pending - {t} && (pending - {t})[u].Entry(p, a)
      ensures p in Without(pend, t) && Without(pend, t)[p] == Pend(u, a)
    {
      assert pending[u].Entry(p, a);
    }
  }

  /** Transaction t keeps only the entries of rest. */
  ghost function Narrowed(pend: map<Pgid, Pend>, t: Txid, begin: Txid, end: Txid): map<Pgid, Pend> {
    map p | p in pend && !(pend[p].freeTx == t && begin <= pend[p].allocTx <= end) :: pend[p]
  }

  ghost predicate IsRest(txp: TxPending, rest: TxPending, begin: Txid, end: Txid) {
    && txp.Shape() && rest.Shape()
    && forall p, a :: rest.Entry(p, a) <==> txp.Entry(p, a) && !(begin <= a <= end)
  }

  lemma NarrowTx(pending: map<Txid, TxPending>, pend: map<Pgid, Pend>, t: Txid, rest: TxPending, begin: Txid, end: Txid)
    requires Tied(pending, pend) && t in pending && IsRest(pending[t], rest, begin, end)
    ensures rest.ids != [] ==> Tied(pending[t := rest], Narrowed(pend, t, begin, end))
    ensures rest.ids == [] ==> Tied(pending - {t}, Narrowed(pend, t, begin, end))
  {
    var n := Narrowed(pend, t, begin, end);
    var pending' := if rest.ids == [] then pending - {t} else pending[t := rest];
    forall p | p in n
      ensures n[p].freeTx in pending' && pending'[n[p].freeTx].Entry(p, n[p].allocTx)
    {
      assert pending[pend[p].freeTx].Entry(p, pend[p].allocTx);
      assert pend[p].freeTx == t ==> rest.Entry(p, pend[p].allocTx);
    }
    forall u, p, a | u in pending' && pending'[u].Entry(p, a)
      ensures p in n && n[p] == Pend(u, a)
    {
      assert pending[u].Entry(p, a);
    }
  }

  function TxOf(pending: map<Txid, TxPending>, t: Txid): TxPending {
    if t in pending then pending[t] else TxPending([], [], 0)
  }

  function Appended(txp: TxPending, p: Pgid, a: Txid): TxPending {
    TxPending(txp.ids + [p], txp.alloctx + [a], txp.lastReleaseBegin)
  }

  lemma AppendEntries(txp: TxPending, p: Pgid, a: Txid)
    requires txp.Shape() && p !in txp.ids
    ensures Appended(txp, p, a).Shape()
    ensures forall q, b :: Appended(txp, p, a).Entry(q, b) <==> txp.Entry(q, b) || (q == p && b == a)
  {
    var r := Appended(txp, p, a);
    forall q, b
      ensures r.Entry(q, b) <==> txp.Entry(q, b) || (q == p && b == a)
    {
      assert r.ids[|txp.ids|] == p && r.alloctx[|txp.ids|] == a;
      if txp.Entry(q, b) {
        var j :| 0 <= j < |txp.ids| && txp.ids[j] == q && txp.alloctx[j] == b;
        assert r.ids[j] == q && r.alloctx[j] == b;
      }
    }
  }

  lemma AddEntry(pending: map<Txid, TxPending>, pend: map<Pgid, Pend>, t: Txid, p: Pgid, a: Txid)
    requires Tied(pending, pend) && p !in pend
    ensures Appended(TxOf(pending, t), p, a).Shape()
    ensures Tied(pending[t := Appended(TxOf(pending, t), p, a)], pend[p := Pend(t, a)])
  {
    var txp := TxOf(pending, t);
    assert p !in txp.ids by {
      assert forall i :: 0 <= i < |txp.ids| ==> txp.Entry(txp.ids[i], txp.alloctx[i]);
    }
    AppendEntries(txp, p, a);
    var pending', pend' := pending[t := Appended(txp, p, a)], pend[p := Pend(t, a)];
    forall q | q in pend'
      ensures pend'[q].freeTx in pending' && pending'[pend'[q].freeTx].Entry(q, pend'[q].allocTx)
    {
      if q != p {
        assert pending[pend[q].freeTx].Entry(q, pend[q].allocTx);
      }
    }
    forall u, q, b | u in pending' && pending'[u].Entry(q, b)
      ensures q in pend' && pend'[q] == Pend(u, b)
    {
      if u != t || q != p || b != a {
        assert u in pending && pending[u].Entry(q, b);
      }
    }
  }

  // ----- Allocation from the sorted array -----

  /**
    arrayAllocate: the lowest n consecutive ids, cut out of the list; 0 exactly when there is no
    such run.
   */
  method ArrayTake(ids: seq<Pgid>, n: nat) returns (pid: Pgid, rest: seq<Pgid>)
    requires StrictlySorted(ids) && forall p :: p in ids ==> 1 < p
    ensures pid == 0 <==> n == 0 || !HasRun(Ids(ids), n)
    ensures pid == 0 ==> rest == ids
    ensures pid != 0 ==> 1 < pid && RunAt(Ids(ids), pid, n) && forall q :: RunAt(Ids(ids), q, n) ==> pid <= q
    ensures pid != 0 ==> StrictlySorted(rest) && Ids(rest) == Ids(ids) - Range(pid, n)
  {
    hide RunAt, HasRun;
    pid, rest := 0, ids;
    var initial, previd := 0, 0;
    NoRunYet(ids, n);
    for i := 0 to |ids|
      invariant pid == 0 && rest == ids
      invariant i == 0 ==> previd == 0
      invariant i > 0 ==> previd == ids[i - 1] && LastRun(ids, i, previd - initial + 1, initial)
      invariant i > 0 && 0 < n ==> previd - initial + 1 < n
      invariant NoRunUpTo(ids, i, n)
    {
      var id := ids[i];
      assert id in ids;
      if previd == 0 || id - previd != 1 {
        initial := id;
      }
      assert i > 0 ==> ids[i - 1] in ids;
      if (id - initial) + 1 == n {
        CutOut(ids, i, n, initial);
        LowestRun(ids, i, n, initial);
        assert ids[i + 1 - n] == initial && initial in ids;
        pid := initial;
        if i + 1 == n {
          rest := ids[i + 1..];
          assert ids[..0] + ids[i + 1..] == ids[i + 1..];
        } else {
          rest := ids[..i - n + 1] + ids[i + 1..];
        }
        return;
      }
      NoRunStep(ids, i, n, initial);
      previd := id;
    }
    assert ids[..|ids|] == ids;
    if n > 0 {
      NoRunAtAll(ids, n);
    }
  }

  /** No n consecutive ids lie within the first i. */
  ghost predicate NoRunUpTo(ids: seq<Pgid>, i: int, n: int)
    requires 0 <= i <= |ids|
  {
    0 < n ==> forall q :: RunAt(Ids(ids), q, n) ==> i < |ids| && ids[i] < q + n
  }

  lemma NoRunYet(ids: seq<Pgid>, n: int)
    requires StrictlySorted(ids)
    ensures NoRunUpTo(ids, 0, n)
  {
    forall q | 0 < n && RunAt(Ids(ids), q, n)
      ensures 0 < |ids| && ids[0] < q + n
    {
      assert q in Ids(ids);
      var k :| 0 <= k < |ids| && ids[k] == q;
    }
  }

  lemma NoRunAtAll(ids: seq<Pgid>, n: int)
    requires NoRunUpTo(ids, |ids|, n) && 0 < n
    ensures !HasRun(Ids(ids), n)
  {
  }

  /** Before the current block there is a gap. */
  lemma BeforeRun(ids: seq<Pgid>, i: int, initial: Pgid)
    requires StrictlySorted(ids) && 0 <= i < |ids| && LastRun(ids, i + 1, ids[i] - initial + 1, initial)
    ensures initial - 1 !in Ids(ids)
  {
  }

  /** A run of n ids that ends at or before ids[i] would make the current block at least n long. */
  lemma NoRunStep(ids: seq<Pgid>, i: int, n: int, initial: Pgid)
    requires StrictlySorted(ids) && 0 <= i < |ids|
    requires LastRun(ids, i + 1, ids[i] - initial + 1, initial)
    requires NoRunUpTo(ids, i, n) && (0 < n ==> ids[i] - initial + 1 < n)
    ensures NoRunUpTo(ids, i + 1, n)
  {
    BeforeRun(ids, i, initial);
    forall q | 0 < n && RunAt(Ids(ids), q, n)
      ensures i + 1 < |ids| && ids[i + 1] < q + n
    {
      var last := q + n - 1;
      assert last in Ids(ids) && ids[i] <= last;
      assert last == ids[i] ==> q <= initial - 1 <= last;
      assert last != ids[i];
      var k :| 0 <= k < |ids| && ids[k] == last;
      assert k >= i + 1;
    }
  }

  lemma LowestRun(ids: seq<Pgid>, i: int, n: int, initial: Pgid)
    requires StrictlySorted(ids) && 0 <= i < |ids| && 0 < n
    requires NoRunUpTo(ids, i, n) && initial + n - 1 == ids[i]
    ensures forall q :: RunAt(Ids(ids), q, n) ==> initial <= q
  {
  }

  /** Cutting ids[i - n + 1..i + 1] out removes exactly the range it covers. */
  lemma CutOut(ids: seq<Pgid>, i: int, n: int, initial: Pgid)
    requires StrictlySorted(ids) && 0 <= i < |ids| && 0 < n
    requires LastRun(ids, i + 1, n, initial)
    ensures n <= i + 1 && RunAt(Ids(ids), initial, n) && HasRun(Ids(ids), n)
    ensures var rest := ids[..i - n + 1] + ids[i + 1..];
      StrictlySorted(rest) && Ids(rest) == Ids(ids) - Range(initial, n)
  {
    var lo, hi := i + 1 - n, i + 1;
    BlockIsRange(ids, lo, hi);
    var rest := ids[..lo] + ids[hi..];
    forall q | initial <= q < initial + n
      ensures q in Ids(ids)
    {
      assert Within(q, initial, n) && q in Range(initial, n);
    }
    assert RunAt(Ids(ids), initial, n);
    CutIds(ids, lo, hi);
  }

  /** A strictly ascending list without a middle part holds what is not in that part. */
  lemma CutIds(ids: seq<Pgid>, lo: int, hi: int)
    requires StrictlySorted(ids) && 0 <= lo <= hi <= |ids|
    ensures var rest := ids[..lo] + ids[hi..]; StrictlySorted(rest) && Ids(rest) == Ids(ids) - Ids(ids[lo..hi])
  {
    var rest, mid := ids[..lo] + ids[hi..], ids[lo..hi];
    assert ids == ids[..lo] + mid + ids[hi..];
    forall j | 0 <= j < |rest|
      ensures rest[j] !in mid
    {
      NotInMiddle(ids, lo, hi, if j < lo then j else j - lo + hi);
    }
    SameIds(Ids(rest), Ids(ids) - Ids(mid));
  }

  lemma NotInMiddle(ids: seq<Pgid>, lo: int, hi: int, k: int)
    requires StrictlySorted(ids) && 0 <= lo <= hi <= |ids| && 0 <= k < |ids| && !(lo <= k < hi)
    ensures ids[k] !in ids[lo..hi]
  {
  }

  // ----- The freelist -----

  ghost function FreedRun(start: Pgid, n: int, e: Pend): map<Pgid, Pend> {
    map p | p in Range(start, n) :: e
  }

  /** The allocating transaction that free records for a page run. */
  function AllocTx(allocs: map<Pgid, Txid>, txid: Txid, start: Pgid, isFreelistPage: bool): Txid {
    if start in allocs then allocs[start]
    else if isFreelistPage then txid - 1
    else 0
  }

  class Freelist {
    const isMap: bool
    const spans: SpanMaps
    var ids: seq<Pgid>
    var allocs: map<Pgid, Txid>
    var pending: map<Txid, TxPending>
    var cache: set<Pgid>
    ghost var free: set<Pgid>
    ghost var pend: map<Pgid, Pend>

    /** Either form holds exactly the free pages. */
    ghost predicate FreeHeld()
      reads this`ids, this`free, spans
    {
      && (forall p :: p in free ==> 1 < p)
      && if isMap then spans.Valid() && spans.free == free
         else StrictlySorted(ids) && Ids(ids) == free
    }

    /** Pending pages are tied, not free, and cached; nothing else but free pages is cached. */
    ghost predicate PendHeld()
      reads this`pending, this`pend, this`free, this`cache
    {
      && Tied(pending, pend)
      && (forall p :: p in pend ==> 1 < p)
      && free !! pend.Keys
      && pend.Keys <= cache <= free + pend.Keys
    }

    ghost predicate Valid()
      reads this, spans
    {
      FreeHeld() && PendHeld()
    }

    constructor (freelistIsMap: bool)
      ensures Valid() && fresh(spans) && isMap == freelistIsMap
      ensures free == {} && pend == map[] && pending == map[] && allocs == map[]
    {
      isMap := freelistIsMap;
      spans := new SpanMaps();
      ids, allocs, pending, cache := [], map[], map[], {};
      free, pend := {}, map[];
    }

    /** mergeSpans in either form: pages that were not free become free. */
    method MergeSpans(m: seq<Pgid>)
      requires FreeHeld() && Distinct(m) && forall p :: p in m ==> 1 < p && p !in free
      modifies this`ids, this`free, spans
      ensures FreeHeld() && free == old(free) + Ids(m)
    {
      if isMap {
        spans.MergeSpans(m);
      } else {
        var sorted := Sort(m);
        MultisetMembers(sorted, m);
        DistinctCounts(m);
        DistinctCounts(sorted);
        MergedIntoIds(sorted);
      }
      free := free + Ids(m);
    }

    method MergedIntoIds(sorted: seq<Pgid>)
      requires !isMap && StrictlySorted(ids) && Ids(ids) == free
      requires Sorted(sorted) && Distinct(sorted) && forall p :: p in sorted ==> p !in free
      modifies this`ids
      ensures StrictlySorted(ids) && Ids(ids) == free + Ids(sorted)
    {
      ghost var before := ids;
      assert forall p :: p in ids ==> p in Ids(ids);
      ids := Merge(ids, sorted);
      MergedDistinct(before, sorted, ids);
      SortedDistinctIsStrict(ids);
    }

    /** allocate: n consecutive pages leave the free set, or 0 when there are none. */
    method Allocate(txid: Txid, n: nat) returns (pid: Pgid)
      requires Valid()
      modifies this`ids, this`allocs, this`cache, this`free, spans
      ensures Valid()
      ensures pid == 0 <==> n == 0 || !HasRun(old(free), n)
      ensures pid == 0 ==> free == old(free) && allocs == old(allocs)
      ensures pid != 0 ==> 1 < pid && RunAt(old(free), pid, n)
      ensures pid != 0 ==> free == old(free) - Range(pid, n) && allocs == old(allocs)[pid := txid]
    {
      if isMap {
        pid := spans.Take(n);
      } else {
        assert forall p :: p in ids ==> p in Ids(ids);
        pid, ids := ArrayTake(ids, n);
      }
      if pid != 0 {
        assert pid in free;
        allocs := allocs[pid := txid];
        UncacheRun(pid, n);
        free := free - Range(pid, n);
      }
    }

    /** The loop that drops an allocated run from the cache. */
    method UncacheRun(pid: Pgid, n: nat)
      modifies this`cache
      ensures cache == old(cache) - Range(pid, n)
    {
      for i := 0 to n
        invariant cache == old(cache) - Range(pid, i)
      {
        cache := cache - {pid + i};
        assert Range(pid, i + 1) == Range(pid, i) + {pid + i} by {
          assert Within(pid + i, pid, i + 1);
        }
      }
    }

    /** free: a run of pages becomes pending under the transaction that frees it. */
    method Free(txid: Txid, start: Pgid, overflow: nat, isFreelistPage: bool)
      requires Valid() && 1 < start
      requires forall p :: p in Range(start, overflow + 1) ==> p !in free && p !in pend
      modifies this`pending, this`allocs, this`cache, this`pend
      ensures Valid()
      ensures pend == old(pend) + FreedRun(start, overflow + 1, Pend(txid, AllocTx(old(allocs), txid, start, isFreelistPage)))
      ensures allocs == old(allocs) - {start}
      ensures txid in pending && OnlyTx(old(pending), pending, txid)
    {
      var allocTxid := AllocTx(allocs, txid, start, isFreelistPage);
      allocs := allocs - {start};
      FreeRun(txid, start, overflow + 1, allocTxid);
    }

    /** The loop of free over the pages of a run. */
    method FreeRun(txid: Txid, start: Pgid, n: nat, allocTxid: Txid)
      requires PendHeld() && 1 < start && 1 <= n
      requires forall p :: p in Range(start, n) ==> p !in free && p !in pend
      modifies this`pending, this`cache, this`pend
      ensures PendHeld() && pend == old(pend) + FreedRun(start, n, Pend(txid, allocTxid))
      ensures txid in pending && OnlyTx(old(pending), pending, txid)
    {
      ghost var e := Pend(txid, allocTxid);
      for i := 0 to n
        invariant PendHeld()
        invariant pend == old(pend) + FreedRun(start, i, e)
        invariant OnlyTx(old(pending), pending, txid)
        invariant i > 0 ==> txid in pending
        modifies this`pending, this`cache, this`pend
      {
        FreeNext(txid, start, i, n, allocTxid, old(pend), old(pending));
      }
    }

    method FreeNext(txid: Txid, start: Pgid, i: nat, n: nat, allocTxid: Txid, ghost pend0: map<Pgid, Pend>, ghost pending0: map<Txid, TxPending>)
      requires PendHeld() && 1 < start && i < n && OnlyTx(pending0, pending, txid)
      requires forall p :: p in Range(start, n) ==> p !in free && p !in pend0
      requires pend == pend0 + FreedRun(start, i, Pend(txid, allocTxid))
      modifies this`pending, this`cache, this`pend
      ensures PendHeld() && pend == pend0 + FreedRun(start, i + 1, Pend(txid, allocTxid))
      ensures txid in pending && OnlyTx(pending0, pending, txid)
    {
      NextOfRun(start, i, n, Pend(txid, allocTxid), pend0, free);
      AddPending(txid, start + i, allocTxid);
    }

    /** One page of a run. */
    method AddPending(txid: Txid, id: Pgid, allocTxid: Txid)
      requires PendHeld() && 1 < id && id !in free && id !in pend
      modifies this`pending, this`cache, this`pend
      ensures PendHeld() && pend == old(pend)[id := Pend(txid, allocTxid)]
      ensures pending == old(pending)[txid := Appended(TxOf(old(pending), txid), id, allocTxid)]
    {
      AddEntry(pending, pend, txid, id, allocTxid);
      pending := pending[txid := Appended(TxOf(pending, txid), id, allocTxid)];
      cache := cache + {id};
      pend := pend[id := Pend(txid, allocTxid)];
    }

    /** One transaction of a release. */
    method TakeOne(tid: Txid, ghost todo: set<Txid>, m: seq<Pgid>, ghost pending0: map<Txid, TxPending>, ghost pend0: map<Pgid, Pend>, txid: Txid)
        returns (m': seq<Pgid>)
      requires Tied(pending, pend) && tid in todo && todo <= pending.Keys <= pending0.Keys
      requires FreedSoFar(pending, pend, todo, m, pending0, pend0, txid)
      modifies this`pending, this`pend
      ensures Tied(pending, pend) && todo - {tid} <= pending.Keys <= pending0.Keys
      ensures FreedSoFar(pending, pend, todo - {tid}, m', pending0, pend0, txid)
    {
      hide FreedSoFar, Tied, Without, Distinct;
      m' := m;
      if tid <= txid {
        ghost var pending1, pend1 := pending, pend;
        FreedAreGone(pending, pend, todo, m, pending0, pend0, txid);
        m' := TakeTx(tid, m);
        FreedNext(pending1, pend1, todo, m, m', pending0, pend0, txid, tid);
      } else {
        FreedSkips(pending, pend, todo, m, pending0, pend0, txid, tid);
      }
    }

    /** release: everything freed by transactions up to txid becomes free. */
    method Release(txid: Txid) returns (m: seq<Pgid>)
      requires Valid()
      modifies this`ids, this`pending, this`free, this`pend, spans
      ensures Valid()
      ensures forall p :: p in m <==> p in old(pend) && old(pend)[p].freeTx <= txid
      ensures pend == KeptAfter(old(pend), txid)
      ensures free == old(free) + Ids(m)
      ensures forall t :: t in pending ==> t in old(pending) && pending[t] == old(pending)[t]
    {
      m := [];
      var todo := pending.Keys;
      while todo != {}
        modifies this`pending, this`pend
        invariant Tied(pending, pend) && todo <= pending.Keys <= old(pending).Keys
        invariant FreedSoFar(pending, pend, todo, m, old(pending), old(pend), txid)
        decreases todo
      {
        var tid := Pick(todo);
        m := TakeOne(tid, todo, m, old(pending), old(pend), txid);
        todo := todo - {tid};
      }
      FreedAll(pending, pend, m, old(pending), old(pend), txid);
      MergeSpans(m);
      StillCached(cache, old(free), old(pend), m, pend);
    }

    /** Moves all pages of one transaction to the end of m. */
    method TakeTx(tid: Txid, m: seq<Pgid>) returns (m': seq<Pgid>)
      requires Tied(pending, pend) && tid in pending && Distinct(m)
      requires forall p :: p in m ==> p !in pend
      modifies this`pending, this`pend
      ensures Tied(pending, pend) && pending == old(pending) - {tid}
      ensures pend == Without(old(pend), tid)
      ensures Distinct(m') && forall p :: p in m' <==> p in m || (p in old(pend) && old(pend)[p].freeTx == tid)
    {
      IdsOfTx(pending, pend, tid);
      DropTx(pending, pend, tid);
      DistinctAppend(m, pending[tid].ids);
      m' := m + pending[tid].ids;
      pending := pending - {tid};
      pend := Without(pend, tid);
    }

    /**
      releaseRange: pages allocated and freed inside the range become free, except under
      transactions last scanned from the same begin.
     */
    method ReleaseRange(begin: Txid, end: Txid) returns (m: seq<Pgid>)
      requires Valid()
      modifies this`ids, this`pending, this`free, this`pend, spans
      ensures Valid()
      ensures forall p :: p in m <==> p in old(pend) && Released(old(pending), old(pend)[p], begin, end)
      ensures pend == KeptOutside(old(pending), old(pend), begin, end)
      ensures free == old(free) + Ids(m)
      ensures Scanned(old(pending)) ==> Scanned(pending)
    {
      if begin > end {
        m := [];
        assert Ids(m) == {};
        SameMap(pend, KeptOutside(pending, pend, begin, end));
        return;
      }
      m := ScanRange(begin, end);
      MergeSpans(m);
      StillCached(cache, old(free), old(pend), m, pend);
    }

    /** The loop of releaseRange over the transactions of the range. */
    method ScanRange(begin: Txid, end: Txid) returns (m: seq<Pgid>)
      requires Tied(pending, pend)
      modifies this`pending, this`pend
      ensures Tied(pending, pend) && Distinct(m)
      ensures forall p :: p in m <==> p in old(pend) && Released(old(pending), old(pend)[p], begin, end)
      ensures pend == KeptOutside(old(pending), old(pend), begin, end)
      ensures Scanned(old(pending)) ==> Scanned(pending)
    {
      m := [];
      var todo := pending.Keys;
      ghost var pending0, pend0 := pending, pend;
      while todo != {}
        invariant ScannedSoFar(todo, m, pending0, pend0, begin, end)
        decreases todo
      {
        var tid := Pick(todo);
        m := ScanOne(tid, todo, begin, end, m, pending0, pend0);
        todo := todo - {tid};
      }
      SameMap(pend, KeptOutside(old(pending), old(pend), begin, end));
    }

    /** The transactions still to look at are untouched; of the others, exactly the released pages are in m. */
    ghost predicate ScannedSoFar(todo: set<Txid>, m: seq<Pgid>, pending0: map<Txid, TxPending>, pend0: map<Pgid, Pend>, begin: Txid, end: Txid)
      requires AllShaped(pending0)
      reads this`pending, this`pend
    {
      && Tied(pending, pend) && todo <= pending.Keys
      && (forall t :: t in todo ==> t in pending0 && pending[t] == pending0[t])
      && ReleasedSoFar(pend, todo, m, pending0, pend0, begin, end)
      && (Scanned(pending0) ==> Scanned(pending))
    }

    method ScanOne(tid: Txid, ghost todo: set<Txid>, begin: Txid, end: Txid, m: seq<Pgid>,
                   ghost pending0: map<Txid, TxPending>, ghost pend0: map<Pgid, Pend>) returns (m': seq<Pgid>)
      requires AllShaped(pending0) && ScannedSoFar(todo, m, pending0, pend0, begin, end) && tid in todo
      modifies this`pending, this`pend
      ensures ScannedSoFar(todo - {tid}, m', pending0, pend0, begin, end)
    {
      hide ReleasedSoFar, Narrowed, Scanned, Tied, Distinct;
      m' := m;
      ghost var before, listed := pend, pending;
      if !(tid < begin || tid > end) && pending[tid].lastReleaseBegin != begin {
        OutsideIsNot(pend, todo, m, pending0, pend0, begin, end);
        m' := ScanTx(tid, begin, end, m);
        TxReleased(before, pend, todo, m, m', pending0, pend0, begin, end, tid);
        OthersKept(listed, pending, pending0, todo, tid);
      } else {
        TxSkipped(pend, todo, m, pending0, pend0, begin, end, tid);
      }
    }

    /**
      rollback: the transaction's frees are undone. Pages it had itself allocated become free,
      the others get their allocating transaction back.
     */
    method Rollback(txid: Txid)
      requires Valid()
      modifies this, spans
      ensures Valid()
      ensures pend == Without(old(pend), txid) && pending == old(pending) - {txid}
      ensures free == old(free) + BackToFree(old(pend), txid)
      ensures allocs == old(allocs) + Restored(old(pend), txid)
    {
      if txid !in pending {
        assert forall p :: p in pend ==> pend[p].freeTx != txid;
        SameMap(pend, Without(pend, txid));
        assert BackToFree(pend, txid) == {} && Restored(pend, txid) == map[];
        return;
      }
      var txp := pending[txid];
      IdsOfTx(pending, pend, txid);
      TxLists(pending, pend, txid);
      RestoredAll(pend, txid, txp.ids);
      var m := UndoFrees(txp, txid);
      DropTx(pending, pend, txid);
      pending := pending - {txid};
      pend := Without(pend, txid);
      SameIds(Ids(m), BackToFree(old(pend), txid));
      MergeSpans(m);
      Uncached(old(cache), cache, old(free), old(pend), txid);
    }

    /** The loop of rollback over the transaction's pages. */
    method UndoFrees(txp: TxPending, txid: Txid) returns (m: seq<Pgid>)
      requires Lists(pend, txp, txid)
      modifies this`cache, this`allocs
      ensures Owns(pend, m, txid, txp.ids)
      ensures cache == old(cache) - Ids(txp.ids)
      ensures allocs == old(allocs) + RestoredOf(pend, txid, txp.ids)
    {
      m := [];
      for i := 0 to |txp.ids|
        invariant Owns(pend, m, txid, txp.ids[..i])
        invariant cache == old(cache) - Ids(txp.ids[..i])
        invariant allocs == old(allocs) + RestoredOf(pend, txid, txp.ids[..i])
      {
        assert txp.ids[..i + 1] == txp.ids[..i] + [txp.ids[i]] && txp.ids[i] !in txp.ids[..i];
        m := UndoFree(txp.ids[i], txp.alloctx[i], txid, m, txp.ids[..i], old(allocs));
      }
      assert txp.ids[..|txp.ids|] == txp.ids;
    }

    /** One page of a rollback. */
    method UndoFree(pgid: Pgid, tx: Txid, txid: Txid, m: seq<Pgid>, ghost done: seq<Pgid>, ghost allocs0: map<Pgid, Txid>)
        returns (m': seq<Pgid>)
      requires pgid in pend && pend[pgid] == Pend(txid, tx) && pgid !in done && Owns(pend, m, txid, done)
      requires allocs == allocs0 + RestoredOf(pend, txid, done)
      modifies this`cache, this`allocs
      ensures Owns(pend, m', txid, done + [pgid])
      ensures cache == old(cache) - {pgid}
      ensures allocs == allocs0 + RestoredOf(pend, txid, done + [pgid])
    {
      RestoreNext(pend, txid, done, pgid);
      m' := m;
      cache := cache - {pgid};
      if tx == 0 {
        return;
      }
      if tx != txid {
        allocs := allocs[pgid := tx];
      } else {
        m' := m + [pgid];
      }
    }

    /** getFreePageIDs: the free pages in ascending order. */
    method FreePageIds() returns (r: seq<Pgid>)
      requires FreeHeld()
      ensures StrictlySorted(r) && Ids(r) == free
    {
      if isMap {
        r := spans.PageList();
      } else {
        r := ids;
      }
    }

    /** readIDs followed by reindex. An empty list leaves the hashmap form as it was. */
    method ReadIds(pids: seq<Pgid>)
      requires FreeHeld() && StrictlySorted(pids) && forall p :: p in pids ==> 1 < p
      requires AllShaped(pending)
      modifies this`ids, this`free, this`cache, spans
      ensures FreeHeld()
      ensures free == if isMap && pids == [] then old(free) else Ids(pids)
      ensures cache == free + PendingIds(pending)
    {
      if isMap {
        assert forall p :: p in pids ==> pids[0] <= p;
        spans.Init(pids);
        free := if pids == [] then free else Ids(pids);
      } else {
        ids := pids;
        free := Ids(pids);
        assert forall p :: p in free ==> p in pids;
      }
      Reindex();
    }

    /** reindex: the cache is rebuilt from the free and the pending pages. */
    method Reindex()
      requires FreeHeld()
      modifies this`cache
      ensures cache == free + PendingIds(pending)
    {
      var listed := FreePageIds();
      cache := {};
      for i := 0 to |listed|
        invariant cache == Ids(listed[..i])
      {
        cache := cache + {listed[i]};
        assert listed[..i + 1] == listed[..i] + [listed[i]];
      }
      assert listed[..|listed|] == listed;
      cache := cache + set t, p | t in pending && p in pending[t].ids :: p;
    }

    /**
      reload: takes the free pages from a freelist page again, minus what is pending. That is what
      the freelist then holds in the array form; in the hashmap form it is exactly when some page is
      left over, or when the page lists none and none was free.
     */
    method Reload(pageIds: seq<Pgid>)
      requires Valid() && StrictlySorted(pageIds) && forall p :: p in pageIds ==> 1 < p
      modifies this`ids, this`free, this`cache, spans
      ensures FreeHeld() && free == Refilled(isMap, old(free), Ids(pageIds), pend)
      ensures free == Ids(pageIds) - pend.Keys <==>
        !isMap || (exists p :: p in pageIds && p !in pend) || (pageIds == [] && old(free) == {})
      ensures free !! pend.Keys ==> Valid()
    {
      if |pageIds| == 0 {
        ids := [];
        if !isMap {
          free := {};
        }
      } else {
        ReadIds(pageIds);
      }
      var listed := FreePageIds();
      ghost var held := free;
      var a := NotPending(listed);
      assert forall p :: p in listed ==> p in Ids(listed);
      ReadIds(a);
      Reloaded(pageIds, held, a, free, pend, isMap, old(free));
      PendingIdsAre(pending, pend);
    }

    /** noSyncReload: takes the free pages from a list of all pages not in use, minus what is pending. */
    method NoSyncReload(pageIds: seq<Pgid>)
      requires Valid() && StrictlySorted(pageIds) && forall p :: p in pageIds ==> 1 < p
      modifies this`ids, this`free, this`cache, spans
      ensures Valid() && free == Rescanned(isMap, old(free), Ids(pageIds), pend)
    {
      var a := NotPending(pageIds);
      ReadIds(a);
      AllPending(Ids(pageIds), a, pend);
      PendingIdsAre(pending, pend);
    }

    method NotPending(listed: seq<Pgid>) returns (a: seq<Pgid>)
      requires Tied(pending, pend) && StrictlySorted(listed)
      ensures StrictlySorted(a) && forall p :: p in a <==> p in listed && p !in pend
    {
      PendingIdsAre(pending, pend);
      var pcache := set t, p | t in pending && p in pending[t].ids :: p;
      assert pcache == PendingIds(pending);
      a := [];
      for i := 0 to |listed|
        invariant StrictlySorted(a) && forall p :: p in a <==> p in listed[..i] && p !in pend
      {
        assert listed[..i + 1] == listed[..i] + [listed[i]];
        assert forall p :: p in listed[..i] ==> p < listed[i];
        if listed[i] !in pcache {
          forall k | 0 <= k < |a|
            ensures a[k] < listed[i]
          {
            assert a[k] in a && a[k] in listed[..i];
          }
          a := a + [listed[i]];
        }
      }
      assert listed[..|listed|] == listed;
    }

    /** Scans one transaction and drops it when nothing is left. */
    method ScanTx(tid: Txid, begin: Txid, end: Txid, m: seq<Pgid>) returns (m': seq<Pgid>)
      requires Tied(pending, pend) && tid in pending && begin <= tid <= end && Distinct(m)
      requires forall p :: p in m ==> p !in pend
      modifies this`pending, this`pend
      ensures Tied(pending, pend)
      ensures forall t :: t in old(pending) && t != tid ==> t in pending && pending[t] == old(pending)[t]
      ensures pend == Narrowed(old(pend), tid, begin, end)
      ensures Distinct(m')
      ensures forall p :: p in m' <==>
        p in m || (p in old(pend) && old(pend)[p].freeTx == tid && begin <= old(pend)[p].allocTx <= end)
      ensures Scanned(old(pending)) ==> Scanned(pending)
    {
      var out, rest := Scan(pending[tid], begin, end);
      OutOfTx(pending, pend, tid, out, begin, end);
      DistinctAppend(m, out);
      m' := m + out;
      rest := rest.(lastReleaseBegin := begin);
      assert IsRest(pending[tid], rest, begin, end) by {
        assert forall p, a :: rest.Entry(p, a) <==> rest.(lastReleaseBegin := 0).Entry(p, a);
      }
      NarrowTx(pending, pend, tid, rest, begin, end);
      RestScanned(pending, tid, rest, begin, end);
      if |rest.ids| == 0 {
        pending := pending - {tid};
      } else {
        pending := pending[tid := rest];
      }
      pend := Narrowed(pend, tid, begin, end);
    }
  }

  /** What release has taken of the transactions not in todo. */
  ghost predicate FreedSoFar(pending: map<Txid, TxPending>, pend: map<Pgid, Pend>, todo: set<Txid>, m: seq<Pgid>,
                             pending0: map<Txid, TxPending>, pend0: map<Pgid, Pend>, txid: Txid) {
    && (forall t :: t in pending ==> t in pending0 && pending[t] == pending0[t])
    && (forall p :: p in pend <==> p in pend0 && p !in m)
    && (forall p :: p in pend ==> pend[p] == pend0[p])
    && Distinct(m)
    && (forall p :: p in m ==> p in pend0 && pend0[p].freeTx <= txid && pend0[p].freeTx !in todo)
    && (forall t :: t in pending && t <= txid ==> t in todo)
  }

  lemma FreedAreGone(pending: map<Txid, TxPending>, pend: map<Pgid, Pend>, todo: set<Txid>, m: seq<Pgid>,
                     pending0: map<Txid, TxPending>, pend0: map<Pgid, Pend>, txid: Txid)
    requires FreedSoFar(pending, pend, todo, m, pending0, pend0, txid)
    ensures Distinct(m) && forall p :: p in m ==> p !in pend
  {
  }

  lemma FreedSkips(pending: map<Txid, TxPending>, pend: map<Pgid, Pend>, todo: set<Txid>, m: seq<Pgid>,
                   pending0: map<Txid, TxPending>, pend0: map<Pgid, Pend>, txid: Txid, tid: Txid)
    requires FreedSoFar(pending, pend, todo, m, pending0, pend0, txid) && txid < tid
    ensures FreedSoFar(pending, pend, todo - {tid}, m, pending0, pend0, txid)
  {
  }

  lemma FreedNext(pending: map<Txid, TxPending>, pend: map<Pgid, Pend>, todo: set<Txid>, m: seq<Pgid>, m': seq<Pgid>,
                  pending0: map<Txid, TxPending>, pend0: map<Pgid, Pend>, txid: Txid, tid: Txid)
    requires FreedSoFar(pending, pend, todo, m, pending0, pend0, txid) && tid <= txid && tid in todo && Distinct(m')
    requires forall p :: p in m' <==> p in m || (p in pend && pend[p].freeTx == tid)
    ensures FreedSoFar(pending - {tid}, Without(pend, tid), todo - {tid}, m', pending0, pend0, txid)
  {
  }

  lemma FreedAll(pending: map<Txid, TxPending>, pend: map<Pgid, Pend>, m: seq<Pgid>,
                 pending0: map<Txid, TxPending>, pend0: map<Pgid, Pend>, txid: Txid)
    requires Tied(pending, pend) && FreedSoFar(pending, pend, {}, m, pending0, pend0, txid)
    ensures pend == KeptAfter(pend0, txid)
    ensures forall p :: p in m <==> p in pend0 && pend0[p].freeTx <= txid
  {
    assert forall p :: p in pend ==> pend[p].freeTx in pending;
    SameMap(pend, KeptAfter(pend0, txid));
  }

  /** What releaseRange has released of the transactions not in todo. */
  ghost predicate ReleasedSoFar(pend: map<Pgid, Pend>, todo: set<Txid>, m: seq<Pgid>,
                                pending0: map<Txid, TxPending>, pend0: map<Pgid, Pend>, begin: Txid, end: Txid)
    requires AllShaped(pending0)
  {
    && (forall p :: p in pend <==> p in pend0 && p !in m)
    && (forall p :: p in pend ==> pend[p] == pend0[p])
    && Distinct(m)
    && (forall p :: p in m ==> p in pend0 && pend0[p].freeTx !in todo && Released(pending0, pend0[p], begin, end))
    && (forall p :: p in pend && pend[p].freeTx !in todo ==> !Released(pending0, pend[p], begin, end))
  }

  lemma OutsideIsNot(pend: map<Pgid, Pend>, todo: set<Txid>, m: seq<Pgid>,
                     pending0: map<Txid, TxPending>, pend0: map<Pgid, Pend>, begin: Txid, end: Txid)
    requires AllShaped(pending0) && ReleasedSoFar(pend, todo, m, pending0, pend0, begin, end)
    ensures Distinct(m) && forall p :: p in m ==> p !in pend
  {
  }

  lemma TxSkipped(pend: map<Pgid, Pend>, todo: set<Txid>, m: seq<Pgid>,
                  pending0: map<Txid, TxPending>, pend0: map<Pgid, Pend>, begin: Txid, end: Txid, tid: Txid)
    requires AllShaped(pending0) && ReleasedSoFar(pend, todo, m, pending0, pend0, begin, end)
    requires tid in pending0 && (tid < begin || tid > end || pending0[tid].lastReleaseBegin == begin)
    ensures ReleasedSoFar(pend, todo - {tid}, m, pending0, pend0, begin, end)
  {
  }

  lemma OthersKept(before: map<Txid, TxPending>, after: map<Txid, TxPending>, pending0: map<Txid, TxPending>, todo: set<Txid>, tid: Txid)
    requires todo <= before.Keys && forall t :: t in todo ==> t in pending0 && before[t] == pending0[t]
    requires forall t :: t in before && t != tid ==> t in after && after[t] == before[t]
    ensures todo - {tid} <= after.Keys && forall t :: t in todo - {tid} ==> t in pending0 && after[t] == pending0[t]
  {
  }

  lemma TxReleased(before: map<Pgid, Pend>, pend: map<Pgid, Pend>, todo: set<Txid>, m: seq<Pgid>, m': seq<Pgid>,
                   pending0: map<Txid, TxPending>, pend0: map<Pgid, Pend>, begin: Txid, end: Txid, tid: Txid)
    requires AllShaped(pending0) && ReleasedSoFar(before, todo, m, pending0, pend0, begin, end) && tid in todo
    requires tid in pending0 && begin <= tid <= end && pending0[tid].lastReleaseBegin != begin
    requires pend == Narrowed(before, tid, begin, end) && Distinct(m')
    requires forall p :: p in m' <==> p in m || (p in before && before[p].freeTx == tid && begin <= before[p].allocTx <= end)
    ensures ReleasedSoFar(pend, todo - {tid}, m', pending0, pend0, begin, end)
  {
  }

  /** The pages that rollback of t returns to the free set, and those whose allocation it restores. */
  ghost function BackToFree(pend: map<Pgid, Pend>, t: Txid): set<Pgid> {
    set p | p in pend && pend[p] == Pend(t, t) && t != 0
  }

  ghost function Restored(pend: map<Pgid, Pend>, t: Txid): map<Pgid, Txid> {
    map p | p in pend && pend[p].freeTx == t && pend[p].allocTx != 0 && pend[p].allocTx != t :: pend[p].allocTx
  }

  /** Pages that move from pending to free stay accounted for in the cache. */
  lemma StillCached(cache: set<Pgid>, free: set<Pgid>, pend: map<Pgid, Pend>, m: seq<Pgid>, pend': map<Pgid, Pend>)
    requires pend.Keys <= cache <= free + pend.Keys && free !! pend.Keys
    requires forall p :: p in pend' <==> p in pend && p !in m
    requires forall p :: p in m ==> p in pend
    ensures pend'.Keys <= cache <= free + Ids(m) + pend'.Keys
    ensures free + Ids(m) !! pend'.Keys
  {
    forall p | p in cache
      ensures p in free + Ids(m) + pend'.Keys
    {
    }
    forall p | p in pend'.Keys
      ensures p in cache && p !in free + Ids(m)
    {
    }
  }

  method Pick(s: set<Txid>) returns (t: Txid)
    requires s != {}
    ensures t in s
  {
    assert exists x :: x in s by {
      if forall x :: x !in s {
        assert false;
      }
    }
    t :| t in s;
  }

  /** Only transaction txid has new entries, and its scan mark is as before. */
  ghost predicate OnlyTx(before: map<Txid, TxPending>, after: map<Txid, TxPending>, txid: Txid) {
    && (forall t :: t in after ==> t == txid || (t in before && after[t] == before[t]))
    && TxOf(after, txid).lastReleaseBegin == TxOf(before, txid).lastReleaseBegin
  }

  lemma NextOfRun(start: Pgid, i: int, n: int, e: Pend, pend: map<Pgid, Pend>, free: set<Pgid>)
    requires 0 <= i < n
    requires forall p :: p in Range(start, n) ==> p !in free && p !in pend
    ensures start + i !in free && start + i !in pend + FreedRun(start, i, e)
    ensures pend + FreedRun(start, i + 1, e) == (pend + FreedRun(start, i, e))[start + i := e]
  {
    assert Within(start + i, start, n) && Within(start + i, start, i + 1);
    assert Range(start, i + 1) == Range(start, i) + {start + i};
  }

  /** The ids of a transaction are exactly the pages pending under it. */
  lemma IdsOfTx(pending: map<Txid, TxPending>, pend: map<Pgid, Pend>, t: Txid)
    requires Tied(pending, pend) && t in pending
    ensures forall p :: p in pending[t].ids <==> p in pend && pend[p].freeTx == t
  {
    forall p
      ensures p in pending[t].ids <==> p in pend && pend[p].freeTx == t
    {
      if p in pending[t].ids {
        var i :| 0 <= i < |pending[t].ids| && pending[t].ids[i] == p;
        assert pending[t].Entry(p, pending[t].alloctx[i]);
      }
      if p in pend && pend[p].freeTx == t {
        assert pending[t].Entry(p, pend[p].allocTx);
      }
    }
  }

  lemma OutOfTx(pending: map<Txid, TxPending>, pend: map<Pgid, Pend>, t: Txid, out: seq<Pgid>, begin: Txid, end: Txid)
    requires Tied(pending, pend) && t in pending
    requires forall p :: p in out <==> InRange(pending[t], p, begin, end)
    ensures forall p :: p in out <==> p in pend && pend[p].freeTx == t && begin <= pend[p].allocTx <= end
  {
    forall p
      ensures p in out <==> p in pend && pend[p].freeTx == t && begin <= pend[p].allocTx <= end
    {
      if p in out {
        var a :| pending[t].Entry(p, a) && begin <= a <= end;
      }
      if p in pend && pend[p].freeTx == t && begin <= pend[p].allocTx <= end {
        assert pending[t].Entry(p, pend[p].allocTx);
      }
    }
  }

  lemma RestScanned(pending: map<Txid, TxPending>, t: Txid, rest: TxPending, begin: Txid, end: Txid)
    requires AllShaped(pending) && t in pending && begin <= t <= end && IsRest(pending[t], rest, begin, end)
    requires rest.lastReleaseBegin == begin
    ensures Scanned(pending) ==> Scanned(pending[t := rest]) && Scanned(pending - {t})
  {
    if Scanned(pending) {
      forall u, p, a | u in pending - {t} && (pending - {t})[u].Entry(p, a)
        ensures a <= u && ((pending - {t})[u].lastReleaseBegin != 0 ==> a < (pending - {t})[u].lastReleaseBegin)
      {
        assert pending[u].Entry(p, a);
      }
      var pending' := pending[t := rest];
      forall u, p, a | u in pending' && pending'[u].Entry(p, a)
        ensures a <= u && (pending'[u].lastReleaseBegin != 0 ==> a < pending'[u].lastReleaseBegin)
      {
        assert pending[u].Entry(p, a);
      }
    }
  }

  // ----- Facts about rollback -----

  ghost function RestoredOf(pend: map<Pgid, Pend>, t: Txid, ids: seq<Pgid>): map<Pgid, Txid> {
    map p | p in ids && p in pend && pend[p].allocTx != 0 && pend[p].allocTx != t :: pend[p].allocTx
  }

  ghost predicate OwnPage(pend: map<Pgid, Pend>, p: Pgid, t: Txid) {
    p in pend && pend[p].allocTx == t && t != 0
  }

  ghost predicate Lists(pend: map<Pgid, Pend>, txp: TxPending, t: Txid) {
    txp.Shape() && forall i :: 0 <= i < |txp.ids| ==> txp.ids[i] in pend && pend[txp.ids[i]] == Pend(t, txp.alloctx[i])
  }

  lemma TxLists(pending: map<Txid, TxPending>, pend: map<Pgid, Pend>, t: Txid)
    requires Tied(pending, pend) && t in pending
    ensures Lists(pend, pending[t], t)
  {
    var txp := pending[t];
    forall i | 0 <= i < |txp.ids|
      ensures txp.ids[i] in pend && pend[txp.ids[i]] == Pend(t, txp.alloctx[i])
    {
      assert txp.Entry(txp.ids[i], txp.alloctx[i]);
    }
  }

  /** m lists, once each, the pages of ids that transaction t had itself allocated. */
  ghost predicate Owns(pend: map<Pgid, Pend>, m: seq<Pgid>, t: Txid, ids: seq<Pgid>) {
    Distinct(m) && forall p :: p in m <==> p in ids && OwnPage(pend, p, t)
  }

  lemma RestoreNext(pend: map<Pgid, Pend>, t: Txid, ids: seq<Pgid>, p: Pgid)
    requires p in pend
    ensures RestoredOf(pend, t, ids + [p]) ==
      if pend[p].allocTx != 0 && pend[p].allocTx != t then RestoredOf(pend, t, ids)[p := pend[p].allocTx]
      else RestoredOf(pend, t, ids)
  {
  }

  lemma RestoredAll(pend: map<Pgid, Pend>, t: Txid, ids: seq<Pgid>)
    requires forall p :: p in ids <==> p in pend && pend[p].freeTx == t
    ensures RestoredOf(pend, t, ids) == Restored(pend, t)
  {
    SameMap(RestoredOf(pend, t, ids), Restored(pend, t));
  }

  /** Rolled-back pages leave the cache; those that become free may be missing from it. */
  lemma Uncached(cache: set<Pgid>, cache': set<Pgid>, free: set<Pgid>, pend: map<Pgid, Pend>, t: Txid)
    requires pend.Keys <= cache <= free + pend.Keys && free !! pend.Keys
    requires forall p :: p in cache' <==> p in cache && !(p in pend && pend[p].freeTx == t)
    ensures Without(pend, t).Keys <= cache' <= free + BackToFree(pend, t) + Without(pend, t).Keys
    ensures free + BackToFree(pend, t) !! Without(pend, t).Keys
  {
    forall p | p in cache'
      ensures p in free + BackToFree(pend, t) + Without(pend, t).Keys
    {
    }
    forall p | p in Without(pend, t).Keys
      ensures p in cache' && p !in free + BackToFree(pend, t)
    {
    }
  }

  // ----- Facts about reload -----

  ghost function PendingIds(pending: map<Txid, TxPending>): set<Pgid> {
    set t, p | t in pending && p in pending[t].ids :: p
  }

  lemma PendingIdsAre(pending: map<Txid, TxPending>, pend: map<Pgid, Pend>)
    requires Tied(pending, pend)
    ensures PendingIds(pending) == pend.Keys
  {
    forall p
      ensures p in PendingIds(pending) <==> p in pend.Keys
    {
      if p in PendingIds(pending) {
        var t :| t in pending && p in pending[t].ids;
        IdsOfTx(pending, pend, t);
      }
      if p in pend {
        IdsOfTx(pending, pend, pend[p].freeTx);
      }
    }
    SameIds(PendingIds(pending), pend.Keys);
  }

  /** What reload leaves free: an empty result leaves the hashmap form with what it had just read. */
  ghost function Refilled(isMap: bool, free: set<Pgid>, listed: set<Pgid>, pend: map<Pgid, Pend>): set<Pgid> {
    var held := if listed != {} then listed else if isMap then free else {};
    if isMap && held <= pend.Keys then held else held - pend.Keys
  }

  /** What noSyncReload leaves free: an empty result leaves the hashmap form as it was. */
  ghost function Rescanned(isMap: bool, free: set<Pgid>, listed: set<Pgid>, pend: map<Pgid, Pend>): set<Pgid> {
    if isMap && listed <= pend.Keys then free else listed - pend.Keys
  }

  lemma AllPending(held: set<Pgid>, a: seq<Pgid>, pend: map<Pgid, Pend>)
    requires forall p :: p in a <==> p in held && p !in pend
    ensures a == [] <==> held <= pend.Keys
    ensures Ids(a) == held - pend.Keys
  {
    SameIds(Ids(a), held - pend.Keys);
    if a == [] {
      forall p | p in held
        ensures p in pend.Keys
      {
        assert p !in a;
      }
    } else {
      var x := a[0];
      assert x in a;
      assert x in held && x !in pend.Keys;
    }
  }

  lemma Reloaded(pageIds: seq<Pgid>, held: set<Pgid>, a: seq<Pgid>, free: set<Pgid>, pend: map<Pgid, Pend>,
                 isMap: bool, free0: set<Pgid>)
    requires free0 !! pend.Keys
    requires held == if pageIds != [] then Ids(pageIds) else if isMap then free0 else {}
    requires forall p :: p in a <==> p in held && p !in pend
    requires free == if isMap && a == [] then held else Ids(a)
    ensures free == Ids(pageIds) - pend.Keys <==>
      !isMap || (exists p :: p in pageIds && p !in pend) || (pageIds == [] && free0 == {})
    ensures free == Refilled(isMap, free0, Ids(pageIds), pend)
  {
    AllPending(held, a, pend);
    assert pageIds == [] ==> Ids(pageIds) == {};
    assert pageIds != [] ==> pageIds[0] in Ids(pageIds);
    var want := Ids(pageIds) - pend.Keys;
    forall p
      ensures p in Ids(a) <==> p in held - pend.Keys
    {
    }
    SameIds(Ids(a), held - pend.Keys);
    if pageIds != [] {
      assert pageIds[0] in Ids(pageIds);
      if exists p :: p in pageIds && p !in pend {
        var p :| p in pageIds && p !in pend;
        assert p in a;
      } else if isMap {
        assert pageIds[0] in free && pageIds[0] in pageIds && pageIds[0] !in want;
      }
    } else if isMap {
      SameIds(free0 - pend.Keys, free0);
      if a == [] {
        assert Ids(a) == {};
      }
    }
  }

  /** Where reload fails: a hashmap freelist with one page pending, reloaded from a list of just that page. */
  method ReloadKeepsPending() returns (f: Freelist)
    ensures f.isMap && 7 in f.free && 7 in f.pend
  {
    f := new Freelist(true);
    f.Free(2, 7, 0, false);
    assert Within(7, 7, 1);
    assert 7 in f.pend;
    var listed: seq<Pgid> := [7];
    assert 7 in listed;
    assert forall p :: p in Ids(listed) <==> p == 7;
    f.Reload(listed);
    assert Ids(listed) <= f.pend.Keys && 7 in Ids(listed);
  }
}
