/**
  The hashmap form of the freelist (bitree/bdb/freelist_hmap.go): free pages kept as
  spans, indexed by first page, by last page and by size.
 */
module SpanIndex {
  import opened PageIds

  // ----- What the three maps mean -----

  /** The forward map, the backward map and the size map say that a span of n pages starts at s. */
  ghost predicate Fwd(f: map<Pgid, int>, s: Pgid, n: int) {
    s in f && f[s] == n
  }

  ghost predicate Bwd(b: map<Pgid, int>, s: Pgid, n: int) {
    s + n - 1 in b && b[s + n - 1] == n
  }

  ghost predicate Grp(m: map<int, set<Pgid>>, s: Pgid, n: int) {
    n in m && s in m[n]
  }

  /** Spans are non-empty, disjoint and maximal: a page separates any two of them. */
  ghost predicate Spans(f: map<Pgid, int>) {
    && (forall s :: s in f ==> 1 <= s && 1 <= f[s])
    && (forall s, t :: s in f && t in f && s < t ==> s + f[s] < t)
  }

  /** The backward map holds exactly the same spans, keyed by their last page. */
  ghost predicate Mirrors(f: map<Pgid, int>, b: map<Pgid, int>) {
    forall s, n :: Fwd(f, s, n) <==> Bwd(b, s, n)
  }

  /** The size map holds exactly the same spans, grouped by size, with no empty group. */
  ghost predicate Buckets(f: map<Pgid, int>, m: map<int, set<Pgid>>) {
    && (forall s, n :: Fwd(f, s, n) <==> Grp(m, s, n))
    && (forall n :: n in m ==> m[n] != {})
  }

  ghost predicate Index(f: map<Pgid, int>, b: map<Pgid, int>, m: map<int, set<Pgid>>) {
    Spans(f) && Mirrors(f, b) && Buckets(f, m)
  }

  /** Page p lies in some span of the forward map. */
  ghost predicate Covered(f: map<Pgid, int>, p: Pgid) {
    exists s :: s in f && s <= p < s + f[s]
  }

  ghost predicate Represents(f: map<Pgid, int>, free: set<Pgid>) {
    forall p :: p in free <==> Covered(f, p)
  }

  predicate Within(p: Pgid, start: Pgid, size: int) {
    start <= p < start + size
  }

  ghost function Range(start: Pgid, size: int): (r: set<Pgid>) {
    set p | start <= p < start + size && Within(p, start, size)
  }

  // ----- One span added or deleted -----

  function BucketAdd(m: map<int, set<Pgid>>, size: int, start: Pgid): map<int, set<Pgid>> {
    m[size := (if size in m then m[size] else {}) + {start}]
  }

  function BucketDel(m: map<int, set<Pgid>>, size: int, start: Pgid): map<int, set<Pgid>> {
    if size !in m then m
    else if m[size] - {start} == {} then m - {size}
    else m[size := m[size] - {start}]
  }

  /** A span of `size` pages at `start` touches no span of f. */
  ghost predicate Clear(f: map<Pgid, int>, start: Pgid, size: int) {
    forall s :: s in f ==> s + f[s] < start || start + size < s
  }

  lemma ClearOfFree(f: map<Pgid, int>, free: set<Pgid>, start: Pgid, size: int)
    requires Spans(f) && Represents(f, free) && 1 <= size
    requires forall p | start - 1 <= p <= start + size :: p !in free
    ensures Clear(f, start, size)
  {
    forall s | s in f
      ensures s + f[s] < start || start + size < s
    {
      assert Covered(f, s);
      assert s < start - 1 && start <= s + f[s] ==> Covered(f, start - 1);
    }
  }

  /** A new span that touches no other keeps the index. */
  lemma AddSpanKeepsIndex(f: map<Pgid, int>, b: map<Pgid, int>, m: map<int, set<Pgid>>, start: Pgid, size: int)
    requires Index(f, b, m) && 1 <= start && 1 <= size && Clear(f, start, size)
    ensures Index(f[start := size], b[start - 1 + size := size], BucketAdd(m, size, start))
  {
    AddSpanMirrors(f, b, start, size);
    AddSpanBuckets(f, m, start, size);
  }

  lemma AddSpanMirrors(f: map<Pgid, int>, b: map<Pgid, int>, start: Pgid, size: int)
    requires Mirrors(f, b) && Spans(f) && Clear(f, start, size) && 1 <= size
    ensures Mirrors(f[start := size], b[start - 1 + size := size])
  {
    var f', b' := f[start := size], b[start - 1 + size := size];
    forall s, n
      ensures Fwd(f', s, n) <==> Bwd(b', s, n)
    {
      assert Fwd(f, s, n) <==> Bwd(b, s, n);
      assert s == start ==> s !in f;
    }
  }

  lemma AddSpanBuckets(f: map<Pgid, int>, m: map<int, set<Pgid>>, start: Pgid, size: int)
    requires Buckets(f, m) && Spans(f) && Clear(f, start, size) && 1 <= size
    ensures Buckets(f[start := size], BucketAdd(m, size, start))
  {
    var f', m' := f[start := size], BucketAdd(m, size, start);
    forall s, n
      ensures Fwd(f', s, n) <==> Grp(m', s, n)
    {
      assert Fwd(f, s, n) <==> Grp(m, s, n);
      assert s == start ==> s !in f;
    }
  }

  lemma AddSpanRepresents(f: map<Pgid, int>, free: set<Pgid>, start: Pgid, size: int)
    requires Represents(f, free) && Clear(f, start, size) && 1 <= size
    ensures Represents(f[start := size], free + Range(start, size))
  {
    var f' := f[start := size];
    forall p
      ensures p in free + Range(start, size) <==> Covered(f', p)
    {
      if p in free {
        var s :| s in f && s <= p < s + f[s];
        assert s in f' && f'[s] == f[s];
      }
      if Within(p, start, size) {
        assert start in f';
      }
      if Covered(f', p) {
        var s :| s in f' && s <= p < s + f'[s];
        assert s != start ==> Covered(f, p);
      }
    }
  }

  /** Deleting a span keeps the index. */
  lemma DelSpanKeepsIndex(f: map<Pgid, int>, b: map<Pgid, int>, m: map<int, set<Pgid>>, start: Pgid)
    requires Index(f, b, m) && start in f
    ensures Index(f - {start}, b - {start + f[start] - 1}, BucketDel(m, f[start], start))
  {
    DelSpanMirrors(f, b, start);
    DelSpanBuckets(f, m, start);
  }

  lemma DelSpanMirrors(f: map<Pgid, int>, b: map<Pgid, int>, start: Pgid)
    requires Mirrors(f, b) && Spans(f) && start in f
    ensures Mirrors(f - {start}, b - {start + f[start] - 1})
  {
    var f', b' := f - {start}, b - {start + f[start] - 1};
    forall s, n
      ensures Fwd(f', s, n) <==> Bwd(b', s, n)
    {
      assert Fwd(f, s, n) <==> Bwd(b, s, n);
      assert Fwd(f, start, f[start]) <==> Bwd(b, start, f[start]);
    }
  }

  lemma DelSpanBuckets(f: map<Pgid, int>, m: map<int, set<Pgid>>, start: Pgid)
    requires Buckets(f, m) && start in f
    ensures Buckets(f - {start}, BucketDel(m, f[start], start))
  {
    var f', m' := f - {start}, BucketDel(m, f[start], start);
    forall s, n
      ensures Fwd(f', s, n) <==> Grp(m', s, n)
    {
      assert Fwd(f, s, n) <==> Grp(m, s, n);
    }
  }

  lemma DelSpanRepresents(f: map<Pgid, int>, free: set<Pgid>, start: Pgid)
    requires Spans(f) && Represents(f, free) && start in f
    ensures Represents(f - {start}, free - Range(start, f[start]))
  {
    hide Spans, Covered;
    forall p
      ensures p in free - Range(start, f[start]) <==> Covered(f - {start}, p)
    {
      DelSpanCovers(f, start, p);
    }
  }

  /** A page of no other span is no longer covered. */
  lemma DelSpanCovers(f: map<Pgid, int>, start: Pgid, p: Pgid)
    requires Spans(f) && start in f
    ensures Covered(f - {start}, p) <==> Covered(f, p) && !Within(p, start, f[start])
  {
    var f' := f - {start};
    if Covered(f', p) {
      var s :| s in f' && s <= p < s + f'[s];
      assert s in f;
    }
    if Covered(f, p) && !Within(p, start, f[start]) {
      var s :| s in f && s <= p < s + f[s];
      assert s in f';
    }
  }

  // ----- Free runs -----

  /** n consecutive free pages start at p. */
  ghost predicate RunAt(free: set<Pgid>, p: Pgid, n: int) {
    forall q | p <= q < p + n :: q in free
  }

  ghost predicate HasRun(free: set<Pgid>, n: int) {
    exists p :: RunAt(free, p, n)
  }

  /** Maximal spans: a free run always fits inside one span. */
  lemma {:induction false} RunFitsInSpan(f: map<Pgid, int>, free: set<Pgid>, p: Pgid, n: int) returns (s: Pgid)
    requires Spans(f) && Represents(f, free) && RunAt(free, p, n) && 1 <= n
    ensures s in f && s <= p && p + n <= s + f[s]
  {
    if n == 1 {
      assert p in free;
      s :| s in f && s <= p < s + f[s];
    } else {
      s := RunFitsInSpan(f, free, p, n - 1);
      var q := p + n - 1;
      assert q in free && Covered(f, q);
      var t :| t in f && t <= q < t + f[t];
      if t != s {
        assert false;
      }
    }
  }

  lemma RunHasGroup(f: map<Pgid, int>, m: map<int, set<Pgid>>, free: set<Pgid>, n: int)
    requires Spans(f) && Buckets(f, m) && Represents(f, free) && 1 <= n
    ensures HasRun(free, n) ==> exists size :: size in m && n <= size
  {
    if HasRun(free, n) {
      var p :| RunAt(free, p, n);
      var s := RunFitsInSpan(f, free, p, n);
      assert Fwd(f, s, f[s]) && Grp(m, s, f[s]);
    }
  }

  class SpanMaps {
    var forwardMap: map<Pgid, int>
    var backwardMap: map<Pgid, int>
    var freemaps: map<int, set<Pgid>>
    ghost var free: set<Pgid>

    ghost predicate Valid()
      reads this
    {
      Index(forwardMap, backwardMap, freemaps) && Represents(forwardMap, free)
    }

    constructor ()
      ensures Valid() && free == {}
    {
      forwardMap, backwardMap, freemaps := map[], map[], map[];
      free := {};
    }

    method AddSpan(start: Pgid, size: int)
      requires 1 <= start
      modifies this`forwardMap, this`backwardMap, this`freemaps
      ensures forwardMap == old(forwardMap)[start := size]
      ensures backwardMap == old(backwardMap)[start - 1 + size := size]
      ensures freemaps == BucketAdd(old(freemaps), size, start)
    {
      backwardMap := backwardMap[start - 1 + size := size];
      forwardMap := forwardMap[start := size];
      if size !in freemaps {
        freemaps := freemaps[size := {}];
      }
      freemaps := freemaps[size := freemaps[size] + {start}];
    }

    method DelSpan(start: Pgid, size: int)
      requires 1 <= size && 1 <= start
      modifies this`forwardMap, this`backwardMap, this`freemaps
      ensures forwardMap == old(forwardMap) - {start}
      ensures backwardMap == old(backwardMap) - {start + size - 1}
      ensures freemaps == BucketDel(old(freemaps), size, start)
    {
      forwardMap := forwardMap - {start};
      backwardMap := backwardMap - {start + (size - 1)};
      if size in freemaps {
        var group := freemaps[size] - {start};
        freemaps := if |group| == 0 then freemaps - {size} else freemaps[size := group];
      }
    }

    /** delSpan on a span of the index. */
    method RemoveSpan(start: Pgid, size: int)
      requires Valid() && start in forwardMap && forwardMap[start] == size
      modifies this
      ensures Valid() && free == old(free) - Range(start, size)
      ensures forwardMap == old(forwardMap) - {start}
    {
      DelSpanKeepsIndex(forwardMap, backwardMap, freemaps, start);
      DelSpanRepresents(forwardMap, free, start);
      DelSpan(start, size);
      free := free - Range(start, size);
    }

    /** addSpan of pages that touch no free page. */
    method InsertSpan(start: Pgid, size: int)
      requires Valid() && 1 <= start && 1 <= size
      requires forall p | start - 1 <= p <= start + size :: p !in free
      modifies this
      ensures Valid() && free == old(free) + Range(start, size)
    {
      ClearOfFree(forwardMap, free, start, size);
      AddSpanKeepsIndex(forwardMap, backwardMap, freemaps, start, size);
      AddSpanRepresents(forwardMap, free, start, size);
      AddSpan(start, size);
      free := free + Range(start, size);
    }

    /** mergeWithExistingSpan: adds one page, joining it with the spans on either side. */
    method MergeWithExistingSpan(pid: Pgid)
      requires Valid() && 1 <= pid && pid !in free
      modifies this
      ensures Valid() && free == old(free) + {pid}
    {
      var prev, next := pid - 1, pid + 1;
      var newStart, newSize := pid, 1;
      ghost var f0 := forwardMap;
      LeftOfGap(forwardMap, backwardMap, free, pid);
      RightOfGap(forwardMap, free, pid);
      if prev in backwardMap {
        var preSize := backwardMap[prev];
        RemoveSpan(prev + 1 - preSize, preSize);
        newStart, newSize := newStart - preSize, newSize + preSize;
      }
      if next in forwardMap {
        var nextSize := forwardMap[next];
        RemoveSpan(next, nextSize);
        newSize := newSize + nextSize;
      }
      InsertSpan(newStart, newSize);
    }

    /** hashmapMergeSpans: adds pages that are not free, in any order. */
    method MergeSpans(ids: seq<Pgid>)
      requires Valid() && Distinct(ids)
      requires forall p :: p in ids ==> 1 <= p && p !in free
      modifies this
      ensures Valid() && free == old(free) + Ids(ids)
    {
      for i := 0 to |ids|
        invariant Valid() && free == old(free) + Ids(ids[..i])
      {
        assert ids[i] in ids && ids[i] !in ids[..i];
        assert ids[..i + 1] == ids[..i] + [ids[i]];
        MergeWithExistingSpan(ids[i]);
      }
      assert ids[..|ids|] == ids;
    }

    /**
      The span part of hashmapAllocate: takes n pages out of a span of that exact size, else
      from the front of any larger span; 0 exactly when no n consecutive pages are free.
     */
    method Take(n: nat) returns (pid: Pgid)
      requires Valid()
      modifies this
      ensures Valid()
      ensures pid == 0 <==> n == 0 || !HasRun(old(free), n)
      ensures pid == 0 ==> free == old(free)
      ensures pid != 0 ==> RunAt(old(free), pid, n) && free == old(free) - Range(pid, n)
    {
      if n == 0 {
        return 0;
      }
      if n in freemaps {
        var group := freemaps[n];
        assert exists s :: s in group by {
          var s := Member(group);
        }
        pid :| pid in group;
        assert Grp(freemaps, pid, n) && Fwd(forwardMap, pid, n);
        SpanIsRun(forwardMap, free, pid, n);
        RemoveSpan(pid, n);
        return;
      }
      if size :| size in freemaps && size >= n {
        var group := freemaps[size];
        assert exists s :: s in group by {
          var s := Member(group);
        }
        pid :| pid in group;
        assert Grp(freemaps, pid, size) && Fwd(forwardMap, pid, size);
        SpanIsRun(forwardMap, free, pid, n);
        SpanIsRun(forwardMap, free, pid, size);
        SpanEdges(forwardMap, free, pid);
        RemoveSpan(pid, size);
        var remain := size - n;
        InsertSpan(pid + n, remain);
        CutRange(old(free), pid, size, n);
        return;
      }
      pid := 0;
      RunHasGroup(forwardMap, freemaps, free, n);
    }

    /**
      init: rebuilds the index from a list of ids. The first id is read before the list is
      sorted, so the pages come out right exactly when the first id is already the smallest;
      an empty list leaves the old index in place.
     */
    method Init(pids: seq<Pgid>)
      requires Distinct(pids) && forall p :: p in pids ==> 1 <= p
      modifies this
      ensures pids == [] ==> unchanged(this)
      ensures pids != [] && (forall p :: p in pids ==> pids[0] <= p) ==>
        Valid() && free == Ids(pids)
      ensures pids != [] ==>
        ((forall p :: p in pids ==> pids[0] <= p) <==> (forall p :: Covered(forwardMap, p) <==> p in pids))
      ensures forall p :: p in pids && p < pids[0] && (forall q :: q in pids ==> p <= q) ==> !Covered(forwardMap, p)
    {
      if |pids| == 0 {
        return;
      }
      var start := pids[0];
      var s := Sort(pids);
      MultisetMembers(s, pids);
      DistinctCounts(pids);
      DistinctCounts(s);
      SortedDistinctIsStrict(s);
      assert s[0] in s && s[0] in pids && start in s;
      if start == s[0] {
        Rebuild(s);
      } else {
        RebuildFrom(start, s);
        assert !Covered(forwardMap, s[0]);
      }
    }

    /** hashmapGetFreePageIDs: the pages of all spans, sorted. */
    method PageList() returns (r: seq<Pgid>)
      requires Valid()
      ensures StrictlySorted(r) && Ids(r) == free
    {
      var m: seq<Pgid> := [];
      var todo := forwardMap.Keys;
      while todo != {}
        invariant todo <= forwardMap.Keys && Distinct(m)
        invariant forall p :: p in m <==> CoveredBy(forwardMap, p, forwardMap.Keys - todo)
        decreases todo
      {
        var start := PickStart(todo);
        var run := Enumerate(start, forwardMap[start]);
        NextSpanListed(forwardMap, m, run, todo, start);
        m := m + run;
        todo := todo - {start};
      }
      r := Sort(m);
      MultisetMembers(r, m);
      DistinctCounts(m);
      DistinctCounts(r);
      SortedDistinctIsStrict(r);
      AllListed(forwardMap, free, m);
      SameIds(Ids(r), free);
    }

    /** The loop of init on a sorted list that starts with its smallest id. */
    method Rebuild(s: seq<Pgid>)
      requires s != [] && StrictlySorted(s) && 1 <= s[0]
      modifies this
      ensures Valid() && free == Ids(s)
    {
      freemaps, forwardMap, backwardMap := map[], map[], map[];
      free := {};
      var size, start := 1, s[0];
      for i := 1 to |s|
        invariant LastRun(s, i, size, start)
        invariant Valid() && free == Ids(s[..i - size])
      {
        if s[i] == s[i - 1] + 1 {
          size := size + 1;
        } else {
          RunBlock(s, i, size, start);
          InsertSpan(start, size);
          size, start := 1, s[i];
        }
      }
      RunBlock(s, |s|, size, start);
      assert s[..|s|] == s;
      InsertSpan(start, size);
    }

    /** The same loop with another id as the start of the first span: the smallest id is lost. */
    method RebuildFrom(first: Pgid, s: seq<Pgid>)
      requires s != [] && StrictlySorted(s) && 0 <= s[0] < first
      modifies this
      ensures !Covered(forwardMap, s[0])
    {
      freemaps, forwardMap, backwardMap := map[], map[], map[];
      free := {};
      var size, start := 1, first;
      for i := 1 to |s|
        invariant s[0] < start && forall t :: t in forwardMap ==> s[0] < t
      {
        if s[i] == s[i - 1] + 1 {
          size := size + 1;
        } else {
          AddSpan(start, size);
          size, start := 1, s[i];
        }
      }
      AddSpan(start, size);
    }
  }

  /** Where init fails: the smallest page of a list that does not start with it is lost. */
  method InitLosesPage() returns (m: SpanMaps)
    ensures !Covered(m.forwardMap, 3)
  {
    m := new SpanMaps();
    var pids: seq<Pgid> := [5, 3];
    assert pids[1] == 3;
    m.Init(pids);
  }

  method PickStart(s: set<Pgid>) returns (t: Pgid)
    requires s != {}
    ensures t in s
  {
    assert exists x :: x in s by {
      var x := Member(s);
    }
    t :| t in s;
  }

  method Enumerate(start: Pgid, size: int) returns (r: seq<Pgid>)
    requires 0 <= size
    ensures Distinct(r) && forall p :: p in r <==> Within(p, start, size)
  {
    r := [];
    for i := 0 to size
      invariant Distinct(r) && forall p :: p in r <==> Within(p, start, i)
    {
      assert !Within(start + i, start, i) && start + i !in r;
      r := r + [start + i];
    }
  }

  // ----- Facts used by the methods -----

  /** p lies in a span that starts in `starts`. */
  ghost predicate CoveredBy(f: map<Pgid, int>, p: Pgid, starts: set<Pgid>) {
    exists s :: s in f && s in starts && s <= p < s + f[s]
  }

  lemma NextSpanListed(f: map<Pgid, int>, m: seq<Pgid>, run: seq<Pgid>, todo: set<Pgid>, start: Pgid)
    requires Spans(f) && start in todo && todo <= f.Keys && Distinct(m) && Distinct(run)
    requires forall p :: p in m <==> CoveredBy(f, p, f.Keys - todo)
    requires forall p :: p in run <==> Within(p, start, f[start])
    ensures Distinct(m + run)
    ensures forall p :: p in m + run <==> CoveredBy(f, p, f.Keys - (todo - {start}))
  {
    forall p | p in run
      ensures p !in m
    {
    }
    DistinctAppend(m, run);
    forall p
      ensures p in m + run <==> CoveredBy(f, p, f.Keys - (todo - {start}))
    {
      if CoveredBy(f, p, f.Keys - todo) {
        var s :| s in f && s in f.Keys - todo && s <= p < s + f[s];
        assert s in f.Keys - (todo - {start});
      }
      if p in run {
        assert start in f.Keys - (todo - {start});
      }
    }
  }

  lemma AllListed(f: map<Pgid, int>, free: set<Pgid>, m: seq<Pgid>)
    requires Represents(f, free)
    requires forall p :: p in m <==> CoveredBy(f, p, f.Keys)
    ensures forall p :: p in m <==> p in free
  {
    forall p
      ensures p in m <==> p in free
    {
      assert Covered(f, p) <==> CoveredBy(f, p, f.Keys);
    }
  }

  /** Left of a page that is not free: either no free page, or a span that ends there. */
  lemma LeftOfGap(f: map<Pgid, int>, b: map<Pgid, int>, free: set<Pgid>, pid: Pgid)
    requires Spans(f) && Mirrors(f, b) && Represents(f, free) && pid !in free
    ensures pid - 1 !in b ==> pid - 1 !in free
    ensures pid - 1 in b ==>
      var start := pid - b[pid - 1];
      start in f && f[start] == b[pid - 1] && start - 1 !in free && RunAt(free, start, b[pid - 1])
  {
    assert !Covered(f, pid);
    if pid - 1 in free {
      var s :| s in f && s <= pid - 1 < s + f[s];
      assert Fwd(f, s, f[s]);
      assert Bwd(b, s, f[s]);
    }
    if pid - 1 in b {
      var start := pid - b[pid - 1];
      assert Bwd(b, start, b[pid - 1]);
      assert Fwd(f, start, b[pid - 1]);
      SpanEdges(f, free, start);
      SpanIsRun(f, free, start, f[start]);
    }
  }

  /** Right of a page that is not free: either no free page, or a span that starts there. */
  lemma RightOfGap(f: map<Pgid, int>, free: set<Pgid>, pid: Pgid)
    requires Spans(f) && Represents(f, free) && pid !in free
    ensures pid + 1 !in f ==> pid + 1 !in free
    ensures pid + 1 in f ==> pid + 1 + f[pid + 1] !in free && RunAt(free, pid + 1, f[pid + 1])
  {
    assert !Covered(f, pid);
    if pid + 1 in free {
      var s :| s in f && s <= pid + 1 < s + f[s];
      assert s == pid + 1;
    }
    if pid + 1 in f {
      SpanEdges(f, free, pid + 1);
      SpanIsRun(f, free, pid + 1, f[pid + 1]);
    }
  }

  /** The pages just outside a span are not free. */
  lemma SpanEdges(f: map<Pgid, int>, free: set<Pgid>, s: Pgid)
    requires Spans(f) && Represents(f, free) && s in f
    ensures s - 1 !in free && s + f[s] !in free
  {
    assert !Covered(f, s - 1);
    assert !Covered(f, s + f[s]);
  }

  lemma Member(g: set<Pgid>) returns (s: Pgid)
    requires g != {}
    ensures s in g
  {
    if forall x :: x !in g {
      assert false;
    }
    s :| s in g;
  }

  /** Taking the front of a run leaves the rest of it. */
  lemma CutRange(free: set<Pgid>, pid: Pgid, size: int, n: int)
    requires RunAt(free, pid, size) && 0 <= n <= size
    ensures free - Range(pid, size) + Range(pid + n, size - n) == free - Range(pid, n)
  {
    forall p
      ensures p in free - Range(pid, size) + Range(pid + n, size - n) <==> p in free - Range(pid, n)
    {
      if Within(p, pid + n, size - n) {
        assert p in free;
      }
    }
  }

  lemma SpanIsRun(f: map<Pgid, int>, free: set<Pgid>, s: Pgid, n: int)
    requires Represents(f, free) && s in f && n <= f[s]
    ensures RunAt(free, s, n) && HasRun(free, n)
  {
    forall q | s <= q < s + n
      ensures q in free
    {
      assert Covered(f, q);
    }
    assert RunAt(free, s, n);
  }

  /** The last `size` of the first i ids are consecutive from `start`, with a gap before them. */
  ghost predicate LastRun(s: seq<Pgid>, i: int, size: int, start: Pgid) {
    && 1 <= size <= i <= |s|
    && start == s[i - size] && s[i - 1] == start + size - 1
    && (i - size > 0 ==> s[i - size - 1] + 1 < start)
  }

  ghost predicate AllBelow(s: seq<Pgid>, x: Pgid) {
    forall p :: p in s ==> p < x
  }

  /** That block is the range it looks like and touches nothing before it. */
  lemma RunBlock(s: seq<Pgid>, i: int, size: int, start: Pgid)
    requires StrictlySorted(s) && LastRun(s, i, size, start)
    ensures Ids(s[..i]) == Ids(s[..i - size]) + Range(start, size)
    ensures AllBelow(s[..i - size], start - 1)
  {
    var head, block := s[..i - size], s[i - size..i];
    assert s[..i] == head + block;
    BlockIsRange(s, i - size, i);
    forall p | p in head
      ensures p < start - 1
    {
      var k :| 0 <= k < |head| && head[k] == p;
      assert s[k] <= s[i - size - 1];
    }
    assert Ids(s[..i]) == Ids(head) + Ids(block);
  }

  lemma BlockIsRange(s: seq<Pgid>, lo: int, hi: int)
    requires StrictlySorted(s) && 0 <= lo < hi <= |s| && s[hi - 1] == s[lo] + (hi - 1 - lo)
    ensures Ids(s[lo..hi]) == Range(s[lo], hi - lo)
  {
    ConsecutiveBlock(s, lo, hi);
    var block := s[lo..hi];
    forall p
      ensures p in Ids(block) <==> p in Range(s[lo], hi - lo)
    {
      if Within(p, s[lo], hi - lo) {
        assert block[p - s[lo]] == p;
      }
    }
  }

  lemma {:induction false} ConsecutiveBlock(s: seq<Pgid>, lo: nat, hi: int)
    requires StrictlySorted(s) && 0 <= lo < hi <= |s| && s[hi - 1] == s[lo] + (hi - 1 - lo)
    ensures forall k :: lo <= k < hi ==> s[k] == s[lo] + (k - lo)
    decreases hi - lo
  {
    if hi - lo > 1 {
      GrowsByOne(s, lo, hi - 2);
      ConsecutiveBlock(s, lo, hi - 1);
    }
  }

  lemma {:induction false} GrowsByOne(s: seq<Pgid>, lo: nat, hi: int)
    requires StrictlySorted(s) && 0 <= lo <= hi < |s|
    ensures s[lo] + (hi - lo) <= s[hi]
    decreases hi
  {
    if lo < hi {
      GrowsByOne(s, lo, hi - 1);
    }
  }
}
