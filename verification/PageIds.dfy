/**
  Page-id lists of the bdb page allocator (bitree/bdb/page.go): sorted lists,
  the sort the allocator relies on, and the galloping merge of two sorted lists.
 */
module PageIds {

  type Pgid = int
  type Txid = int

  ghost predicate Sorted(s: seq<Pgid>) {
    forall i, j :: 0 <= i < j < |s| ==> s[i] <= s[j]
  }

  ghost predicate StrictlySorted(s: seq<Pgid>) {
    forall i, j :: 0 <= i < j < |s| ==> s[i] < s[j]
  }

  ghost predicate Distinct(s: seq<Pgid>) {
    forall i, j :: 0 <= i < j < |s| ==> s[i] != s[j]
  }

  ghost function Ids(s: seq<Pgid>): set<Pgid> {
    set p | p in s
  }

  lemma SameIds(a: set<Pgid>, b: set<Pgid>)
    requires forall p :: p in a <==> p in b
    ensures a == b
  {
    forall p | p in a
      ensures p in b
    {
    }
    forall p | p in b
      ensures p in a
    {
    }
  }

  lemma SameMap<V>(a: map<int, V>, b: map<int, V>)
    requires forall p :: p in a <==> p in b
    requires forall p :: p in a ==> a[p] == b[p]
    ensures a == b
  {
    forall p | p in a
      ensures p in b && a[p] == b[p]
    {
    }
    forall p | p in b
      ensures p in a && a[p] == b[p]
    {
    }
  }

  /** The binary search of Go's sort package for the first element above x. */
  method SearchAbove(s: seq<Pgid>, x: Pgid) returns (n: nat)
    requires Sorted(s)
    ensures n <= |s|
    ensures forall i :: 0 <= i < n ==> s[i] <= x
    ensures forall i :: n <= i < |s| ==> x < s[i]
  {
    var lo, hi := 0, |s|;
    while lo < hi
      invariant 0 <= lo <= hi <= |s|
      invariant forall i :: 0 <= i < lo ==> s[i] <= x
      invariant forall i :: hi <= i < |s| ==> x < s[i]
    {
      var mid := (lo + hi) / 2;
      if s[mid] > x {
        hi := mid;
      } else {
        lo := mid + 1;
      }
    }
    n := lo;
  }

  /** Copies src into dst from index k on. */
  method CopyAt(dst: array<Pgid>, k: nat, src: seq<Pgid>)
    requires k + |src| <= dst.Length
    modifies dst
    ensures dst[..k] == old(dst[..k])
    ensures dst[k..k + |src|] == src
    ensures dst[k + |src|..] == old(dst[k + |src|..])
  {
    for i := 0 to |src|
      invariant dst[..k] == old(dst[..k])
      invariant dst[k..k + i] == src[..i]
      invariant dst[k + |src|..] == old(dst[k + |src|..])
    {
      dst[k + i] := src[i];
      assert dst[k..k + i + 1] == dst[k..k + i] + [src[i]];
    }
  }

  lemma SortedAppend(s: seq<Pgid>, t: seq<Pgid>)
    requires Sorted(s) && Sorted(t)
    requires forall i, j :: 0 <= i < |s| && 0 <= j < |t| ==> s[i] <= t[j]
    ensures Sorted(s + t)
  {
  }

  /** Everything in s is at most the head of t. */
  ghost predicate BelowHead(s: seq<Pgid>, t: seq<Pgid>) {
    t != [] ==> forall i :: 0 <= i < |s| ==> s[i] <= t[0]
  }

  /** What is still to be merged: the merged front and both remainders hold all of `all`, in order. */
  ghost predicate Merging(front: seq<Pgid>, lead: seq<Pgid>, follow: seq<Pgid>, all: multiset<Pgid>) {
    && Sorted(front) && Sorted(lead) && Sorted(follow)
    && follow != []
    && (lead != [] ==> lead[0] <= follow[0])
    && BelowHead(front, lead) && BelowHead(front, follow)
    && multiset(front) + multiset(lead) + multiset(follow) == all
  }

  lemma MergingStep(front: seq<Pgid>, lead: seq<Pgid>, follow: seq<Pgid>, all: multiset<Pgid>, n: nat)
    requires Merging(front, lead, follow, all) && n <= |lead|
    requires forall i :: 0 <= i < n ==> lead[i] <= follow[0]
    requires forall i :: n <= i < |lead| ==> follow[0] < lead[i]
    ensures n < |lead| ==> Merging(front + lead[..n], follow, lead[n..], all)
    ensures n == |lead| ==> Merging(front + lead[..n], [], follow, all)
  {
    SortedAppend(front, lead[..n]);
    MovedBag(front, lead, n);
  }

  lemma MovedBag(front: seq<Pgid>, lead: seq<Pgid>, n: nat)
    requires n <= |lead|
    ensures multiset(front + lead[..n]) + multiset(lead[n..]) == multiset(front) + multiset(lead)
    ensures n == |lead| ==> multiset(front + lead[..n]) == multiset(front) + multiset(lead)
  {
    assert lead == lead[..n] + lead[n..];
  }

  /**
    mergepgids: merges two sorted lists into the front of dst by copying, turn
    about, the longest run of one list that does not pass the head of the other.
   */
  method MergePgids(dst: array<Pgid>, a: seq<Pgid>, b: seq<Pgid>)
    requires Sorted(a) && Sorted(b)
    requires |a| + |b| <= dst.Length
    modifies dst
    ensures Sorted(dst[..|a| + |b|])
    ensures multiset(dst[..|a| + |b|]) == multiset(a) + multiset(b)
    ensures dst[|a| + |b|..] == old(dst[|a| + |b|..])
  {
    if |a| == 0 {
      CopyAt(dst, 0, b);
      assert dst[..|b|] == dst[0..|b|];
      return;
    }
    if |b| == 0 {
      CopyAt(dst, 0, a);
      assert dst[..|a|] == dst[0..|a|];
      return;
    }
    if b[0] < a[0] {
      Gallop(dst, b, a);
    } else {
      Gallop(dst, a, b);
    }
  }

  method Gallop(dst: array<Pgid>, lead0: seq<Pgid>, follow0: seq<Pgid>)
    requires Sorted(lead0) && Sorted(follow0) && lead0 != [] && follow0 != []
    requires lead0[0] <= follow0[0]
    requires |lead0| + |follow0| <= dst.Length
    modifies dst
    ensures Sorted(dst[..|lead0| + |follow0|])
    ensures multiset(dst[..|lead0| + |follow0|]) == multiset(lead0) + multiset(follow0)
    ensures dst[|lead0| + |follow0|..] == old(dst[|lead0| + |follow0|..])
  {
    hide Merging, Sorted, BelowHead;
    var k, end := 0, |lead0| + |follow0|;
    var lead, follow := lead0, follow0;
    ghost var all := multiset(lead0) + multiset(follow0);
    ghost var front: seq<Pgid> := [];
    MergingStarts(lead0, follow0);
    while |lead| > 0
      invariant k + |lead| + |follow| == end
      invariant dst[..k] == front && Merging(front, lead, follow, all)
      invariant dst[end..] == old(dst[end..])
      decreases |lead| + |follow|
    {
      var n := TakeRun(dst, k, lead, follow, end, front, all);
      k, front := k + n, front + lead[..n];
      if n >= |lead| {
        lead := [];
        break;
      }
      lead, follow := follow, lead[n..];
    }
    MergingEnds(front, follow, all);
    AppendRun(dst, k, follow, end, front);
  }

  /** One turn: the run of lead that does not pass the head of follow. */
  method TakeRun(dst: array<Pgid>, k: nat, lead: seq<Pgid>, follow: seq<Pgid>, end: nat, ghost front: seq<Pgid>, ghost all: multiset<Pgid>)
    returns (n: nat)
    requires k + |lead| + |follow| == end <= dst.Length && dst[..k] == front && Merging(front, lead, follow, all) && lead != []
    modifies dst
    ensures 0 < n <= |lead| && dst[..k + n] == front + lead[..n] && dst[end..] == old(dst[end..])
    ensures n < |lead| ==> Merging(front + lead[..n], follow, lead[n..], all)
    ensures n == |lead| ==> Merging(front + lead[..n], [], follow, all)
  {
    n := SearchAbove(lead, follow[0]);
    MergingStep(front, lead, follow, all, n);
    AppendRun(dst, k, lead[..n], end, front);
  }

  lemma MergingStarts(lead: seq<Pgid>, follow: seq<Pgid>)
    requires Sorted(lead) && Sorted(follow) && lead != [] && follow != [] && lead[0] <= follow[0]
    ensures Merging([], lead, follow, multiset(lead) + multiset(follow))
  {
  }

  lemma MergingEnds(front: seq<Pgid>, follow: seq<Pgid>, all: multiset<Pgid>)
    requires Merging(front, [], follow, all)
    ensures Sorted(front + follow) && multiset(front + follow) == all
  {
    SortedAppend(front, follow);
  }

  /** append(merged, run...): extends the merged front of dst by one sorted run. */
  method AppendRun(dst: array<Pgid>, k: nat, run: seq<Pgid>, end: nat, ghost front: seq<Pgid>)
    requires k + |run| <= end <= dst.Length
    requires dst[..k] == front
    modifies dst
    ensures dst[..k + |run|] == front + run
    ensures dst[end..] == old(dst[end..])
  {
    CopyAt(dst, k, run);
    assert dst[..k + |run|] == dst[..k] + dst[k..k + |run|];
    assert dst[end..] == dst[k + |run|..][end - k - |run|..];
    assert old(dst[end..]) == old(dst[k + |run|..])[end - k - |run|..];
  }

  /** pgids.merge: a list that shares the shorter cases and merges the rest. */
  method Merge(a: seq<Pgid>, b: seq<Pgid>) returns (m: seq<Pgid>)
    requires Sorted(a) && Sorted(b)
    ensures Sorted(m) && multiset(m) == multiset(a) + multiset(b)
  {
    if |a| == 0 {
      return b;
    }
    if |b| == 0 {
      return a;
    }
    var merged := new Pgid[|a| + |b|](_ => 0);
    MergePgids(merged, a, b);
    m := merged[..];
    assert m == merged[..|a| + |b|];
  }

  /** sort.Sort on page ids. */
  method Sort(s: seq<Pgid>) returns (r: seq<Pgid>)
    ensures Sorted(r) && multiset(r) == multiset(s) && |r| == |s|
  {
    r := [];
    for i := 0 to |s|
      invariant Sorted(r) && |r| == i
      invariant multiset(r) == multiset(s[..i])
    {
      var n := SearchAbove(r, s[i]);
      assert s[..i + 1] == s[..i] + [s[i]];
      assert r == r[..n] + r[n..];
      r := r[..n] + [s[i]] + r[n..];
    }
    assert s[..|s|] == s;
  }

  lemma MultisetMembers(s: seq<Pgid>, t: seq<Pgid>)
    requires multiset(s) == multiset(t)
    ensures forall p :: p in s <==> p in t
  {
    forall p
      ensures p in s <==> p in t
    {
      assert p in multiset(s) <==> p in multiset(t);
    }
  }

  /** In a list without repeats each element has multiplicity one. */
  lemma {:induction false} DistinctCounts(s: seq<Pgid>)
    ensures Distinct(s) <==> forall p :: p in s ==> multiset(s)[p] == 1
  {
    if s != [] {
      var n := |s| - 1;
      assert s == s[..n] + [s[n]];
      DistinctCounts(s[..n]);
      if Distinct(s) {
        assert s[n] !in s[..n];
      } else if forall p :: p in s ==> multiset(s)[p] == 1 {
        assert multiset(s)[s[n]] == multiset(s[..n])[s[n]] + 1;
        forall p | p in s[..n]
          ensures multiset(s[..n])[p] == 1
        {
          assert p in s && multiset(s)[p] == 1;
        }
        assert false;
      }
    }
  }

  /** Merging two disjoint lists without repeats leaves no repeats. */
  lemma MergedDistinct(a: seq<Pgid>, b: seq<Pgid>, m: seq<Pgid>)
    requires Distinct(a) && Distinct(b)
    requires forall p :: p in a ==> p !in b
    requires multiset(m) == multiset(a) + multiset(b)
    ensures Distinct(m)
    ensures forall p :: p in m <==> p in a || p in b
  {
    DistinctCounts(a);
    DistinctCounts(b);
    DistinctCounts(m);
    forall p
      ensures p in m <==> p in a || p in b
      ensures p in m ==> multiset(m)[p] == 1
    {
      assert p in multiset(m) <==> p in m;
      assert multiset(m)[p] == multiset(a)[p] + multiset(b)[p];
    }
  }

  lemma DistinctAppend(s: seq<Pgid>, t: seq<Pgid>)
    requires Distinct(s) && Distinct(t) && forall p :: p in t ==> p !in s
    ensures Distinct(s + t)
  {
    forall i, j | 0 <= i < j < |s + t|
      ensures (s + t)[i] != (s + t)[j]
    {
      if i < |s| <= j {
        assert t[j - |s|] in t && s[i] in s;
      }
    }
  }

  lemma SortedDistinctIsStrict(s: seq<Pgid>)
    requires Sorted(s) && Distinct(s)
    ensures StrictlySorted(s)
  {
  }
}
