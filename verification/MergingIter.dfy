/**
  The merging iterator (merging_iter.go): a heap over the levels' own positions, turned round when the
  direction changes. all is the sorted union of the levels; every call is proved to move like a plain
  cursor over it.
 */
module MergingIter {
  import opened Common
  import opened Entries
  import opened MergeHeap

  /** Entry e lies before place cut of the union. */
  predicate Passed(all: seq<Entry>, cut: int, e: Entry) {
    cut >= |all| || (0 <= cut && Less(e, all[cut]))
  }

  /** The first n entries of a level are those before the cut. */
  ghost predicate SplitAt(list: seq<Entry>, n: int, all: seq<Entry>, cut: int) {
    0 <= n <= |list| && forall j :: 0 <= j < |list| ==> (j < n <==> Passed(all, cut, list[j]))
  }

  /** all is the sorted union of the levels, which have no key in common. */
  ghost predicate Union(all: seq<Entry>, levels: seq<Cursor>) {
    && Sorted(all)
    && (forall i :: 0 <= i < |levels| ==> levels[i].Ok() && Inside(levels[i].list, all))
    && (forall q {:trigger InSome(levels, all[q])} :: 0 <= q < |all| ==> InSome(levels, all[q]))
    && (forall i, j :: 0 <= i < j < |levels| ==> Apart(levels[i].list, levels[j].list))
  }

  ghost predicate Inside(list: seq<Entry>, all: seq<Entry>) {
    forall j {:trigger list[j] in all} :: 0 <= j < |list| ==> list[j] in all
  }

  ghost predicate InSome(levels: seq<Cursor>, e: Entry) {
    exists i :: 0 <= i < |levels| && e in levels[i].list
  }

  ghost predicate Apart(a: seq<Entry>, b: seq<Entry>) {
    forall j, k :: 0 <= j < |a| && 0 <= k < |b| ==> a[j] != b[k]
  }

  /** Each level stands at its first entry not before the cut, or (backwards) at the last one before it. */
  ghost predicate Placed(levels: seq<Cursor>, all: seq<Entry>, cut: int, back: bool) {
    forall i :: 0 <= i < |levels| ==> SplitAt(levels[i].list, levels[i].pos + (if back then 1 else 0), all, cut)
  }

  /** One item for each level that stands at an entry. */
  ghost predicate Held(items: seq<Item>, levels: seq<Cursor>) {
    && (forall k :: 0 <= k < |items| ==> items[k].index < |levels| && levels[items[k].index].Current() == Some(items[k].key))
    && (forall i :: 0 <= i < |levels| && levels[i].Current().Some? ==> Item(i, levels[i].Current().value) in items)
    && Distinct(items)
  }

  // ----- Places in the union -----

  lemma PassedNext(all: seq<Entry>, cut: int, e: Entry)
    requires Sorted(all) && 0 <= cut < |all| && e in all
    ensures Passed(all, cut + 1, e) <==> Passed(all, cut, e) || e == all[cut]
  {
    var q :| 0 <= q < |all| && all[q] == e;
    assert q < cut ==> Less(all[q], all[cut]);
    assert q > cut ==> Less(all[cut], all[q]);
    if cut + 1 < |all| {
      assert q < cut + 1 ==> Less(all[q], all[cut + 1]);
      assert q > cut + 1 ==> Less(all[cut + 1], all[q]);
    }
  }

  lemma PassedAt(all: seq<Entry>, cut: int, q: int)
    requires Sorted(all) && 0 <= q < |all|
    ensures Passed(all, cut, all[q]) <==> q < cut
  {
    if 0 <= cut < |all| {
      assert q < cut ==> Less(all[q], all[cut]);
      assert cut < q ==> Less(all[cut], all[q]);
    }
  }

  /** Going forward, the entry at the cut is where some level stands. */
  lemma AtCut(levels: seq<Cursor>, all: seq<Entry>, cut: int) returns (i: nat)
    requires Union(all, levels) && Placed(levels, all, cut, false) && 0 <= cut < |all|
    ensures i < |levels| && levels[i].Current() == Some(all[cut])
  {
    assert InSome(levels, all[cut]);
    i :| 0 <= i < |levels| && all[cut] in levels[i].list;
    var l := levels[i];
    var j :| 0 <= j < |l.list| && l.list[j] == all[cut];
    PassedAt(all, cut, cut);
    assert SplitAt(l.list, l.pos, all, cut);
    InUnion(l.list, all, cut, j, l.pos);
  }

  /** The first entry of a level not before the cut is not after any later one. */
  lemma InUnion(list: seq<Entry>, all: seq<Entry>, cut: int, j: int, pos: int)
    requires Sorted(list) && Sorted(all) && Inside(list, all) && 0 <= cut < |all| && SplitAt(list, pos, all, cut)
    requires 0 <= j < |list| && list[j] == all[cut]
    ensures pos == j
  {
    assert !Passed(all, cut, list[j]);
    if pos < |list| {
      assert !Passed(all, cut, list[pos]);
    }
  }

  /** Going backward, the entry before the cut is where some level stands. */
  lemma BeforeCut(levels: seq<Cursor>, all: seq<Entry>, cut: int) returns (i: nat)
    requires Union(all, levels) && Placed(levels, all, cut, true) && 0 < cut <= |all|
    ensures i < |levels| && levels[i].Current() == Some(all[cut - 1])
  {
    assert InSome(levels, all[cut - 1]);
    i :| 0 <= i < |levels| && all[cut - 1] in levels[i].list;
    var l := levels[i];
    var j :| 0 <= j < |l.list| && l.list[j] == all[cut - 1];
    assert SplitAt(l.list, l.pos + 1, all, cut);
    PassedAt(all, cut, cut - 1);
    LastBefore(l.list, all, cut, j, l.pos);
  }

  lemma LastBefore(list: seq<Entry>, all: seq<Entry>, cut: int, j: int, pos: int)
    requires Sorted(list) && Sorted(all) && Inside(list, all) && 0 < cut <= |all| && SplitAt(list, pos + 1, all, cut)
    requires 0 <= j < |list| && list[j] == all[cut - 1]
    ensures pos == j
  {
    PassedAt(all, cut, cut - 1);
    if 0 <= pos {
      assert list[pos] in all;
      var q :| 0 <= q < |all| && all[q] == list[pos];
      PassedAt(all, cut, q);
      assert q < cut - 1 ==> Less(all[q], all[cut - 1]);
    }
  }

  lemma SameEntry(all: seq<Entry>, a: Entry, b: Entry)
    requires Sorted(all) && a in all && b in all && !Less(a, b) && !Less(b, a)
    ensures a == b
  {
    var p :| 0 <= p < |all| && all[p] == a;
    var q :| 0 <= q < |all| && all[q] == b;
  }

  /** Going forward, the heap's top is the entry at the cut. */
  lemma TopForward(items: seq<Item>, levels: seq<Cursor>, all: seq<Entry>, cut: int)
    requires Union(all, levels) && Placed(levels, all, cut, false) && 0 <= cut <= |all| && Held(items, levels) && HeapFrom(items, false, 0)
    ensures items == [] <==> cut == |all|
    ensures items != [] ==> items[0].key == all[cut]
  {
    if cut < |all| {
      var i := AtCut(levels, all, cut);
      assert Item(i, all[cut]) in items;
      var k :| 0 <= k < |items| && items[k] == Item(i, all[cut]);
      TopIsAhead(items, false, k);
      var l := levels[items[0].index];
      assert SplitAt(l.list, l.pos, all, cut) && Inside(l.list, all) && l.list[l.pos] == items[0].key;
      SameEntry(all, items[0].key, all[cut]);
    }
  }

  lemma TopBackward(items: seq<Item>, levels: seq<Cursor>, all: seq<Entry>, cut: int)
    requires Union(all, levels) && Placed(levels, all, cut, true) && 0 <= cut <= |all| && Held(items, levels) && HeapFrom(items, true, 0)
    ensures items == [] <==> cut == 0
    ensures items != [] ==> items[0].key == all[cut - 1]
  {
    if 0 < cut {
      var i := BeforeCut(levels, all, cut);
      assert Item(i, all[cut - 1]) in items;
      var k :| 0 <= k < |items| && items[k] == Item(i, all[cut - 1]);
      TopIsAhead(items, true, k);
      var l := levels[items[0].index];
      assert SplitAt(l.list, l.pos + 1, all, cut) && Inside(l.list, all) && l.list[l.pos] == items[0].key;
      NotAfter(all, cut, items[0].key);
      SameEntry(all, items[0].key, all[cut - 1]);
    } else {
      FrontIsEmpty(levels, all);
      if items != [] {
        TopStands(items, levels);
        assert false;
      }
    }
  }

  lemma TopStands(items: seq<Item>, levels: seq<Cursor>)
    requires Held(items, levels) && items != []
    ensures items[0].index < |levels| && levels[items[0].index].Current().Some?
  {
  }

  /** Before the first entry, every level stands before its own first. */
  lemma FrontIsEmpty(levels: seq<Cursor>, all: seq<Entry>)
    requires Union(all, levels) && Placed(levels, all, 0, true)
    ensures forall i :: 0 <= i < |levels| ==> levels[i].Current() == None
  {
    forall i | 0 <= i < |levels|
      ensures levels[i].Current() == None
    {
      var l := levels[i];
      assert SplitAt(l.list, l.pos + 1, all, 0) && Inside(l.list, all);
      if l.list != [] {
        assert l.list[0] in all;
        var q :| 0 <= q < |all| && all[q] == l.list[0];
        PassedAt(all, 0, q);
      }
    }
  }

  lemma NotAfter(all: seq<Entry>, cut: int, e: Entry)
    requires Sorted(all) && 0 < cut <= |all| && e in all && Passed(all, cut, e)
    ensures !Less(all[cut - 1], e)
  {
    var q :| 0 <= q < |all| && all[q] == e;
    PassedAt(all, cut, q);
    assert q < cut - 1 ==> Less(all[q], all[cut - 1]);
  }

  /** Before the next place means not after this entry. */
  lemma PassedNotAfter(all: seq<Entry>, at: int, e: Entry)
    requires Sorted(all) && 0 <= at < |all| && e in all
    ensures Passed(all, at + 1, e) <==> !Less(all[at], e)
  {
    var q :| 0 <= q < |all| && all[q] == e;
    PassedAt(all, at + 1, q);
    assert at < q ==> Less(all[at], all[q]);
    assert q < at ==> Less(all[q], all[at]);
  }

  // ----- Moving single levels -----

  /** switchToMinHeap on a level: on to its first entry after key. */
  method SkipForward(l: Cursor, key: Entry) returns (r: Cursor)
    requires l.Ok() && l.pos < |l.list| && (0 <= l.pos ==> !Less(key, l.list[l.pos]))
    ensures r.list == l.list && r.Ok() && 0 <= r.pos
    ensures forall j :: 0 <= j < |l.list| ==> (j < r.pos <==> !Less(key, l.list[j]))
  {
    r := l;
    if r.Current() == None {
      r := r.First();
    }
    while r.Current().Some? && !Less(key, r.Current().value)
      invariant r.list == l.list && r.Ok() && 0 <= r.pos
      invariant forall j :: 0 <= j < r.pos ==> !Less(key, l.list[j])
      decreases |l.list| - r.pos
    {
      r := r.Next();
    }
  }

  /** switchToMaxHeap on a level: back to its last entry before key. */
  method SkipBackward(l: Cursor, key: Entry) returns (r: Cursor)
    requires l.Ok() && 0 <= l.pos && (l.pos < |l.list| ==> !Less(l.list[l.pos], key))
    ensures r.list == l.list && r.Ok() && r.pos < |l.list|
    ensures forall j :: 0 <= j < |l.list| ==> (j <= r.pos <==> Less(l.list[j], key))
  {
    r := l;
    if r.Current() == None {
      r := r.Last();
    }
    while r.Current().Some? && !Less(r.Current().value, key)
      invariant r.list == l.list && r.Ok() && r.pos < |l.list|
      invariant forall j :: r.pos < j < |l.list| ==> !Less(l.list[j], key)
      decreases r.pos
    {
      r := r.Prev();
    }
  }

  /** The same levels, standing elsewhere. */
  ghost predicate SameLists(a: seq<Cursor>, b: seq<Cursor>) {
    |a| == |b| && forall i :: 0 <= i < |a| ==> a[i].list == b[i].list && a[i].Ok()
  }

  lemma UnionMoves(all: seq<Entry>, a: seq<Cursor>, b: seq<Cursor>)
    requires Union(all, b) && SameLists(a, b)
    ensures Union(all, a)
  {
    forall q | 0 <= q < |all|
      ensures InSome(a, all[q])
    {
      assert InSome(b, all[q]);
      var i :| 0 <= i < |b| && all[q] in b[i].list;
      assert all[q] in a[i].list;
    }
  }

  /** Where absolute positioning leaves a level. */
  lemma SeekPlaces(list: seq<Entry>, all: seq<Entry>, user: int)
    requires Sorted(list) && Sorted(all) && Inside(list, all)
    ensures SplitAt(list, Below(list, user), all, Below(all, user))
    ensures SplitAt(list, 0, all, 0) && SplitAt(list, |list|, all, |all|)
  {
    BelowSplits(list, user);
    BelowSplits(all, user);
    forall j | 0 <= j < |list|
      ensures j < Below(list, user) <==> Passed(all, Below(all, user), list[j])
      ensures !Passed(all, 0, list[j])
    {
      assert list[j] in all;
      var q :| 0 <= q < |all| && all[q] == list[j];
      PassedAt(all, Below(all, user), q);
      PassedAt(all, 0, q);
    }
  }

  datatype Op = First | Last | SeekGE(user: int) | SeekLT(user: int)

  function Positioned(c: Cursor, op: Op): Cursor {
    match op
    case First => c.First()
    case Last => c.Last()
    case SeekGE(user) => c.SeekGE(user)
    case SeekLT(user) => c.SeekLT(user)
  }

  predicate Back(op: Op) { op.Last? || op.SeekLT? }

  // ----- What a move is to find -----

  datatype Goal = Smallest | Greatest | AtOrAbove(user: int) | Under(user: int) | Following(e: Entry) | Preceding(e: Entry)

  predicate Meets(goal: Goal, x: Entry) {
    match goal
    case Smallest => true
    case Greatest => true
    case AtOrAbove(user) => x.user >= user
    case Under(user) => x.user < user
    case Following(e) => Less(e, x)
    case Preceding(e) => Less(x, e)
  }

  predicate Downward(goal: Goal) { goal.Greatest? || goal.Under? || goal.Preceding? }

  /** r is the nearest entry of all levels that meets the goal, or none does. */
  ghost predicate Finds(levels: seq<Cursor>, goal: Goal, r: Option<Entry>) {
    match r
    case None => forall x :: InSome(levels, x) ==> !Meets(goal, x)
    case Some(e) =>
      && InSome(levels, e) && Meets(goal, e)
      && forall x :: InSome(levels, x) && Meets(goal, x) && x != e ==> if Downward(goal) then Less(x, e) else Less(e, x)
  }

  /** A place in the union with exactly the entries that meet the goal on its far side. */
  lemma PlaceFinds(all: seq<Entry>, levels: seq<Cursor>, goal: Goal, n: int)
    requires Union(all, levels) && -1 <= n <= |all| && (if Downward(goal) then n < |all| else 0 <= n)
    requires forall q :: 0 <= q < |all| ==> (Meets(goal, all[q]) <==> if Downward(goal) then q <= n else n <= q)
    ensures Finds(levels, goal, Cursor(all, n).Current())
  {
    forall x | InSome(levels, x) && Meets(goal, x)
      ensures 0 <= n < |all| && (x == all[n] || if Downward(goal) then Less(x, all[n]) else Less(all[n], x))
    {
      var i :| 0 <= i < |levels| && x in levels[i].list;
      assert Inside(levels[i].list, all) && x in all;
      var q :| 0 <= q < |all| && all[q] == x;
    }
    if 0 <= n < |all| {
      assert InSome(levels, all[n]);
    }
  }

  lemma PositionFinds(all: seq<Entry>, levels: seq<Cursor>, op: Op, at: int)
    requires Union(all, levels) && at == Positioned(Cursor(all, 0), op).pos
    ensures Answers(levels, op, Cursor(all, at).Current())
  {
    match op
    case First => PlaceFinds(all, levels, Smallest, at);
    case Last => PlaceFinds(all, levels, Greatest, at);
    case SeekGE(user) =>
      BelowSplits(all, user);
      PlaceFinds(all, levels, AtOrAbove(user), at);
    case SeekLT(user) =>
      BelowSplits(all, user);
      PlaceFinds(all, levels, Under(user), at);
  }

  ghost predicate Answers(levels: seq<Cursor>, op: Op, r: Option<Entry>) {
    match op
    case First => Finds(levels, Smallest, r)
    case Last => Finds(levels, Greatest, r)
    case SeekGE(user) => Finds(levels, AtOrAbove(user), r)
    case SeekLT(user) => Finds(levels, Under(user), r)
  }

  lemma StepFinds(all: seq<Entry>, levels: seq<Cursor>, n: int)
    requires Union(all, levels) && 0 <= n < |all|
    ensures Finds(levels, Following(all[n]), Cursor(all, n + 1).Current())
    ensures Finds(levels, Preceding(all[n]), Cursor(all, n - 1).Current())
  {
    PlaceFinds(all, levels, Following(all[n]), n + 1);
    PlaceFinds(all, levels, Preceding(all[n]), n - 1);
  }

  class MergingIter {
    var levels: seq<Cursor>
    var dir: int
    const heap: Heap
    ghost const all: seq<Entry>
    ghost var at: int

    constructor (levels: seq<Cursor>, ghost all: seq<Entry>)
      requires Union(all, levels)
      ensures Valid() && this.all == all && dir == 0 && fresh(heap)
    {
      this.levels, dir, this.all, at := levels, 0, all, -1;
      heap := new Heap();
    }

    ghost predicate Valid()
      reads this, heap
    {
      && Union(all, levels) && -1 <= at <= |all| && (dir == 0 || dir == 1 || dir == -1)
      && if dir == 0 then heap.items == [] && at == -1 else Facing(dir == -1)
    }

    /** The heap and the levels agree on the place, in one direction. */
    ghost predicate Facing(back: bool)
      reads this, heap
    {
      && heap.reverse == back && heap.Ok() && Held(heap.items, levels)
      && Placed(levels, all, if back then at + 1 else at, back) && (if back then at < |all| else 0 <= at)
    }

    /** The cursor this iterator stands for. */
    ghost function Cur(): Cursor
      reads this
    {
      Cursor(all, at)
    }

    /** Puts every level that stands at an entry on the heap. */
    method InitHeap(back: bool)
      requires Union(all, levels) && -1 <= at <= |all| && (if back then at < |all| else 0 <= at)
      requires Placed(levels, all, if back then at + 1 else at, back)
      modifies this`dir, heap
      ensures Valid() && dir == if back then -1 else 1
    {
      hide Held, HeldUpTo, Union, Placed;
      dir := if back then -1 else 1;
      heap.reverse := back;
      Fill();
      ghost var filled := heap.items;
      heap.Init();
      HeldPermuted(filled, heap.items, levels);
    }

    method Fill()
      modifies heap`items
      ensures HeldUpTo(heap.items, levels, |levels|)
    {
      heap.items := [];
      var i := 0;
      while i < |levels|
        invariant i <= |levels| && HeldUpTo(heap.items, levels, i)
        modifies heap`items
      {
        HeldGrows(heap.items, levels, i);
        if levels[i].Current().Some? {
          heap.items := heap.items + [Item(i, levels[i].Current().value)];
        }
        i := i + 1;
      }
    }

    /** The entry on top. */
    method Top() returns (r: Option<Entry>)
      requires Valid() && dir != 0
      ensures r == Cur().Current()
    {
      if dir == 1 {
        TopForward(heap.items, levels, all, at);
      } else {
        TopBackward(heap.items, levels, all, at + 1);
      }
      r := if |heap.items| > 0 then Some(heap.items[0].key) else None;
    }

    method PositionLevels(op: Op)
      requires SameLists(levels, levels)
      modifies this`levels
      ensures SameLists(levels, old(levels))
      ensures forall j :: 0 <= j < |levels| ==> levels[j] == Positioned(old(levels)[j], op)
    {
      var i := 0;
      while i < |levels|
        invariant i <= |levels| && SameLists(levels, old(levels))
        invariant forall j :: 0 <= j < i ==> levels[j] == Positioned(old(levels)[j], op)
        invariant forall j :: i <= j < |levels| ==> levels[j] == old(levels)[j]
        modifies this`levels
      {
        BelowSplits(levels[i].list, 0);
        levels := levels[i := Positioned(levels[i], op)];
        i := i + 1;
      }
    }

    /** First, Last, SeekGE and SeekLT: every level is positioned, then the heap is built. */
    method Position(op: Op) returns (r: Option<Entry>)
      requires Valid()
      modifies this`levels, this`dir, this`at, heap
      ensures Valid() && dir == (if Back(op) then -1 else 1) && Cur() == Positioned(old(Cur()), op) && r == Cur().Current()
      ensures Answers(old(levels), op, r)
    {
      hide Answers, Placed;
      ghost var before := levels;
      PositionLevels(op);
      at := Positioned(Cursor(all, at), op).pos;
      UnionMoves(all, levels, before);
      PositionPlaces(levels, before, all, op, at);
      PositionFinds(all, before, op, at);
      InitHeap(Back(op));
      r := Top();
    }

    method NextEntry()
      requires Valid() && dir == 1 && |heap.items| > 0
      modifies this`levels, this`at, heap`items
      ensures Valid() && at == old(at) + 1
    {
      var i := heap.items[0].index;
      ghost var moved := levels[i := levels[i].Next()];
      assert at < |all| && Union(all, moved) && Placed(moved, all, at + 1, false) by {
        StepForward(heap.items, levels, all, at);
      }
      Refresh(levels[i].Next());
      assert levels == moved;
      at := at + 1;
    }

    method PrevEntry()
      requires Valid() && dir == -1 && |heap.items| > 0
      modifies this`levels, this`at, heap`items
      ensures Valid() && at == old(at) - 1
    {
      var i := heap.items[0].index;
      ghost var moved := levels[i := levels[i].Prev()];
      assert 0 <= at && Union(all, moved) && Placed(moved, all, at, true) by {
        StepBackward(heap.items, levels, all, at);
      }
      Refresh(levels[i].Prev());
      assert levels == moved;
      at := at - 1;
    }

    /** The top item follows its level, or leaves with it. */
    method Refresh(l: Cursor)
      requires |heap.items| > 0 && heap.Ok() && Held(heap.items, levels)
      modifies this`levels, heap`items
      ensures levels == old(levels)[old(heap.items)[0].index := l] && heap.Ok() && Held(heap.items, levels)
    {
      var i := heap.items[0].index;
      HeldSteps(heap.items, levels, i, l);
      levels := levels[i := l];
      if l.Current().Some? {
        TopChanged(heap.items, heap.reverse, Item(i, l.Current().value));
        heap.items := heap.items[0 := Item(i, l.Current().value)];
        ghost var changed := heap.items;
        heap.FixTop();
        HeldAgain(changed, heap.items, levels);
      } else {
        heap.Pop();
      }
    }

    /** switchToMinHeap. */
    method TurnForward()
      requires Valid() && dir == -1 && |heap.items| > 0
      modifies this`levels, this`dir, this`at, heap
      ensures Valid() && dir == 1 && at == old(at) + 1
    {
      TopBackward(heap.items, levels, all, at + 1);
      ghost var before := levels;
      var key, cur := heap.items[0].key, heap.items[0].index;
      assert levels[cur].Current() == Some(key);
      levels := LevelsForward(levels, key, cur, all, at);
      UnionMoves(all, levels, before);
      at := at + 1;
      InitHeap(false);
    }

    /** switchToMaxHeap. */
    method TurnBackward()
      requires Valid() && dir == 1 && |heap.items| > 0
      modifies this`levels, this`dir, this`at, heap
      ensures Valid() && dir == -1 && at == old(at) - 1
    {
      TopForward(heap.items, levels, all, at);
      ghost var before := levels;
      levels := LevelsBackward(levels, heap.items[0].key, heap.items[0].index, all, at);
      UnionMoves(all, levels, before);
      at := at - 1;
      InitHeap(true);
    }

    method Next() returns (r: Option<Entry>)
      requires Valid()
      modifies this`levels, this`dir, this`at, heap
      ensures Valid() && dir == 1 && r == Cur().Current()
      ensures Cur() == if old(dir) == 0 then old(Cur()).First() else old(Cur()).Next()
      ensures match old(Cur().Current())
        case Some(e) => Finds(old(levels), Following(e), r)
        case None => if old(dir) == 1 then r == None else Finds(old(levels), Smallest, r)
    {
      hide Finds, Placed, Held;
      ghost var before, from := levels, at;
      TopTells();
      if dir != 1 {
        if |heap.items| == 0 {
          r := Position(Op.First);
        } else {
          TurnForward();
        }
      } else if |heap.items| > 0 {
        NextEntry();
      }
      r := Top();
      if 0 <= from < |all| {
        StepFinds(all, before, from);
      }
    }

    method Prev() returns (r: Option<Entry>)
      requires Valid()
      modifies this`levels, this`dir, this`at, heap
      ensures Valid() && dir == -1 && r == Cur().Current()
      ensures Cur() == if old(dir) == 0 then old(Cur()).Last() else old(Cur()).Prev()
      ensures match old(Cur().Current())
        case Some(e) => Finds(old(levels), Preceding(e), r)
        case None => if old(dir) == -1 then r == None else Finds(old(levels), Greatest, r)
    {
      hide Finds, Placed, Held;
      ghost var before, from := levels, at;
      TopTells();
      if dir != -1 {
        if |heap.items| == 0 {
          r := Position(Op.Last);
        } else {
          TurnBackward();
        }
      } else if |heap.items| > 0 {
        PrevEntry();
      }
      r := Top();
      if 0 <= from < |all| {
        StepFinds(all, before, from);
      }
    }

    /** The heap is empty exactly at the end the iterator was moving to. */
    lemma TopTells()
      requires Valid()
      ensures dir == 1 ==> (heap.items == [] <==> at == |all|)
      ensures dir == -1 ==> (heap.items == [] <==> at == -1)
    {
      if dir == 1 {
        TopForward(heap.items, levels, all, at);
      } else if dir == -1 {
        TopBackward(heap.items, levels, all, at + 1);
      }
    }
  }

  /** Every level goes on to its first entry after the current one. */
  method LevelsForward(levels: seq<Cursor>, key: Entry, cur: nat, ghost all: seq<Entry>, ghost at: int) returns (r: seq<Cursor>)
    requires Union(all, levels) && Placed(levels, all, at + 1, true) && 0 <= at < |all| && key == all[at]
    requires cur < |levels| && levels[cur].Current() == Some(key)
    ensures SameLists(r, levels) && Placed(r, all, at + 1, false)
  {
    r := levels;
    var i := 0;
    while i < |levels|
      invariant i <= |levels| && SameLists(r, levels)
      invariant forall j :: 0 <= j < i ==> SplitAt(r[j].list, r[j].pos, all, at + 1)
    {
      assert SplitAt(levels[i].list, levels[i].pos + 1, all, at + 1) && levels[i].Ok() && Inside(levels[i].list, all);
      var l := levels[i].Next();
      if i != cur {
        TurnedBack(levels, all, at, i);
        l := SkipForward(levels[i], key);
        SkippedForward(l.list, l.pos, all, at);
      }
      r := r[i := l];
      i := i + 1;
    }
  }

  method LevelsBackward(levels: seq<Cursor>, key: Entry, cur: nat, ghost all: seq<Entry>, ghost at: int) returns (r: seq<Cursor>)
    requires Union(all, levels) && Placed(levels, all, at, false) && 0 <= at < |all| && key == all[at]
    requires cur < |levels| && levels[cur].Current() == Some(key)
    ensures SameLists(r, levels) && Placed(r, all, at, true)
  {
    r := levels;
    var i := 0;
    while i < |levels|
      invariant i <= |levels| && SameLists(r, levels)
      invariant forall j :: 0 <= j < i ==> SplitAt(r[j].list, r[j].pos + 1, all, at)
    {
      assert SplitAt(levels[i].list, levels[i].pos, all, at) && levels[i].Ok();
      var l := levels[i].Prev();
      if i != cur {
        l := SkipBackward(levels[i], key);
        SkippedBackward(l.list, l.pos, all, at);
      }
      r := r[i := l];
      i := i + 1;
    }
  }

  lemma StepForward(items: seq<Item>, levels: seq<Cursor>, all: seq<Entry>, at: int)
    requires Union(all, levels) && Placed(levels, all, at, false) && 0 <= at <= |all| && Held(items, levels) && HeapFrom(items, false, 0) && items != []
    ensures var levels' := levels[items[0].index := levels[items[0].index].Next()];
      at < |all| && Union(all, levels') && Placed(levels', all, at + 1, false)
  {
    TopForward(items, levels, all, at);
    var i := items[0].index;
    forall k | 0 <= k < |levels|
      ensures SplitAt(levels[k].list, if k == i then levels[k].pos + 1 else levels[k].pos, all, at + 1)
    {
      assert SplitAt(levels[k].list, levels[k].pos, all, at) && Inside(levels[k].list, all);
      NextCut(levels[k].list, all, at);
      OnlyThere(levels, i, k);
    }
    UnionMoves(all, levels[i := levels[i].Next()], levels);
  }

  lemma NextCut(list: seq<Entry>, all: seq<Entry>, at: int)
    requires Sorted(all) && Inside(list, all) && 0 <= at < |all|
    ensures forall j :: 0 <= j < |list| ==> (Passed(all, at + 1, list[j]) <==> Passed(all, at, list[j]) || list[j] == all[at])
    ensures !Passed(all, at, all[at])
  {
    forall j | 0 <= j < |list|
      ensures Passed(all, at + 1, list[j]) <==> Passed(all, at, list[j]) || list[j] == all[at]
    {
      PassedNext(all, at, list[j]);
    }
    PassedAt(all, at, at);
  }

  lemma StepBackward(items: seq<Item>, levels: seq<Cursor>, all: seq<Entry>, at: int)
    requires Union(all, levels) && Placed(levels, all, at + 1, true) && -1 <= at < |all| && Held(items, levels) && HeapFrom(items, true, 0) && items != []
    ensures var levels' := levels[items[0].index := levels[items[0].index].Prev()];
      0 <= at && Union(all, levels') && Placed(levels', all, at, true)
  {
    TopBackward(items, levels, all, at + 1);
    var i := items[0].index;
    forall k | 0 <= k < |levels|
      ensures SplitAt(levels[k].list, if k == i then levels[k].pos else levels[k].pos + 1, all, at)
    {
      assert SplitAt(levels[k].list, levels[k].pos + 1, all, at + 1) && Inside(levels[k].list, all);
      NextCut(levels[k].list, all, at);
      OnlyThere(levels, i, k);
    }
    UnionMoves(all, levels[i := levels[i].Prev()], levels);
  }

  /** The entry one level stands at is at no other place. */
  lemma OnlyThere(levels: seq<Cursor>, i: nat, k: nat)
    requires i < |levels| && k < |levels| && levels[i].Current().Some? && levels[i].Ok()
    requires forall i, j :: 0 <= i < j < |levels| ==> Apart(levels[i].list, levels[j].list)
    ensures forall j :: 0 <= j < |levels[k].list| && levels[k].list[j] == levels[i].Current().value ==> k == i && j == levels[i].pos
  {
    if k < i {
      assert Apart(levels[k].list, levels[i].list);
    } else if i < k {
      assert Apart(levels[i].list, levels[k].list);
    } else {
      forall j | 0 <= j < |levels[k].list| && j != levels[i].pos
        ensures levels[k].list[j] != levels[i].list[levels[i].pos]
      {
        assert j < levels[i].pos ==> Less(levels[k].list[j], levels[k].list[levels[i].pos]);
        assert levels[i].pos < j ==> Less(levels[k].list[levels[i].pos], levels[k].list[j]);
      }
    }
  }

  /** The items after the level of the top item has moved: the top's is replaced or gone. */
  lemma HeldSteps(items: seq<Item>, levels: seq<Cursor>, i: nat, l: Cursor)
    requires Held(items, levels) && items != [] && i == items[0].index && i < |levels|
    ensures l.Current().Some? ==> Held(items[0 := Item(i, l.Current().value)], levels[i := l])
    ensures l.Current() == None ==> forall rest: seq<Item> ::
      Distinct(rest) && (forall x :: x in rest <==> x in items && x != items[0]) ==> Held(rest, levels[i := l])
  {
    OneEach(items, levels);
    if l.Current().Some? {
      HeldReplaced(items, levels, i, l);
    } else {
      forall rest: seq<Item> | Distinct(rest) && (forall x :: x in rest <==> x in items && x != items[0])
        ensures Held(rest, levels[i := l])
      {
        HeldPopped(items, levels, i, l, rest);
      }
    }
  }

  lemma OneEach(items: seq<Item>, levels: seq<Cursor>)
    requires Held(items, levels)
    ensures forall k, l :: 0 <= k < l < |items| ==> items[k].index != items[l].index
  {
  }

  lemma HeldReplaced(items: seq<Item>, levels: seq<Cursor>, i: nat, l: Cursor)
    requires Held(items, levels) && items != [] && i == items[0].index && i < |levels| && l.Current().Some?
    requires forall k, l :: 0 <= k < l < |items| ==> items[k].index != items[l].index
    ensures Held(items[0 := Item(i, l.Current().value)], levels[i := l])
  {
    var items', levels' := items[0 := Item(i, l.Current().value)], levels[i := l];
    forall m | 0 <= m < |levels'| && levels'[m].Current().Some?
      ensures Item(m, levels'[m].Current().value) in items'
    {
      if m == i {
        assert items'[0] == Item(m, levels'[m].Current().value);
      } else {
        var x := Item(m, levels[m].Current().value);
        assert x in items;
        var k :| 0 <= k < |items| && items[k] == x;
        assert items'[k] == x;
      }
    }
  }

  lemma HeldPopped(items: seq<Item>, levels: seq<Cursor>, i: nat, l: Cursor, rest: seq<Item>)
    requires Held(items, levels) && items != [] && i == items[0].index && i < |levels| && l.Current() == None
    requires forall k, l :: 0 <= k < l < |items| ==> items[k].index != items[l].index
    requires Distinct(rest) && (forall x :: x in rest <==> x in items && x != items[0])
    ensures Held(rest, levels[i := l])
  {
    forall k | 0 <= k < |rest|
      ensures rest[k].index < |levels| && rest[k].index != i && levels[rest[k].index].Current() == Some(rest[k].key)
    {
      assert rest[k] in items;
      var m :| 0 <= m < |items| && items[m] == rest[k];
    }
  }

  lemma TopChanged(items: seq<Item>, reverse: bool, x: Item)
    requires HeapFrom(items, reverse, 0) && items != []
    ensures HeapFrom(items[0 := x], reverse, 1)
  {
  }

  lemma HeldAgain(a: seq<Item>, b: seq<Item>, levels: seq<Cursor>)
    requires Held(a, levels) && Permuted(a, b)
    ensures Held(b, levels)
  {
    forall k | 0 <= k < |b|
      ensures b[k].index < |levels| && levels[b[k].index].Current() == Some(b[k].key)
    {
      assert b[k] in a;
    }
  }

  /** Going backward, a level stands at an entry not after the current one, or before its first. */
  lemma TurnedBack(levels: seq<Cursor>, all: seq<Entry>, at: int, i: nat)
    requires Union(all, levels) && Placed(levels, all, at + 1, true) && 0 <= at < |all| && i < |levels|
    ensures levels[i].pos < |levels[i].list| && (0 <= levels[i].pos ==> !Less(all[at], levels[i].list[levels[i].pos]))
  {
    var l := levels[i];
    assert SplitAt(l.list, l.pos + 1, all, at + 1) && Inside(l.list, all);
    if 0 <= l.pos {
      PassedNotAfter(all, at, l.list[l.pos]);
    }
  }

  lemma SkippedForward(list: seq<Entry>, pos: int, all: seq<Entry>, at: int)
    requires Sorted(all) && Inside(list, all) && 0 <= at < |all| && 0 <= pos <= |list|
    requires forall j :: 0 <= j < |list| ==> (j < pos <==> !Less(all[at], list[j]))
    ensures SplitAt(list, pos, all, at + 1)
  {
    forall j | 0 <= j < |list|
      ensures j < pos <==> Passed(all, at + 1, list[j])
    {
      PassedNotAfter(all, at, list[j]);
    }
  }

  lemma SkippedBackward(list: seq<Entry>, pos: int, all: seq<Entry>, at: int)
    requires 0 <= at < |all| && -1 <= pos < |list|
    requires forall j :: 0 <= j < |list| ==> (j <= pos <==> Less(list[j], all[at]))
    ensures SplitAt(list, pos + 1, all, at)
  {
  }

  ghost predicate HeldUpTo(items: seq<Item>, levels: seq<Cursor>, n: nat) {
    && (forall k :: 0 <= k < |items| ==> items[k].index < n && n <= |levels| && levels[items[k].index].Current() == Some(items[k].key))
    && (forall i :: 0 <= i < n && i < |levels| && levels[i].Current().Some? ==> Item(i, levels[i].Current().value) in items)
    && Distinct(items)
  }

  lemma HeldGrows(items: seq<Item>, levels: seq<Cursor>, n: nat)
    requires HeldUpTo(items, levels, n) && n < |levels|
    ensures levels[n].Current() == None ==> HeldUpTo(items, levels, n + 1)
    ensures levels[n].Current().Some? ==> HeldUpTo(items + [Item(n, levels[n].Current().value)], levels, n + 1)
  {
  }

  lemma HeldPermuted(a: seq<Item>, b: seq<Item>, levels: seq<Cursor>)
    requires HeldUpTo(a, levels, |levels|) && Permuted(a, b)
    ensures Held(b, levels)
  {
    forall k | 0 <= k < |b|
      ensures b[k].index < |levels| && levels[b[k].index].Current() == Some(b[k].key)
    {
      assert b[k] in a;
    }
  }

  lemma PositionPlaces(levels: seq<Cursor>, before: seq<Cursor>, all: seq<Entry>, op: Op, at: int)
    requires Union(all, levels) && SameLists(levels, before) && at == Positioned(Cursor(all, 0), op).pos
    requires forall j :: 0 <= j < |levels| ==> levels[j] == Positioned(before[j], op)
    ensures Placed(levels, all, if Back(op) then at + 1 else at, Back(op)) && -1 <= at <= |all| && (if Back(op) then at < |all| else 0 <= at)
  {
    forall i | 0 <= i < |levels|
      ensures SplitAt(levels[i].list, levels[i].pos + (if Back(op) then 1 else 0), all, if Back(op) then at + 1 else at)
    {
      assert levels[i].Ok() && Inside(levels[i].list, all);
      SeekPlaces(levels[i].list, all, if op.SeekGE? || op.SeekLT? then op.user else 0);
    }
  }
}
