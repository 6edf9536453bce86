/**
  The binary heap of merging_iter.go: one item per level, the least (or, reversed, the greatest)
  internal key on top, kept in order by sifting in place.
 */
module MergeHeap {
  import opened Entries

  datatype Item = Item(index: nat, key: Entry)

  /** less: the order of the heap's direction. */
  predicate Ahead(reverse: bool, a: Item, b: Item) {
    if reverse then Less(b.key, a.key) else Less(a.key, b.key)
  }

  function Parent(j: nat): nat
    requires 0 < j
  {
    (j - 1) / 2
  }

  /** Every item from the children of k on is not ahead of its parent. */
  ghost predicate HeapFrom(items: seq<Item>, reverse: bool, k: nat) {
    forall j :: 0 < j < |items| && k <= Parent(j) ==> !Ahead(reverse, items[j], items[Parent(j)])
  }

  ghost predicate Distinct(items: seq<Item>) {
    forall k, l :: 0 <= k < l < |items| ==> items[k] != items[l]
  }

  /** The same items in another order. */
  ghost predicate Permuted(a: seq<Item>, b: seq<Item>) {
    |a| == |b| && (forall x :: x in a <==> x in b) && (Distinct(a) ==> Distinct(b))
  }

  function Swapped(s: seq<Item>, i: nat, j: nat): seq<Item>
    requires i < |s| && j < |s|
  {
    s[i := s[j]][j := s[i]]
  }

  function Exchanged(k: nat, i: nat, j: nat): nat {
    if k == i then j else if k == j then i else k
  }

  lemma SwapPermutes(s: seq<Item>, i: nat, j: nat)
    requires i < |s| && j < |s|
    ensures Permuted(s, Swapped(s, i, j))
  {
    var t := Swapped(s, i, j);
    assert forall k :: 0 <= k < |s| ==> t[k] == s[Exchanged(k, i, j)] && s[k] == t[Exchanged(k, i, j)];
    forall k, l | Distinct(s) && 0 <= k < l < |t|
      ensures t[k] != t[l]
    {
      assert Exchanged(k, i, j) != Exchanged(l, i, j);
    }
  }

  lemma Children(j: nat, i: nat)
    requires 0 < j
    ensures Parent(j) == i <==> j == 2 * i + 1 || j == 2 * i + 2
  {
  }

  lemma {:induction false} TopIsAhead(items: seq<Item>, reverse: bool, j: nat)
    requires HeapFrom(items, reverse, 0) && j < |items|
    ensures !Ahead(reverse, items[j], items[0])
  {
    if j > 0 {
      TopIsAhead(items, reverse, Parent(j));
    }
  }

  /** In order but for the children of i, whose parent's place is already settled. */
  ghost predicate Sifting(items: seq<Item>, reverse: bool, k: nat, i: nat) {
    && (forall j :: 0 < j < |items| && k <= Parent(j) && Parent(j) != i ==> !Ahead(reverse, items[j], items[Parent(j)]))
    && (forall j :: 0 < j < |items| && Parent(j) == i && 0 < i && k <= Parent(i) ==> !Ahead(reverse, items[j], items[Parent(i)]))
  }

  lemma SiftStep(items: seq<Item>, reverse: bool, k: nat, i: nat, j: nat)
    requires Sifting(items, reverse, k, i) && k <= i < j < |items| && Parent(j) == i && Ahead(reverse, items[j], items[i])
    requires forall l :: 0 < l < |items| && Parent(l) == i ==> !Ahead(reverse, items[l], items[j])
    ensures Sifting(Swapped(items, i, j), reverse, k, j)
  {
  }

  class Heap {
    var items: seq<Item>
    var reverse: bool

    constructor ()
      ensures items == [] && !reverse
    {
      items, reverse := [], false;
    }

    ghost predicate Ok()
      reads this
    {
      HeapFrom(items, reverse, 0)
    }

    method Swap(i: nat, j: nat)
      requires i < |items| && j < |items|
      modifies this`items
      ensures items == Swapped(old(items), i, j) && Permuted(old(items), items)
    {
      SwapPermutes(items, i, j);
      items := items[i := items[j]][j := items[i]];
    }

    /** Sifts the item at i0 down; true if it moved. */
    method Down(i0: nat) returns (moved: bool)
      requires i0 < |items| && HeapFrom(items, reverse, i0 + 1)
      modifies this`items
      ensures Permuted(old(items), items) && HeapFrom(items, reverse, i0)
      ensures !moved ==> items == old(items)
    {
      hide HeapFrom, Sifting, Ahead;
      var i := i0;
      var more := 2 * i + 1 < |items|;
      moved := false;
      StartSift(items, reverse, i0);
      while more
        invariant i0 <= i < |items| && Permuted(old(items), items) && Sifting(items, reverse, i0, i)
        invariant more ==> 2 * i + 1 < |items|
        invariant !more ==> HeapFrom(items, reverse, i0)
        invariant !moved ==> items == old(items)
        decreases more, |items| - i
        modifies this`items
      {
        var j := Best(i);
        if Ahead(reverse, items[j], items[i]) {
          SiftStep(items, reverse, i0, i, j);
          Swap(i, j);
          i, moved, more := j, true, 2 * j + 1 < |items|;
          StopSift(items, reverse, i0, i);
        } else {
          NoneAhead(items, reverse, i, j);
          StopSift(items, reverse, i0, i);
          more := false;
        }
      }
    }

    /** The child of i that is ahead of the other. */
    method Best(i: nat) returns (j: nat)
      requires 2 * i + 1 < |items|
      ensures i < j < |items| && (j == 2 * i + 1 || j == 2 * i + 2)
      ensures forall l :: 0 < l < |items| && Parent(l) == i ==> !Ahead(reverse, items[l], items[j])
    {
      j := 2 * i + 1;
      if j + 1 < |items| && Ahead(reverse, items[j + 1], items[j]) {
        j := j + 1;
      }
      forall l | 0 < l < |items| && Parent(l) == i
        ensures l == 2 * i + 1 || l == 2 * i + 2
      {
        Children(l, i);
      }
    }

    /** Sifts the item at j up. */
    method Up(j0: nat)
      requires j0 < |items| && Rising(items, reverse, j0)
      modifies this`items
      ensures Permuted(old(items), items) && Ok()
    {
      var j := j0;
      while j > 0 && Ahead(reverse, items[j], items[Parent(j)])
        invariant 0 <= j < |items| && Permuted(old(items), items) && Rising(items, reverse, j)
        modifies this`items
      {
        RiseStep(items, reverse, j);
        Swap(Parent(j), j);
        j := Parent(j);
      }
    }

    /** Puts the heap in order again after the item on top has changed. */
    method FixTop()
      requires 0 < |items| && HeapFrom(items, reverse, 1)
      modifies this`items
      ensures Permuted(old(items), items) && Ok()
    {
      var moved := Down(0);
      if !moved {
        Up(0);
      }
    }

    /** Takes the top off. */
    method Pop()
      requires 0 < |items| && Ok()
      modifies this`items
      ensures Ok() && |items| == |old(items)| - 1
      ensures Distinct(old(items)) ==> Distinct(items) && forall x :: x in items <==> x in old(items) && x != old(items)[0]
    {
      var n := |items| - 1;
      PopKeeps(items, reverse);
      items := items[0 := items[n]][..n];
      if n > 0 {
        var moved := Down(0);
      }
    }

    /** Builds the heap bottom up. */
    method Init()
      modifies this`items
      ensures Permuted(old(items), items) && Ok()
    {
      var i := |items| / 2;
      forall j | 0 < j < |items|
        ensures Parent(j) < i
      {
      }
      while i > 0
        invariant 0 <= i <= |items| / 2 && Permuted(old(items), items) && HeapFrom(items, reverse, i)
        modifies this`items
      {
        i := i - 1;
        var moved := Down(i);
      }
    }
  }

  /** In order but for j and its parent. */
  ghost predicate Rising(items: seq<Item>, reverse: bool, j: nat) {
    && (forall l :: 0 < l < |items| && l != j ==> !Ahead(reverse, items[l], items[Parent(l)]))
    && (forall l :: 0 < l < |items| && 0 < j && Parent(l) == j ==> j < |items| && !Ahead(reverse, items[l], items[Parent(j)]))
  }

  lemma RiseStep(items: seq<Item>, reverse: bool, j: nat)
    requires 0 < j < |items| && Rising(items, reverse, j) && Ahead(reverse, items[j], items[Parent(j)])
    ensures Rising(Swapped(items, Parent(j), j), reverse, Parent(j))
  {
    var i := Parent(j);
    var t := Swapped(items, i, j);
    forall l | 0 < l < |items| && l != i
      ensures !Ahead(reverse, t[l], t[Parent(l)])
    {
      if l == j {
        assert t[l] == items[i] && t[Parent(l)] == items[j];
      } else if Parent(l) == j {
        assert t[l] == items[l] && t[Parent(l)] == items[i];
      } else if Parent(l) == i {
        assert t[l] == items[l] && t[Parent(l)] == items[j] && !Ahead(reverse, items[l], items[i]);
      } else {
        assert t[l] == items[l] && t[Parent(l)] == items[Parent(l)];
      }
    }
    forall l | 0 < l < |items| && 0 < i && Parent(l) == i
      ensures !Ahead(reverse, t[l], t[Parent(i)])
    {
      assert t[Parent(i)] == items[Parent(i)] && !Ahead(reverse, items[i], items[Parent(i)]);
      assert l != j ==> !Ahead(reverse, items[l], items[i]);
    }
  }

  lemma PopKeeps(items: seq<Item>, reverse: bool)
    requires 0 < |items| && HeapFrom(items, reverse, 0)
    ensures var n := |items| - 1; var rest := items[0 := items[n]][..n];
      && HeapFrom(rest, reverse, 1)
      && (Distinct(items) ==> Distinct(rest) && forall x :: x in rest <==> x in items && x != items[0])
  {
    var n := |items| - 1;
    var rest := items[0 := items[n]][..n];
    if Distinct(items) {
      forall x
        ensures x in rest <==> x in items && x != items[0]
      {
        if x in items && x != items[0] {
          var k :| 0 <= k < |items| && items[k] == x;
          assert k == n ==> n > 0 && rest[0] == x;
          assert k < n ==> rest[k] == x;
        }
      }
    }
  }

  lemma StartSift(items: seq<Item>, reverse: bool, i0: nat)
    requires i0 < |items| && HeapFrom(items, reverse, i0 + 1)
    ensures Sifting(items, reverse, i0, i0) && (|items| <= 2 * i0 + 1 ==> HeapFrom(items, reverse, i0))
  {
    forall j | 0 < j < |items| && Parent(j) == i0
      ensures j == 2 * i0 + 1 || j == 2 * i0 + 2
    {
      Children(j, i0);
    }
  }

  lemma NoneAhead(items: seq<Item>, reverse: bool, i: nat, j: nat)
    requires i < |items| && j < |items| && !Ahead(reverse, items[j], items[i])
    requires forall l :: 0 < l < |items| && Parent(l) == i ==> !Ahead(reverse, items[l], items[j])
    ensures forall l :: 0 < l < |items| && Parent(l) == i ==> !Ahead(reverse, items[l], items[i])
  {
  }

  /** Nothing left to sift: no child, or none ahead. */
  lemma StopSift(items: seq<Item>, reverse: bool, k: nat, i: nat)
    requires Sifting(items, reverse, k, i) && i < |items|
    ensures |items| <= 2 * i + 1 ==> HeapFrom(items, reverse, k)
    ensures (forall j :: 0 < j < |items| && Parent(j) == i ==> !Ahead(reverse, items[j], items[i])) ==> HeapFrom(items, reverse, k)
  {
    forall j | 0 < j < |items| && Parent(j) == i
      ensures j == 2 * i + 1 || j == 2 * i + 2
    {
      Children(j, i);
    }
  }
}
